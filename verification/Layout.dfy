/** Where the matrices lie in the shared region, and who owns which page of it. */
module Layout {
  import opened Base
  import opened Arithmetic
  import opened Paging
  import opened ServerlessPage
  import opened ServerlessCluster

  /** Bytes of a matrix element, and of the words a page is copied by. */
  const ELEMENT := 4

  function CalcPages(size: nat, pageSize: nat): nat
    requires pageSize > 0
  {
    size * size * ELEMENT * 3 / pageSize + 1
  }

  function GetPageIndex(vmem: nat, pageSize: nat, addr: nat): nat
    requires pageSize > 0 && vmem <= addr
  {
    (addr - vmem) / pageSize
  }

  function GetPageAddress(vmem: nat, pageSize: nat, page: nat): nat {
    vmem + pageSize * page
  }

  predicate CheckAddress(vmem: nat, pageSize: nat, pageCount: nat, addr: nat) {
    vmem <= addr <= vmem + pageSize * pageCount
  }

  /** Element i of the k-th of the three matrices, laid one after the other. */
  function Element(size: nat, k: nat, i: nat): nat {
    k * (size * size) + i
  }

  function ElementAddress(vmem: nat, size: nat, k: nat, i: nat): nat {
    vmem + ELEMENT * Element(size, k, i)
  }

  /** The range test accepts the addresses of the region and the one just past it, which no page contains. */
  lemma CheckAddressIsOneTooWide(vmem: nat, pageSize: nat, pageCount: nat, addr: nat)
    requires pageSize > 0 && vmem <= addr
    ensures CheckAddress(vmem, pageSize, pageCount, addr) <==>
            GetPageIndex(vmem, pageSize, addr) < pageCount || addr == GetPageAddress(vmem, pageSize, pageCount)
  {
    DivBelow(addr - vmem, pageSize, pageCount);
  }

  /** The pages asked for hold every element of the three matrices, for every size and page size. */
  lemma ElementsFit(size: nat, pageSize: nat, k: nat, i: nat)
    requires pageSize > 0 && pageSize % ELEMENT == 0 && k < 3 && i < size * size
    ensures pageSize / ELEMENT > 0
    ensures Element(size, k, i) / (pageSize / ELEMENT) < CalcPages(size, pageSize)
  {
    var w := pageSize / ELEMENT;
    assert pageSize == ELEMENT * w;
    DivCancel(3 * (size * size), w, ELEMENT);
    assert size * size * ELEMENT * 3 == ELEMENT * (3 * (size * size));
    MulMonotone(k, 2, size * size);
    DivMonotone(Element(size, k, i), 3 * (size * size), w);
  }

  /**
   Each element's address falls in an allocated page and passes the range
   test; the page's own address plus the offset of the word gives it back; and
   page and offset are the quotient and remainder of its position by the words
   per page, so no two elements share a word.
   */
  lemma ElementPlace(vmem: nat, size: nat, pageSize: nat, k: nat, i: nat)
    requires pageSize > 0 && pageSize % ELEMENT == 0 && k < 3 && i < size * size
    ensures var a, w := ElementAddress(vmem, size, k, i), pageSize / ELEMENT;
            && w > 0
            && CheckAddress(vmem, pageSize, CalcPages(size, pageSize), a)
            && var page, offset := GetPageIndex(vmem, pageSize, a), Element(size, k, i) % w;
               && page == Element(size, k, i) / w
               && page < CalcPages(size, pageSize)
               && offset < w
               && a == GetPageAddress(vmem, pageSize, page) + ELEMENT * offset
  {
    var a, w := ElementAddress(vmem, size, k, i), pageSize / ELEMENT;
    ElementsFit(size, pageSize, k, i);
    assert pageSize == ELEMENT * w;
    var e := Element(size, k, i);
    DivCancel(e, w, ELEMENT);
    assert e == e / w * w + e % w;
    assert ELEMENT * e == pageSize * (e / w) + ELEMENT * (e % w);
    CheckAddressIsOneTooWide(vmem, pageSize, CalcPages(size, pageSize), a);
  }

  /** Different elements never share a word. */
  lemma ElementsAreApart(size: nat, pageSize: nat, k: nat, i: nat, k': nat, i': nat)
    requires pageSize > 0 && pageSize % ELEMENT == 0 && i < size * size && i' < size * size
    requires pageSize / ELEMENT > 0
    requires var w := pageSize / ELEMENT;
             && Element(size, k, i) / w == Element(size, k', i') / w
             && Element(size, k, i) % w == Element(size, k', i') % w
    ensures k == k' && i == i'
  {
    var e, e', w := Element(size, k, i), Element(size, k', i'), pageSize / ELEMENT;
    assert e == e / w * w + e % w && e' == e' / w * w + e' % w;
    DivModUnique(e, size * size, k, i);
    DivModUnique(e, size * size, k', i');
  }

  // ---------- ownership ----------

  /** A page-table entry as the constructor fills it in; `queue` says whether a queue of readers was made. */
  datatype Entry = Entry(owner: nat, prot: Protection, state: PageState, queue: bool, writer: Option<nat>)

  /** How many of the first `pages` pages the hash gives to client c. */
  function Owned(pages: nat, clients: nat, c: nat): nat
    requires clients > 0
  {
    if pages == 0 then 0 else Owned(pages - 1, clients, c) + if Hash(pages - 1, clients) == c then 1 else 0
  }

  /** Ownership is spread as evenly as it can be. */
  lemma {:induction false} OwnershipIsBalanced(pages: nat, clients: nat, c: nat)
    requires c < clients
    ensures Owned(pages, clients, c) == pages / clients + if c < pages % clients then 1 else 0
  {
    if pages == 0 {
    } else {
      OwnershipIsBalanced(pages - 1, clients, c);
      Successor(pages - 1, clients);
    }
  }

  /**
   The page table a client builds for itself: every entry is what the protocol's
   fresh page says of that client, and the queue of readers exists exactly at
   the owner.
   */
  method BuildPageTable(pcount: nat, ccount: nat, self: nat) returns (table: array<Entry>)
    requires self < ccount
    ensures fresh(table) && table.Length == pcount
    ensures forall i, contents: seq<int> :: 0 <= i < pcount ==>
              var pg := Fresh(ccount, Hash(i, ccount), contents);
              && table[i].owner == pg.owner && table[i].writer == pg.writer
              && table[i].prot == pg.locals[self].prot && table[i].state == pg.locals[self].state
              && (table[i].queue <==> self == pg.owner)
  {
    table := new Entry[pcount](i => Entry(0, PROT_NONE, NO_ACCESS, false, None));
    for i := 0 to pcount
      invariant forall k, contents: seq<int> :: 0 <= k < i ==>
                  var pg := Fresh(ccount, Hash(k, ccount), contents);
                  && table[k].owner == pg.owner && table[k].writer == pg.writer
                  && table[k].prot == pg.locals[self].prot && table[k].state == pg.locals[self].state
                  && (table[k].queue <==> self == pg.owner)
    {
      var owner := Hash(i, ccount);
      if owner == self {
        table[i] := Entry(owner, PROT_ALL, WRITE, true, None);
      } else {
        table[i] := Entry(owner, PROT_NONE, NO_ACCESS, false, None);
      }
    }
  }
}
