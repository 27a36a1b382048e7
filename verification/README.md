# Distributed shared memory: coherence, barriers and the matrix program

The repository implements page-based distributed shared memory twice. In the
serverless system (`sl_dsm/`) every page is owned by one client, which keeps a
directory for it and serves the faults of all others. In the central-server
system (`dsm_server/`, `dsm.cc`) one server does that for all pages and keeps
a master copy. On top run a barrier service and a parallel matrix
multiplication. This project models all of these and proves what they promise,
separately and together.

## Main results

* **Coherence.** In every run of either system, for any number of clients,
  pages and words and any interleaving, the loads and stores are those of one
  flat memory to which all stores are applied in run order. Both systems admit
  exactly the traces of a flat memory, so they admit the same ones, and each
  legal trace needs at most one fault per access. This is for the scheduling
  discipline described below; which parts of that discipline coherence depends
  on is stated exactly, for every number of clients and every memory.
* **Directories.** Between transactions the owner's (or server's) record of
  readers and writer is exact; permission without data is granted exactly when
  the requester still holds the latest copy; the handlers' error exits cannot
  be reached.
* **Progress.** Some run of the serverless system leads to a state with
  outstanding faults in which the system can take no step if and only if there
  are at least 2 * NUM_RESPONDERS clients and at least two pages. Below that
  bound the system's own steps, each paid for by a fault, stop only when no fault
  is outstanding, whatever the schedule.
* **Fairness.** In the serverless system a waiting fault can be overtaken by
  others any number of times if and only if there are three clients and a page:
  the owner's page lock favours nobody. The central server, whose port is first
  in, first out, serves every fault: at most n - 1 others are taken up before
  it, and the system takes boundedly many steps.
* **Messages.** Invalidations and bare permissions sent, plus readers still
  queued, are exactly the readers enqueued: at most twice the read faults.
* **Barriers.** No client is released, cleaned or dismissed too early, too
  often or not at all; every run of n clients can go on until it has made
  6 * n + 3 + 2 * wait_count moves, and everybody has then finished.
* **The matrix program, end to end.** Over the paged serverless memory and the
  barriers, for every client count, size, page width, initial memory and
  interleaving at the level of single loads and stores: when client 0's
  CLEAN_UP is answered, m[i] == i for every i, and client 0's check succeeds.
  Below the deadlock bound every run can be brought to that end, and for any
  number of clients some run gets there.
* **Schedules.** Without a fair schedule the program need not end: runs of any
  length without a single access exist if and only if two clients share a page.
  A run in which each client performs the access it faulted for before it faults
  again has at most an explicit number of steps. Below the deadlock bound such a
  run that cannot go on is complete if and only if no client is left without the
  page it was given; and if no page is taken from a client before it has used
  it, a run that cannot go on is complete.

## How the code is represented

* `ServerlessPage.dfy`: one page of the serverless protocol. `BeginRead` and
  `BeginWrite` are the switches of `read_fault` and `write_fault`
  (`sl_dsm/sl_dsm_region.cc` lines 302-364 and 412-503) up to the first
  message awaited, `Proceed` and `EndDrain` what follows it, `Obey` the remote
  ends `invalidate`, `send_read_page` and `send_write_page` (541-595),
  `Installed` the requester's half (368-377 and 507-523). Every message is
  visible in the state, so other clients can act between any two of them.
* `ServerlessCluster.dfy`: all pages, each client's responder port (first in,
  first out) and its pool of NUM_RESPONDERS threads (`sl_dsm/sl_dsm.cc` lines
  54-88, 144-226, 261-263). A handler at work, or one that waits for the page
  lock, occupies its thread; an owner's own fault runs on its exception thread.
  A run is any sequence of enabled steps.
* `CentralPage.dfy`, `CentralCluster.dfy`: the same for `do_read_fault` and
  `do_write_fault` (`dsm_server/dsm_server.cc` lines 263-454) with the client
  half in `dsm.cc`; one server thread serves one fault at a time. A run is in
  order if the server takes faults from its port in the order of their arrival
  (`dsm_server/dsm_server.cc` lines 48-60); what is said of all runs holds with or
  without that order, and the runs exhibited have it. A client's responder thread
  changes the protection it was told to change before it receives again. Client
  number k of that system is index k - 1 here.
* `Handlers.dfy`, `CentralHandlers.dfy`: the handlers in the form of the code,
  as classes whose fields the methods update and whose loops drain queues and
  copy frames word by word. Each is proved to leave the page exactly as the
  protocol machine does when the fault is served to its end.
* `SyncService.dfy`: `sync_thread` (`sl_dsm/sl_dsm.cc` lines 278-377), as a
  function and as a class whose loops are proved to compute it. `Barrier.dfy`:
  the clients of the matrix program around it, with per-sender ordering only.
* `Matrix.dfy`, `Layout.dfy`: the array loops and the address arithmetic.
  `Workload.dfy`: the program of each client as a machine of single accesses.
  `SharedProgram.dfy`: that program on the paged memory.

### Scheduling assumptions

What the two systems do depends on scheduling that the code leaves open. The
page machines name three assumptions as fields of their `Discipline`, so that a
run can be made with or without each.

* `installFirst` (both systems): a client obeys a directive for a page only
  after installing a grant for that page already sent to it. The serverless
  owner unlocks after sending (lines 366, 505) and the requester locks later
  (372, 511); in the central client the exception handler (`dsm.cc` 104-137) and
  the responder thread (172-216) share no lock.
* `windowQuiet` (serverless): the owner's own application stays off a page while
  it is unprotected for the copy of a fetched page (311-314, where the code
  remarks on the race).
* `protectAtOnce` (central): a client's reply to a directive and its change of
  protection are one step. The code replies first (`dsm.cc` lines 186-215, with
  a remark that this must change).

`Conditions.CoherentExactly` and `CentralConditions.CoherentExactly` say which
are needed. Leaving aside memories without a single word, every run of the
serverless system is a run of a flat memory if and only if there is one client,
or there are two and `installFirst` holds, or `installFirst` and `windowQuiet`
both hold; every in-order run of the central system if and only if there is at most one
client, or `installFirst` and `protectAtOnce` both hold. `Hazards.dfy` and
`CentralHazard.dfy` give the runs that load a stale word in all other cases, on
any page with a word in it.

## Model

| member | source | states |
|---|---|---|
| ServerlessSafety.NextKeepsCoherent | sl_dsm/sl_dsm_region.cc:272-595 | every action of a page's protocol, at any point of a transaction, keeps directory, protections, copies and pages in flight in agreement with the latest contents, which only stores change |
| ServerlessCluster.PerformRefines | sl_dsm/sl_dsm_region.cc:272-595 | each step of the whole system is either invisible or exactly one load or store of a flat memory |
| ServerlessCluster.RunRefinesFlatMemory | sl_dsm/sl_dsm_region.cc:272-595 | the loads and stores of every run, from any coherent state, are a legal trace of one flat memory, and the run ends coherent with its contents |
| ServerlessCluster.EveryLoadIsLatest | sl_dsm/sl_dsm_region.h:186-205 | every load of every run returns the most recent write to its word in the system |
| ServerlessCluster.SingleWriterOrManyReaders | sl_dsm/sl_dsm_region.cc:404-595 | at every point of every run, drains and grants in flight included, a client that has or is being sent write access excludes all access of others, and every usable or in-flight copy is the latest; only the owner's own frame while it is open for a copy is excepted, and then nobody else has write access |
| ServerlessCluster.ErrorExitsUnreachable | sl_dsm/sl_dsm_region.cc:350-362 | no run takes an error exit of a handler, although faults wait long before they are served (350-355, 489-494) |
| ServerlessCluster.DirectoryIsExact | sl_dsm/sl_dsm_region.cc:302-503 | between transactions the queue lists, once each, exactly the other clients with or being sent READ and is empty unless the state is READ; in NO_ACCESS the writer is the one client with or being sent write access; full protection goes with state WRITE |
| ServerlessCluster.StartIsCoherent | sl_dsm/sl_dsm_region.cc:99-122 | the system as constructed is coherent with the initial contents, every page owned as the hash says |
| ServerlessCluster.PermissionWithoutDataIsSound | sl_dsm/sl_dsm_region.cc:436-471 | after the drain a remote requester gets bare permission exactly when it still has its readable copy, which is then the latest (and stays so until installed, by SingleWriterOrManyReaders); one invalidated while it waited is sent the latest page |
| ServerlessCluster.SelfReadFaultOnReadPage | sl_dsm/sl_dsm_region.cc:324-338 | the owner's read fault served on a READ page changes nothing but the fault, and the owner has a readable latest copy |
| SelfFaults.NothingToDoExactly | sl_dsm/sl_dsm_region.cc:324-338 | some run brings the owner's waiting read fault to a READ page, where the handler has nothing to do, if and only if there are at least three clients |
| Conditions.CoherentExactly | sl_dsm/sl_dsm_region.cc:272-528 | for every discipline, client count and memory: all runs are legal flat traces if and only if there is one client, or grants are installed first and there are two clients or the copy window is quiet, or no page has a word |
| Conditions.ActionIsOrderly | sl_dsm/sl_dsm_region.cc:309-314 | where these assumptions suffice the others make no difference to any action of a coherent page |
| Conditions.WindowIsTheOwners | sl_dsm/sl_dsm_region.cc:309-314 | with two clients the fault served in the copy window is the owner's own |
| Hazards.InstallFirstIsNeeded | sl_dsm/sl_dsm_region.cc:365-377 | without installFirst, whatever else holds, two or more clients have a run that loads a stale word from any page with a word |
| Hazards.QuietWindowIsNeeded | sl_dsm/sl_dsm_region.cc:309-314 | without windowQuiet, whatever else holds, three or more clients have such a run: the race the code remarks on |
| Responders.RunKeepsOrderly | sl_dsm/sl_dsm.cc:161-224 | in every run each fault and directive is exactly where it is due, once; no pool is overfull; a remote fault in service holds a thread of its owner; each client has at most one fault outstanding |
| Responders.BlockedNeedsTwoPools | sl_dsm/sl_dsm.cc:144-224 | a blocked handler needs two clients' pools full of faults of different clients, so 2 * NUM_RESPONDERS clients and pages of two owners |
| Responders.FaultsAreNeverStuck | sl_dsm/sl_dsm.cc:144-263 | with fewer than 2 * NUM_RESPONDERS clients, or a single page, no state with an outstanding fault that satisfies the invariant of RunKeepsOrderly, and so no reachable one, is stuck |
| Deadlock.DeadlockExactly | sl_dsm/sl_dsm.cc:261-263 | a run into a stuck state with outstanding faults exists if and only if there are at least 2 * NUM_RESPONDERS clients and two pages |
| Quiescence.SystemStepWorks | sl_dsm/sl_dsm_region.cc:436-446 | every step of the system itself lowers a measure of the work left, so the drain and everything around it ends |
| Quiescence.SystemRunsAreBounded | sl_dsm/sl_dsm_region.cc:272-528 | under any schedule the system takes at most that many steps before a new fault must be raised |
| Quiescence.FaultsPayForSteps | sl_dsm/sl_dsm_region.cc:272-528 | over any run the system's own steps, plus the work left, are at most the work there was plus seventeen for each fault raised |
| Quiescence.SystemComesToRest | sl_dsm/sl_dsm_region.cc:272-528 | below the deadlock bound, after any run and under any schedule, the system stops unless new faults are raised, and only when no fault is outstanding |
| Starvation.OvertakenWithoutEndExactly | sl_dsm/sl_dsm_region.cc:293-296 | for every k some fault waits while k further faults are raised, if and only if there are at least three clients and a page |
| Starvation.OwnerStarves | sl_dsm/sl_dsm_region.cc:404-407 | with three clients, on any page, the owner's own fault can wait while two others take the page from each other any number of times |
| Starvation.FewOvertake | sl_dsm/sl_dsm_region.cc:293-382 | with two clients, while one fault waits the other client raises at most two faults a page and one more; a single client raises none |
| AccessFree.AccessFreeRunsExactly | sl_dsm/sl_dsm_region.cc:272-528 | runs of any length without a load or store exist if and only if there are two clients and a page |
| ServerlessTraces.StretchIsCoherent | sl_dsm/sl_dsm_region.cc:302-503 | a lone fault is carried one message exchange further, losing work each time, until it is answered with the access it asked for |
| ServerlessTraces.LegalTraceIsRealised | sl_dsm/sl_dsm_region.cc:272-528 | every legal trace of a flat memory is performed by some run with at most one fault per access |
| ServerlessTraces.ServerlessAdmitsExactlyLegalTraces | sl_dsm/sl_dsm_region.h:186-205 | the traces of the serverless system are exactly the legal traces of a flat memory |
| MessageBound.InvalidationsArePaidFor | sl_dsm/sl_dsm_region.cc:302-471 | in every run, when nothing is being drained, PAGE_INVALID sends plus WRITE_PERM_GRANTED sends plus queued readers equal the readers ever enqueued, at most twice the read faults served |
| MessageBound.ActionBalances | sl_dsm/sl_dsm_region.cc:302-471 | the same balance action by action, with readers dequeued but not yet answered counted as owing |
| Handlers.Node.CopyPage | sl_dsm/sl_dsm_region.cc:239-251 | the frame becomes the fetched page, whatever word was scribbled first |
| Handlers.Node.TempCopy | sl_dsm/sl_dsm_region.cc:253-259 | the snapshot equals the frame and is separate from it |
| Handlers.Node.Invalidate | sl_dsm/sl_dsm_region.cc:541-555 | no access is left, and nothing else changes |
| Handlers.Node.SendReadPage | sl_dsm/sl_dsm_region.cc:557-573 | the page is sent as it is and stays readable |
| Handlers.Node.SendWritePage | sl_dsm/sl_dsm_region.cc:575-595 | the page is sent as it was and no access is left |
| Handlers.SharedPage.ReadFaultAtOwner | sl_dsm/sl_dsm_region.cc:293-367 | the handler of a read fault leaves every entry and frame, and the answer, as the protocol machine does when it serves that fault to its end |
| Handlers.SharedPage.WriteFaultAtOwner | sl_dsm/sl_dsm_region.cc:404-506 | the same for a write fault, drain loop included |
| Handlers.SharedPage.DrainReaders | sl_dsm/sl_dsm_region.cc:437-446 | the loop empties the queue, invalidates every reader but the requester, finds out whether the requester was one, and terminates |
| Handlers.SharedPage.InstallReply | sl_dsm/sl_dsm_region.cc:507-523 | the requester's half of either fault installs the answer as the machine does |
| Handlers.SharedPage.HandleFault | sl_dsm/sl_dsm_region.h:186-205 | from exception to return: the page stays coherent, and the client ends with the latest contents and exactly the access asked for, read only after a read fault, read and write after a write fault |
| Handlers.ServedRead | sl_dsm/sl_dsm_region.cc:302-364 | what the machine makes of a lone read fault, state by state: where the data comes from, who keeps a copy, what is sent |
| Handlers.ServedWrite | sl_dsm/sl_dsm_region.cc:412-503 | the same for a lone write fault up to the drain |
| CentralSafety.NextKeepsCoherent | dsm_server/dsm_server.cc:263-454 | every action of a page of the central system keeps page table, master copy, protections and copies in agreement with the latest contents |
| CentralCluster.RunRefinesFlatMemory | dsm_server/dsm_server.cc:263-454 | the loads and stores of every run of the central system are a legal trace of one flat memory |
| CentralCluster.PageTableIsExact | dsm_server/dsm_server.cc:281-314 | between faults Q is duplicate-free, empty unless the state is READ, and lists exactly the clients with or being sent READ; in WRITE the owner alone has access; outside WRITE the master copy is the latest |
| CentralCluster.EveryCopyIsLatest | dsm.cc:104-137 | at every point of every run each usable or in-flight copy is the latest, and a writer excludes all others |
| CentralCluster.StoreLeavesMasterBehind | dsm_server/dsm_server.cc:376-393 | while a page is written the master copy is stale after any store of a different value |
| CentralCluster.PermissionWithoutDataIsSound | dsm_server/dsm_server.cc:395-436 | after the drain of Q the requester gets bare permission exactly when it holds a readable copy, which is the latest, and the latest page otherwise |
| CentralCluster.FaultsAreNeverStuck | dsm_server/dsm_server.cc:66-94 | with one server thread, in every reachable state with an outstanding fault the system can take a step, for any number of clients |
| CentralQuiescence.StepWorks | dsm_server/dsm_server.cc:400-417 | every step of the central system itself lowers a measure of the work left |
| CentralQuiescence.SystemComesToRest | dsm_server/dsm_server.cc:263-454 | for any number of clients, after any run and under any schedule, the system stops unless new faults are raised, and only when no fault is outstanding |
| CentralPort.RunIsFair | dsm_server/dsm_server.cc:48-94 | while a fault waits, the others taken up are exactly those that leave the port ahead of it, at most n - 1, and the faults raised those that join it behind, at most n - 1 |
| CentralPort.EveryFaultIsServed | dsm_server/dsm_server.cc:48-94 | after any in-order run, while a fault waits at most n - 1 others are taken up and at most n - 1 raised, the system's steps are bounded, and it can always take one more in order |
| CentralTraces.LegalTraceIsRealised | dsm_server/dsm_server.cc:263-454 | every legal trace is performed by some in-order run with at most one fault per access |
| CentralTraces.CentralAdmitsExactlyLegalTraces | dsm_server/dsm_server.cc:263-454 | the traces of the central system's in-order runs are exactly the legal traces of a flat memory |
| EqualTraces.ProtocolsAdmitTheSameTraces | dsm_server/dsm_server.cc:263-454 | from equal contents both systems admit the same traces |
| CentralMessageBound.InvalidationsArePaidFor | dsm_server/dsm_server.cc:281-436 | the message balance of the central system, as for the serverless one |
| CentralConditions.CoherentExactly | dsm.cc:104-216 | for every discipline, client count and memory: all in-order runs of the central system are legal flat traces if and only if there is at most one client, or grants are installed first and protection goes with the reply, or no page has a word |
| CentralHazard.ProtectAtOnceIsNeeded | dsm.cc:186-215 | if a client may reply before it protects, two or more clients have a run that loses a store and loads a stale word, whatever else holds |
| CentralHazard.InstallFirstIsNeeded | dsm.cc:104-216 | if a client may obey PAGE_INVALID before installing a read grant, two or more clients have a run that loads a stale word, whatever else holds |
| CentralHandlers.Station.Obey | dsm.cc:179-215 | the responder's protection change and the page it sends |
| CentralHandlers.Station.InstallReply | dsm.cc:104-137 | the exception handler installs the server's answer |
| CentralHandlers.ServerPage.PageCopy | dsm_server/dsm_server.cc:330-342 | the master copy becomes the fetched page |
| CentralHandlers.ServerPage.DoReadFault | dsm_server/dsm_server.cc:263-328 | table, master copy, stations and answer end as the protocol machine leaves them |
| CentralHandlers.ServerPage.DoWriteFault | dsm_server/dsm_server.cc:346-454 | the same for a write fault, drain loop included |
| CentralHandlers.ServerPage.DrainReaders | dsm_server/dsm_server.cc:400-417 | the loop empties Q, invalidates every reader but the requester, and terminates |
| CentralHandlers.ServerPage.HandleFault | dsm.cc:104-137 | from exception to return: coherent, with the access asked for and the latest contents |
| SyncService.SyncThread.Receive | sl_dsm/sl_dsm.cc:299-376 | one turn of the receive loop changes the thread's state and replies as the service function says |
| SyncService.SyncThread.ReleaseWaiters | sl_dsm/sl_dsm.cc:318-319 | every queued client is answered once, in order, and the queue is emptied |
| SyncService.SyncThread.DismissAll | sl_dsm/sl_dsm.cc:335-341 | every queued client but client 0 is answered in order, then client 0 |
| BarrierProof.NextIsGood | sl_dsm/sl_dsm.cc:304-369 | every send, delivery and wake-up keeps clients, messages in flight and the service's queues and counters in agreement |
| BarrierTheorems.RepliesFollowTheScript | sl_dsm/vmatrix.cc:245-268 | in every run each client is sent the replies it awaits, each once and in order, and no others |
| BarrierTheorems.StartBarrier | sl_dsm/sl_dsm.cc:306-321 | no client is released before the service has received INIT_DONE from every initialiser, wait_count in all |
| BarrierTheorems.OnlyWaitInitReleases | sl_dsm/sl_dsm.cc:306-321 | an INIT_DONE, like any message but WAIT_INIT, never releases anybody |
| BarrierOrder.StartBarrierExactly | sl_dsm/sl_dsm.cc:306-321 | w INIT_DONEs and one WAIT_INIT(w) from each client, received in any order, release every client, each once, if and only if a WAIT_INIT is received last |
| BarrierTheorems.CleanUpBarrier | sl_dsm/sl_dsm.cc:343-369 | client 0's CLEAN_UP is answered only after every other client's CLIENT_DONE was received |
| BarrierTheorems.DismissalIsTogether | sl_dsm/sl_dsm.cc:323-346 | nobody is dismissed before all clients' CLIENT_DONE are received; then everybody is, once, client 0 last |
| BarrierTheorems.NeverStuck | sl_dsm/sl_dsm.cc:299-376 | until everybody has finished some client or message can move, whatever the order of arrival |
| BarrierTheorems.EveryRunCompletes | sl_dsm/vmatrix.cc:205-268 | every run can be continued to 6 * n + 3 + 2 * wait_count actions and no further, and everybody has finished exactly then |
| Matrix.FillEasy | sl_dsm/vmatrix.cc:45-51 | cell i holds i |
| Matrix.FillZero | sl_dsm/vmatrix.cc:59-63 | every cell holds 0 |
| Matrix.FillIdentity | sl_dsm/vmatrix.cc:71-82 | cell i is 1 where its row equals its column and 0 elsewhere |
| Matrix.DiagonalByModulus | sl_dsm/vmatrix.cc:75-81 | for i below side * side, i % (side + 1) == 0 exactly when row and column of i are equal |
| Matrix.PmultMatrix | sl_dsm/vmatrix.cc:90-108 | each cell of [start, stop) gains the product of its row and column if the result is not one of the factors; if it is, each cell is computed, in order, from the factors as they are by then; no other cell changes |
| Matrix.MultiplyCell | sl_dsm/vmatrix.cc:99-106 | the strided inner loop adds that product to its cell; if the result is a factor, a term that meets the cell itself reads what has been added so far; no other cell changes |
| Matrix.InPlaceApart | sl_dsm/vmatrix.cc:90-108 | with the result apart from both factors the computation in order is the product |
| Matrix.NextTerm | sl_dsm/vmatrix.cc:99-106 | the strided positions are in range and are the next cell of the row and of the column |
| Matrix.IdentityIsNeutral | sl_dsm/vmatrix.cc:71-108 | the product of any matrix with what fill_identity writes is that matrix |
| Matrix.CheckResults | sl_dsm/vmatrix.cc:147-159 | TRUE exactly when every cell i holds i |
| Matrix.CheckResultsEarly | vmatrix.cc:169-180 | the version that stops at the first wrong cell answers the same |
| Matrix.WholeProgram | sl_dsm/vmatrix.cc:231-266 | fills, full multiplication and check by one client: the result is 0, 1, 2, ... and the check succeeds |
| Matrix.SlicesPartition | sl_dsm/vmatrix.cc:127-140 | every cell is in the slice of exactly one client, for all sizes and client counts |
| Matrix.SlicesAreBalanced | sl_dsm/vmatrix.cc:127-140 | a slice has the floor of the average length or one cell more |
| Matrix.SameSlices | vmatrix.cc:154-168 | the 1-based slices of the central program are those of the serverless one |
| Layout.ElementPlace | sl_dsm/sl_dsm_region.cc:220-237 | every element of the three matrices passes the range test, lies in an allocated page, and its page address plus offset is its address |
| Layout.ElementsFit | sl_dsm/vmatrix.cc:117-120 | calc_pages covers the three matrices for every size and page size |
| Layout.ElementsAreApart | sl_dsm/vmatrix.cc:199-202 | different elements never share a word |
| Layout.CheckAddressIsOneTooWide | sl_dsm/sl_dsm_region.cc:203-218 | the range test accepts exactly the addresses in some page and the one just past the region |
| Layout.OwnershipIsBalanced | sl_dsm/sl_dsm_region.cc:68-71 | each client owns the floor of the average number of pages, or one more |
| Layout.BuildPageTable | sl_dsm/sl_dsm_region.cc:99-122 | each client's table agrees entry by entry with the fresh page of the protocol: same owner for all, full access, state WRITE and a reader queue only at the owner |
| WorkloadProof.MoveIsInv | sl_dsm/vmatrix.cc:205-268 | every access and barrier message of the program keeps: filled cells, factors unchanged, each result cell its initial value plus the terms added so far, registers consistent |
| WorkloadProof.ParallelMultiply | sl_dsm/vmatrix.cc:249-266 | on flat memory, for any fills and every interleaving of single accesses: at CLEAN_UP each result cell is its initial value plus row times column, and the check succeeds exactly when that is 0, 1, 2, ... |
| SharedProgram.RunErases | sl_dsm/vmatrix.cc:199-268 | every run of the program on the paged memory is, protocol steps erased, a run on flat memory with the same words, barriers and loops |
| EndToEnd.ParallelMultiplyOnPages | sl_dsm/vmatrix.cc:249-266 | the parallel multiplication for any fills, on the paged serverless memory |
| EndToEnd.MatrixProgramIsCorrect | sl_dsm/vmatrix.cc:205-266 | for every n >= 1, size, page width, initial memory and run: at client 0's CLEAN_UP reply m[i] == i for all i, and its completed check is TRUE |
| Completion.ProgramCanAlwaysFinish | sl_dsm/vmatrix.cc:205-268 | below the deadlock bound every run can be continued until all clients have finished with the right result found right |
| Accesses.ProgramIsBounded | sl_dsm/vmatrix.cc:205-268 | every run of the program makes at most 4 * size^2 + 4 * size^3 accesses, three fills, four for each term and the check, and 6 * n + 3 + 2 * wait_count barrier actions |
| Diligence.DiligentRunsAreBounded | sl_dsm/vmatrix.cc:205-268 | a run in which each client performs the access it faulted for before it faults again has at most LongestRun(n, size) steps |
| Diligence.CompleteExactly | sl_dsm/vmatrix.cc:205-268 | below the deadlock bound such a run that cannot go on is complete if and only if no client still owes the access it faulted for |
| Stranding.DiligenceIsNotEnough | sl_dsm/sl_dsm_region.cc:404-528 | for three clients or more whose matrices share a page some such run cannot go on and is not complete: a client lost the page before using it |
| Promptness.PromptRunsComplete | sl_dsm/vmatrix.cc:205-268 | below the deadlock bound such a run that takes no page from a client before it has used it, and cannot go on so, is complete, and has at most LongestRun(n, size) steps |
| Completion.SomeRunFinishes | sl_dsm/vmatrix.cc:205-266 | for every number of clients some run of the program finishes with the right result found right |

## Left out

- Completion.ProgramCanAlwaysFinish: states that a completing continuation exists; which schedules are sure to complete is said by Diligence.CompleteExactly and Promptness.PromptRunsComplete.
- Handlers.SharedPage.HandleFault: the methods serve one fault without interruption; interleaved service is the subject of the page machines, not of the classes. Messages to remote clients are calls on their nodes.
- CentralHandlers.ServerPage.HandleFault: likewise.
- Deadlock.DeadlockExactly: a state is stuck when no step of the system itself is enabled while a fault is outstanding; other clients' applications may still run. The stuck run uses arbitrary accesses; whether those of the matrix program can lead there, for six or more clients, is not decided.
- Quiescence.SystemComesToRest: bounds the system's own steps between new faults; that a given fault is served is not promised, and Starvation.OvertakenWithoutEndExactly says when it need not be.
- Matrix.PmultMatrix: matrices that overlap in part are not modelled. Its inner loop is the method MultiplyCell.
- SharedProgram.RunErases: within one turn of the inner loop the loads are taken in the order result, first factor, second factor; C++ leaves it open.
- Floating point: matrix elements are integers, so rounding is not modelled; integers are unbounded, so overflow of sizes and addresses is not either.
- Mach ports, name lookup and its retries, thread forking, exception forwarding, message buffers and their allocation, page deallocation (including the call in page_copy).
- `write_flag` and the repeated stores in `mfloat.h`: each fault is taken to be correctly classified as read or write.
- The time-stamp loops (`delta` is 0) and all timers.
- Copies of a page are atomic with respect to applications on the same client, except for the owner's copy of a fetched page, whose window is modelled.
- `page->state` at a client that does not own the page is kept but never decides anything; a remote read does not set it, as in the code. `writer` at a client that does not own the page is set by the class methods and not part of the protocol state.
- Which client's fault the serverless owner serves next when several wait for the page lock is left open: any of them.
- The message-processing loops `responder_thread` and `exc_thread` appear as steps of the cluster, not as methods; they only dispatch.
- The barrier cases in the central server's main loop (`dsm_server/dsm_server.cc` lines 101-169): the same queues and counters, with client 0 not kept for last; the end-to-end theorem is for the serverless system.
- MAX_CLIENTS and DSM_PAGE_COUNT: the model has any number of clients and pages, and page indices are in range.
- `fmatrix.cc`, `event_counter`, the test clients and older copies of the same code.
