/** What both protocols have in common: page protections, faults and their answers. */
module Paging {

  datatype Protection = PROT_NONE | PROT_READ | PROT_ALL

  datatype Fault = ReadFault | WriteFault

  /** The answer to a fault: the page to read, the page to write, or bare permission to write the copy already held. */
  datatype Grant =
    | ReadData(data: seq<int>)
    | WriteData(data: seq<int>)
    | WritePerm

  /** The fault of one client on one page: none, not yet answered, or answered but not yet installed. */
  datatype Request = Quiet | Waiting(fault: Fault) | Granted(grant: Grant)

  /** Access a client has or is being sent. */
  datatype Level = LNone | LRead | LWrite

  function ProtLevel(p: Protection): Level {
    match p
    case PROT_NONE => LNone
    case PROT_READ => LRead
    case PROT_ALL => LWrite
  }

  function AccessLevel(prot: Protection, request: Request): Level {
    match request
    case Granted(ReadData(_)) => LRead
    case Granted(_) => LWrite
    case _ => ProtLevel(prot)
  }
}
