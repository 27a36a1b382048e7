/** The two protocols are interchangeable for the programs that use them. */
module EqualTraces {
  import opened FlatMemory
  import ServerlessTraces
  import CentralTraces

  /** From the same contents, the serverless and the central-server system admit the same traces of loads and stores. */
  lemma ProtocolsAdmitTheSameTraces(n: nat, mem: Memory, trace: seq<Event>)
    requires n > 0
    ensures ServerlessTraces.Admits(n, mem, trace) <==> CentralTraces.Admits(n, mem, trace)
  {
    ServerlessTraces.ServerlessAdmitsExactlyLegalTraces(n, mem, trace);
    CentralTraces.CentralAdmitsExactlyLegalTraces(n, mem, trace);
  }
}
