/** What the three transports share about the span of a call (internal/proxy): which requests open one, what its
    in-flight entry says, and the client it names. */
module Spans {
  import opened Text
  import opened Rpc
  import opened RequestMaps

  /** The correlation form of a request's id; "" when it has none or does not parse. */
  function IdOf(rpc: Option<Request>): string {
    if rpc.Some? then IDString(rpc.value.id) else ""
  }

  /** An id that is read is present in the request, and none is read only where none can be. */
  lemma IdIsRead(rpc: Option<Request>, text: string)
    ensures IdOf(rpc) == text
       <==> (rpc.Some? && IsId(rpc.value.id, text)) || ((rpc.None? || rpc.value.id.None?) && text == "")
  {
    if rpc.Some? {
      IdKept(rpc.value.id, text);
    }
  }

  /** The request opens a span: it parses, its method is traced and it has an id. */
  predicate Traced(filter: Filter, rpc: Option<Request>) {
    rpc.Some? && ShouldTrace(filter, rpc.value.rpcMethod) && IdOf(rpc) != ""
  }

  /** Spelled out: a span is opened exactly for a present id that is not "", on a method that is traced. */
  lemma TracedExactly(filter: Filter, rpc: Option<Request>)
    ensures Traced(filter, rpc)
       <==> rpc.Some? && ShouldTrace(filter, rpc.value.rpcMethod) && exists id :: id != "" && IsId(rpc.value.id, id)
  {
    if rpc.Some? {
      IdIsRead(rpc, IdOf(rpc));
      if id :| id != "" && IsId(rpc.value.id, id) {
        IdIsRead(rpc, id);
      }
    }
  }

  function EntryOf(span: nat, rpc: Option<Request>, sessionID: string, now: int): InFlight {
    var (m, tool) := if rpc.Some? then (rpc.value.rpcMethod, ToolNameOf(rpc.value)) else ("", "");
    InFlight(span, m, tool, IdOf(rpc), sessionID, now)
  }

  /** Where there are no sessions every initialize replaces the client identity, an empty name included. */
  function ClientAfter(was: (string, string), rpc: Option<Request>): (string, string) {
    if rpc.Some? && rpc.value.rpcMethod == "initialize" then (rpc.value.clientName, rpc.value.clientVer) else was
  }

  /** The client after each of a series of requests. */
  function ClientAfterAll(rpcs: seq<Option<Request>>): (string, string) {
    if rpcs == [] then ("", "") else ClientAfter(ClientAfterAll(rpcs[..|rpcs| - 1]), rpcs[|rpcs| - 1])
  }

  /** So the client is the one the last initialize named, whatever it said, or none before the first: `k` is that
      request, or -1. */
  lemma {:induction false} ClientIsLastInitialize(rpcs: seq<Option<Request>>) returns (k: int)
    ensures -1 <= k < |rpcs|
    ensures forall j :: k < j < |rpcs| && rpcs[j].Some? ==> rpcs[j].value.rpcMethod != "initialize"
    ensures k >= 0 ==> rpcs[k].Some? && rpcs[k].value.rpcMethod == "initialize"
                       && ClientAfterAll(rpcs).0 == rpcs[k].value.clientName
                       && ClientAfterAll(rpcs).1 == rpcs[k].value.clientVer
    ensures k < 0 ==> ClientAfterAll(rpcs) == ("", "")
    decreases |rpcs|
  {
    k := -1;
    if rpcs != [] {
      var n := |rpcs| - 1;
      if rpcs[n].Some? && rpcs[n].value.rpcMethod == "initialize" {
        k := n;
      } else {
        k := ClientIsLastInitialize(rpcs[..n]);
      }
    }
  }

  /** The spans handed to the exporter, each with its verdict, in order. */
  type Exported = seq<(InFlight, Verdict)>

  /** The map and the exported spans once the entry under the key, if any, is taken and ended. */
  function TakenOut(reqs: FlatMap, exported: Exported, key: string, v: Verdict): (FlatMap, Exported) {
    if key in reqs then (reqs - {key}, exported + [(reqs[key], v)]) else (reqs, exported)
  }

  /** The same where a span is there to be ended. */
  function EndedIf(traced: bool, reqs: FlatMap, exported: Exported, key: string, v: Verdict): (FlatMap, Exported) {
    if traced then TakenOut(reqs, exported, key, v) else (reqs, exported)
  }

  lemma TakenOutOfStored(reqs: FlatMap, exported: Exported, key: string, e: InFlight)
    ensures forall v :: TakenOut(reqs[key := e], exported, key, v) == (reqs - {key}, exported + [(e, v)])
  {
    assert reqs[key := e] - {key} == reqs - {key};
  }
}
