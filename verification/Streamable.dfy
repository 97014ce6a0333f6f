/** The streamable HTTP transport (internal/proxy/streamable.go): one POST, one span, one response body that is
    either a JSON document or an event stream. */
module Streamable {
  import opened Text
  import opened Rpc
  import opened RequestMaps
  import opened Spans
  import opened Scanner
  import opened EventStream

  datatype Start = Start(entry: InFlight, clientName: string, clientVer: string)

  datatype End = End(entry: InFlight, verdict: Verdict)

  /** What upstream does with the forwarded request. The body reaches the proxy up to `read` bytes and the
      client up to `written` bytes, less than all of it when a connection breaks. */
  datatype Upstream =
    | CreateFailed
    | Unreachable(msg: string)
    | Reply(status: nat, eventStream: bool, body: string, read: nat, written: nat)

  predicate Possible(up: Upstream) {
    up.Reply? ==> up.written <= up.read <= |up.body|
  }

  predicate Answers(decode: Decoder, id: string, payload: string) {
    AnswerIn(decode, payload).Some? && AnswerIn(decode, payload).value.0 == id
  }

  /** How an event stream with these payloads concludes the call: the first payload with the call's id
      decides, and a stream with none abandons it. */
  ghost predicate StreamVerdict(decode: Decoder, id: string, payloads: seq<string>, v: Verdict) {
    if forall i :: 0 <= i < |payloads| ==> !Answers(decode, id, payloads[i])
    then v == Abandoned(false)
    else exists i :: 0 <= i < |payloads| && IsFirstAnswer(decode, id, payloads, i)
                     && v == AnswerIn(decode, payloads[i]).value.1
  }

  ghost predicate IsFirstAnswer(decode: Decoder, id: string, payloads: seq<string>, i: nat)
    requires i < |payloads|
  {
    Answers(decode, id, payloads[i]) && forall j :: 0 <= j < i ==> !Answers(decode, id, payloads[j])
  }

  lemma {:induction false} ExactlyOneStreamVerdict(decode: Decoder, id: string, payloads: seq<string>)
      returns (v: Verdict)
    ensures forall w :: StreamVerdict(decode, id, payloads, w) <==> w == v
  {
    v := Abandoned(false);
    var i := 0;
    while i < |payloads|
      invariant 0 <= i <= |payloads|
      invariant forall j :: 0 <= j < i ==> !Answers(decode, id, payloads[j])
    {
      if Answers(decode, id, payloads[i]) {
        assert IsFirstAnswer(decode, id, payloads, i);
        return AnswerIn(decode, payloads[i]).value.1;
      }
      i := i + 1;
    }
  }

  /** A message printed anywhere in an event stream settles its call, whatever other messages, comments and
      fields come before it, as long as none of those messages carries the same id. The body may end with the
      blank line, right after its last data line, or without that line's line feed: `cut` bytes are missing. */
  lemma PrintedAnswerSettlesTheCall(decode: Decoder, id: string, blocks: seq<seq<string>>, payloads: seq<string>,
                                    cap: nat, i: nat, text: string, cut: nat)
    requires text == Unlines(Flat(blocks)) && cap > 0 && PrintsAll(blocks, payloads, cap) && cut <= 2
    requires i < |payloads| && IsFirstAnswer(decode, id, payloads, i)
    ensures cut <= |text|
    ensures StreamVerdict(decode, id, BodyPayloads(CutShort(text, cut), cap), AnswerIn(decode, payloads[i]).value.1)
  {
    CutPayloads(blocks, payloads, cap, text, cut);
    FirstAnswerDecides(decode, id, payloads, i);
  }

  lemma FirstAnswerDecides(decode: Decoder, id: string, payloads: seq<string>, i: nat)
    requires i < |payloads| && IsFirstAnswer(decode, id, payloads, i)
    ensures StreamVerdict(decode, id, payloads, AnswerIn(decode, payloads[i]).value.1)
  {
  }

  /** Exactly when a traced call is ended at all. A body that is empty, or a JSON document without the call's
      id, leaves the span open for good: this transport has no evictor. */
  predicate Concludes(decode: Decoder, id: string, up: Upstream)
    requires Possible(up)
  {
    match up
    case CreateFailed => true
    case Unreachable(_) => true
    case Reply(status, eventStream, body, read, written) =>
      status >= 400 || (written > 0 && (eventStream || Answers(decode, id, body[..read])))
  }

  /** The verdict a concluded call gets. */
  ghost predicate ConcludesWith(decode: Decoder, id: string, up: Upstream, v: Verdict)
    requires Possible(up) && Concludes(decode, id, up)
  {
    match up
    case CreateFailed => v == Failed("upstream request creation failed")
    case Unreachable(msg) => v == Failed(msg)
    case Reply(status, eventStream, body, read, written) =>
      if status >= 400 then v == Failed(RejectedMsg(status))
      else if eventStream then StreamVerdict(decode, id, BodyPayloads(body[..read], MAX_SSE_LINE), v)
      else v == AnswerIn(decode, body[..read]).value.1
  }

  /** The parser's state after `i` lines. */
  ghost predicate PayloadsAfter(lines: seq<string>, i: nat, seen: seq<string>, dataLines: seq<string>) {
    i <= |lines| && Payloads([], lines) == seen + Payloads(dataLines, lines[i..])
  }

  lemma PayloadsAfterNext(lines: seq<string>, i: nat, seen: seq<string>, dataLines: seq<string>)
    requires i < |lines| && PayloadsAfter(lines, i, seen, dataLines)
    ensures lines[i] == "" ==> PayloadsAfter(lines, i + 1, seen + Flush(dataLines), [])
    ensures lines[i] != "" ==>
              var v := DataValue(lines[i]);
              PayloadsAfter(lines, i + 1, seen, if v.Some? then dataLines + [v.value] else dataLines)
  {
    assert lines[i..][0] == lines[i] && lines[i..][1..] == lines[i + 1..];
    if lines[i] == "" {
      assert seen + (Flush(dataLines) + Payloads([], lines[i + 1..]))
          == seen + Flush(dataLines) + Payloads([], lines[i + 1..]);
    }
  }

  class StreamableProxy {
    const filter: Filter
    const decode: Decoder
    var clientName: string
    var clientVer: string
    ghost var started: seq<Start>
    ghost var ended: seq<End>

    constructor (filter: Filter, decode: Decoder)
      ensures this.filter == filter && this.decode == decode
      ensures clientName == clientVer == "" && started == [] && ended == []
    {
      this.filter, this.decode := filter, decode;
      clientName, clientVer := "", "";
      started, ended := [], [];
    }

    method EndSpan(e: InFlight, v: Verdict)
      modifies this`ended
      ensures ended == old(ended) + [End(e, v)]
    {
      ended := ended + [End(e, v)];
    }

    /** Ends the span when the message is the answer to this call. */
    method FinishIfMatch(e: InFlight, data: string) returns (matched: bool)
      modifies this`ended
      ensures matched == Answers(decode, e.requestID, data)
      ensures ended == if matched then old(ended) + [End(e, AnswerIn(decode, data).value.1)] else old(ended)
    {
      match AnswerIn(decode, data) {
        case None =>
          matched := false;
        case Some((id, verdict)) =>
          matched := id == e.requestID;
          if matched {
            EndSpan(e, verdict);
          }
      }
    }

    /** The span is ended by the first answer among the payloads `seen`, or untouched while there is none. */
    ghost predicate Settled(was: seq<End>, e: InFlight, seen: seq<string>, done: bool)
      reads this
    {
      if done
      then exists i :: 0 <= i < |seen| && IsFirstAnswer(decode, e.requestID, seen, i)
                       && ended == was + [End(e, AnswerIn(decode, seen[i]).value.1)]
      else ended == was && forall i :: 0 <= i < |seen| ==> !Answers(decode, e.requestID, seen[i])
    }

    method FinishEvent(dataLines: seq<string>, wasDone: bool, e: InFlight, ghost was: seq<End>, ghost seen: seq<string>)
      returns (done: bool)
      requires Settled(was, e, seen, wasDone)
      modifies this`ended
      ensures Settled(was, e, seen + Flush(dataLines), done)
    {
      var payload := JoinLines(dataLines);
      done := wasDone;
      ghost var now := seen + Flush(dataLines);
      if wasDone || Blank(payload) {
        assert wasDone ==> forall i :: 0 <= i < |seen| && IsFirstAnswer(decode, e.requestID, seen, i)
                                       ==> now[i] == seen[i] && IsFirstAnswer(decode, e.requestID, now, i);
        assert !wasDone ==> now == seen;
        return;
      }
      done := FinishIfMatch(e, payload);
      assert now[|seen|] == payload && forall i :: 0 <= i < |seen| ==> now[i] == seen[i];
      assert done ==> IsFirstAnswer(decode, e.requestID, now, |seen|);
    }

    /** Ends the span exactly once, for every byte sequence. */
    method EndSpanFromEventStream(data: string, e: InFlight)
      modifies this`ended
      ensures |ended| == |old(ended)| + 1 && ended[..|old(ended)|] == old(ended)
      ensures ended[|old(ended)|].entry == e
      ensures StreamVerdict(decode, e.requestID, BodyPayloads(data, 8 * 1024 * 1024), ended[|old(ended)|].verdict)
    {
      var lines := Scan(data, MAX_SSE_LINE).lines;
      ghost var seen: seq<string> := [];
      var dataLines: seq<string> := [];
      var done := false;
      var i := 0;
      while i < |lines|
        invariant 0 <= i <= |lines|
        invariant PayloadsAfter(lines, i, seen, dataLines)
        invariant Settled(old(ended), e, seen, done)
      {
        PayloadsAfterNext(lines, i, seen, dataLines);
        var line := lines[i];
        if line == "" {
          done := FinishEvent(dataLines, done, e, old(ended), seen);
          seen := seen + Flush(dataLines);
          dataLines := [];
        } else if HasPrefix(line, "data:") {
          dataLines := dataLines + [TrimPrefix(line[5..], " ")];
        }
        i := i + 1;
      }
      if dataLines == [] {
        assert seen + Flush([]) == seen;
      } else {
        done := FinishEvent(dataLines, done, e, old(ended), seen);
      }
      assert BodyPayloads(data, MAX_SSE_LINE) == seen + Flush(dataLines);
      if !done {
        EndSpan(e, Abandoned(false));
      }
    }

    /** Copies the body to the client, then concludes the call from the bytes read. */
    method StreamAndParseResponse(up: Upstream, e: InFlight) returns (client: string)
      requires up.Reply? && up.status < 400 && Possible(up)
      modifies this`ended
      ensures client == up.body[..up.written]
      ensures !Concludes(decode, e.requestID, up) ==> ended == old(ended)
      ensures Concludes(decode, e.requestID, up) ==>
                && |ended| == |old(ended)| + 1 && ended[..|old(ended)|] == old(ended)
                && ended[|old(ended)|].entry == e
                && ConcludesWith(decode, e.requestID, up, ended[|old(ended)|].verdict)
    {
      client := up.body[..up.written];
      if up.written == 0 {
        return;
      }
      var data := up.body[..up.read];
      if up.eventStream {
        EndSpanFromEventStream(data, e);
      } else {
        var _ := FinishIfMatch(e, data);
      }
    }

    /** `readOk` is whether the request body could be read, `req` the request when it parses. `now` and `span`
        are the clock and the tracer's next span. */
    method ServeHTTP(isPost: bool, readOk: bool, req: Option<Request>, up: Upstream, span: nat, now: int)
      returns (status: nat, client: string)
      requires Possible(up)
      modifies this
      ensures !isPost ==> status == 405
      ensures isPost && !readOk ==> status == 400
      ensures isPost && readOk && !up.Reply? ==> status == 502
      ensures isPost && readOk && up.Reply? ==> status == up.status && client == up.body[..up.written]
      ensures var served := isPost && readOk;
              var e := EntryOf(span, req, "", now);
              && (clientName, clientVer)
                  == (if served then ClientAfter(old((clientName, clientVer)), req) else old((clientName, clientVer)))
              && started == (if served && Traced(filter, req) then old(started) + [Start(e, clientName, clientVer)]
                  else old(started))
              && (if served && Traced(filter, req) && Concludes(decode, e.requestID, up)
                  then |ended| == |old(ended)| + 1 && ended[..|old(ended)|] == old(ended)
                       && ended[|old(ended)|].entry == e
                       && ConcludesWith(decode, e.requestID, up, ended[|old(ended)|].verdict)
                  else ended == old(ended))
    {
      client := "";
      if !isPost {
        return 405, client;
      }
      if !readOk {
        return 400, client;
      }
      if req.Some? && req.value.rpcMethod == "initialize" {
        clientName, clientVer := req.value.clientName, req.value.clientVer;
      }
      var traced := Traced(filter, req);
      var e := EntryOf(span, req, "", now);
      if traced {
        started := started + [Start(e, clientName, clientVer)];
      }
      match up {
        case CreateFailed =>
          if traced {
            EndSpan(e, Failed("upstream request creation failed"));
          }
          status := 502;
        case Unreachable(msg) =>
          if traced {
            EndSpan(e, Failed(msg));
          }
          status := 502;
        case Reply(code, _, body, _, written) =>
          status := code;
          if code >= 400 && traced {
            EndSpan(e, Failed(RejectedMsg(code)));
          }
          if traced && code < 400 {
            client := StreamAndParseResponse(up, e);
          } else {
            client := body[..written];
          }
      }
    }
  }
}
