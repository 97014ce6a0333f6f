/** The stdio proxy's HTTP handler itself (internal/proxy/stdio.go), proved to be a run of the transition system
    of handlers over one channel: `model` is the state of that system, and `Valid` ties it to the real fields. */
module StdioProxy {
  import opened Text
  import opened Rpc
  import opened RequestMaps
  import opened Spans
  import opened StdioChannel
  import opened StdioMux
  import opened StdioBook

  /** What wakes the waiting handler: the channel, its client leaving, its timer; or the reader runs meanwhile. */
  datatype Wake = ReaderMoves(a: ReaderAction) | ChannelReady | ClientGone | TimerFired

  /** The steps of one handler, with the reader's in between. */
  ghost predicate HandledBy(was: seq<Action>, now: seq<Action>, h: nat) {
    was <= now && forall i :: |was| <= i < |now| ==> now[i].Reader? || now[i].h == h
  }

  lemma HandledTwice(a: seq<Action>, b: seq<Action>, c: seq<Action>, h: nat)
    requires HandledBy(a, b, h) && HandledBy(b, c, h)
    ensures HandledBy(a, c, h)
  {
    assert forall i :: 0 <= i < |b| ==> b[i] == c[i];
  }

  /** What the exporter gets of an end. */
  function ExportOf(e: End): (InFlight, Verdict) { (e.entry, e.verdict) }

  /** The item settles the reply and the verdict: a line is the reply itself, an error is the verdict's text. */
  predicate SettledBy(item: Item, reply: Option<Reply>, v: Verdict) {
    match item
    case Failure(err) => reply == Some(Reply(502, "subprocess error")) && v == Failed(err)
    case Data(line) => reply == Some(Reply(200, line)) && v.Answered?
  }

  /** Of the items a handler received none but the last was decisive, and if the last was, it settles the reply. */
  ghost predicate RepliesToFirst(cfg: Config, id: string, was: seq<Item>, now: seq<Item>, reply: Option<Reply>,
                                 v: Verdict)
  {
    && was <= now
    && (forall i :: |was| <= i < |now| - 1 ==> !Decisive(cfg, now[i], id))
    && if |was| < |now| && Decisive(cfg, now[|now| - 1], id) then SettledBy(now[|now| - 1], reply, v)
       else reply.Some? ==> reply.value in {Reply(502, "subprocess closed"), Reply(504, "request timeout")}
  }

  ghost predicate NoneDecisive(cfg: Config, id: string, was: seq<Item>, now: seq<Item>) {
    was <= now && forall i :: |was| <= i < |now| ==> !Decisive(cfg, now[i], id)
  }

  lemma UpdateTwice(m: map<nat, Handler>, h: nat, first: Handler, second: Handler)
    ensures m[h := first][h := second] == m[h := second]
  {
  }

  /** What a handler's return does to the map and to what is exported. */
  lemma ExportsOfReturn(cfg: Config, s: Mux, h: nat, v: Verdict, reply: Option<Reply>)
    requires h in s.handlers
    ensures var s', rpc := Return(cfg, s, h, v, reply), s.handlers[h].rpc;
            && s'.chan == s.chan
            && (s'.reqs, Mapped(ExportOf, s'.ended))
               == EndedIf(Traced(cfg.filter, rpc), s.reqs, Mapped(ExportOf, s.ended), KeyOfRpc(rpc), v)
  {
    var key := KeyOfRpc(s.handlers[h].rpc);
    if key in s.reqs {
      MappedSnoc(ExportOf, s.ended, End(s.reqs[key], v, h));
    }
  }

  class Proxy {
    const cfg: Config
    const reqMap: RequestMap
    var chan: Chan
    var stdin: string
    var clientName: string
    var clientVer: string
    var exported: Exported
    ghost var history: seq<Action>
    ghost var model: Mux

    /** The real map, channel and exported spans are those of the system in state `s`. */
    ghost predicate Matches(s: Mux)
      reads this, reqMap
    {
      reqMap.reqs == s.reqs && chan == s.chan && exported == Mapped(ExportOf, s.ended)
    }

    ghost predicate Valid()
      reads this, reqMap
    {
      model == Run(cfg, history) && Matches(model)
    }

    constructor (cfg: Config)
      ensures Valid() && history == [] && fresh(reqMap) && this.cfg == cfg
    {
      this.cfg := cfg;
      reqMap := new RequestMap();
      chan, stdin, clientName, clientVer, exported := NEW_CHAN, "", "", "", [];
      history, model := [], NEW_MUX;
    }

    ghost method Record(a: Action)
      requires model == Run(cfg, history) && Enabled(cfg, model, a)
      modifies this`model, this`history
      ensures model == Run(cfg, history) && model == Do(cfg, old(model), a) && history == old(history) + [a]
    {
      RunSnoc(cfg, history, a);
      history, model := history + [a], Step(cfg, model, a);
    }

    method CleanupSpan(requestID: string, v: Verdict)
      modifies this`exported, reqMap
      ensures (reqMap.reqs, exported) == TakenOut(old(reqMap.reqs), old(exported), CorrelationKey("", requestID), v)
    {
      var r := reqMap.Take("", requestID);
      if r.Some? {
        exported := exported + [(r.value, v)];
      } else {
        assert reqMap.reqs == old(reqMap.reqs);
      }
    }

    /** One of the ways out: ends the handler's span if it has one. */
    method Leave(h: nat, rpc: Option<Request>, v: Verdict, reply: Option<Reply>, ghost s: Mux, ghost a: Action)
      requires model == Run(cfg, history) && Matches(s)
      requires h in s.handlers && s.handlers[h].rpc == rpc
      requires Enabled(cfg, model, a) && Do(cfg, model, a) == Return(cfg, s, h, v, reply)
      modifies this`exported, this`model, this`history, reqMap
      ensures Valid() && history == old(history) + [a] && model == Return(cfg, s, h, v, reply)
      ensures (reqMap.reqs, exported)
           == EndedIf(Traced(cfg.filter, rpc), old(reqMap.reqs), old(exported), KeyOfRpc(rpc), v)
    {
      ExportsOfReturn(cfg, s, h, v, reply);
      if Traced(cfg.filter, rpc) {
        CleanupSpan(IdOf(rpc), v);
      }
      Record(a);
    }

    method Accept(h: nat, rpc: Option<Request>)
      requires Valid() && h !in model.handlers
      modifies this`clientName, this`clientVer, this`model, this`history
      ensures Valid() && history == old(history) + [Arrive(h, rpc)]
      ensures (clientName, clientVer) == ClientAfter((old(clientName), old(clientVer)), rpc)
      ensures model == old(model).(handlers := old(model.handlers)[h := Handler(rpc, Arrived)])
    {
      if rpc.Some? && rpc.value.rpcMethod == "initialize" {
        clientName, clientVer := rpc.value.clientName, rpc.value.clientVer;
      }
      Record(Arrive(h, rpc));
    }

    method Track(h: nat, rpc: Option<Request>, now: int)
      requires Valid() && InPhase(model, h, Arrived) && model.handlers[h].rpc == rpc && Traced(cfg.filter, rpc)
      modifies this`model, this`history, reqMap
      ensures Valid() && history == old(history) + [Action.Track(h, now)]
      ensures model.handlers == old(model.handlers)[h := Handler(rpc, Tracked)]
      ensures reqMap.reqs == old(reqMap.reqs)[KeyOfRpc(rpc) := EntryOf(h, rpc, "", now)]
    {
      reqMap.Store("", IdOf(rpc), EntryOf(h, rpc, "", now));
      Record(Action.Track(h, now));
    }

    /** The request comes in; a traced one opens a span. */
    method ReceivePost(h: nat, rpc: Option<Request>, now: int)
      requires Valid() && h !in model.handlers
      modifies this`clientName, this`clientVer, this`model, this`history, reqMap
      ensures Valid() && HandledBy(old(history), history, h)
      ensures (clientName, clientVer) == ClientAfter((old(clientName), old(clientVer)), rpc)
      ensures model.handlers
          == old(model.handlers)[h := Handler(rpc, if Traced(cfg.filter, rpc) then Tracked else Arrived)]
      ensures reqMap.reqs == if Traced(cfg.filter, rpc) then old(reqMap.reqs)[KeyOfRpc(rpc) := EntryOf(h, rpc, "", now)]
                             else old(reqMap.reqs)
    {
      Accept(h, rpc);
      if Traced(cfg.filter, rpc) {
        UpdateTwice(old(model.handlers), h, Handler(rpc, Arrived), Handler(rpc, Tracked));
        Track(h, rpc, now);
      }
    }

    /** Takes the next item; a decisive one settles the reply. */
    method TakeItem(h: nat, rpc: Option<Request>) returns (settled: bool, reply: Option<Reply>, v: Verdict)
      requires Valid() && InPhase(model, h, Waiting) && model.handlers[h].rpc == rpc && chan.queue != []
      modifies this`chan, this`exported, this`model, this`history, reqMap
      ensures Valid() && history == old(history) + [Receive(h)] && chan == Pop(old(chan))
      ensures settled == Decisive(cfg, old(chan).queue[0], IdOf(rpc))
      ensures settled ==> SettledBy(old(chan).queue[0], reply, v) && VerdictFits(cfg, reply, v)
      ensures model.handlers == if settled then old(model.handlers)[h := Handler(rpc, Done(reply))]
          else old(model.handlers)
      ensures (reqMap.reqs, exported)
           == EndedIf(settled && Traced(cfg.filter, rpc), old(reqMap.reqs), old(exported), KeyOfRpc(rpc), v)
    {
      var item := chan.queue[0];
      ghost var s := model.(chan := Pop(model.chan), takers := model.takers + [h]);
      chan := Pop(chan);
      settled, reply, v := false, None, Failed("");
      match item {
        case Failure(err) =>
          settled, reply, v := true, Some(Reply(502, "subprocess error")), Failed(err);
          Leave(h, rpc, v, reply, s, Receive(h));
        case Data(line) =>
          if Answers(cfg.decode, line, IdOf(rpc)) {
            settled, reply, v := true, Some(Reply(200, line)), AnswerVerdict(cfg.decode, line);
            Leave(h, rpc, v, reply, s, Receive(h));
          } else {
            Record(Receive(h));
          }
      }
    }

    /** One round of the select statement. */
    method Select(h: nat, rpc: Option<Request>, wake: Wake) returns (settled: bool, reply: Option<Reply>, v: Verdict)
      requires Valid() && InPhase(model, h, Waiting) && model.handlers[h].rpc == rpc
      modifies this`chan, this`exported, this`model, this`history, reqMap
      ensures Valid() && HandledBy(old(history), history, h)
      ensures model.handlers == if settled then old(model.handlers)[h := Handler(rpc, Done(reply))]
          else old(model.handlers)
      ensures (reqMap.reqs, exported)
           == EndedIf(settled && Traced(cfg.filter, rpc), old(reqMap.reqs), old(exported), KeyOfRpc(rpc), v)
      ensures settled
          ==> VerdictFits(cfg, reply, v) && RepliesToFirst(cfg, IdOf(rpc), old(chan).received, chan.received, reply, v)
      ensures wake.TimerFired? ==> settled
      ensures !settled ==> NoneDecisive(cfg, IdOf(rpc), old(chan).received, chan.received)
    {
      settled, reply, v := false, None, Failed("");
      match wake {
        case ReaderMoves(a) =>
          if CanMove(chan, a) {
            chan := Move(chan, a);
            Record(Reader(a));
          }
        case ClientGone =>
          settled, v := true, Failed("client disconnected");
          Leave(h, rpc, v, reply, model, Disconnect(h));
        case TimerFired =>
          settled, reply, v := true, Some(Reply(504, "request timeout")), Failed("response timeout");
          Leave(h, rpc, v, reply, model, TimeOut(h));
        case ChannelReady =>
          if chan.queue != [] {
            settled, reply, v := TakeItem(h, rpc);
          } else if chan.closes > 0 {
            settled, reply, v := true, Some(Reply(502, "subprocess closed")), Failed("subprocess stdout closed");
            Leave(h, rpc, v, reply, model, HearClose(h));
          }
      }
    }

    /** The waiting loop. `wakes` is what the select statement meets, in order; the timer fires after the last
        of them at the latest. */
    method AwaitResponse(h: nat, rpc: Option<Request>, wakes: seq<Wake>) returns (reply: Option<Reply>, v: Verdict)
      requires Valid() && InPhase(model, h, Waiting) && model.handlers[h].rpc == rpc
      modifies this`chan, this`exported, this`model, this`history, reqMap
      ensures Valid() && HandledBy(old(history), history, h)
      ensures model.handlers == old(model.handlers)[h := Handler(rpc, Done(reply))]
      ensures (reqMap.reqs, exported)
           == EndedIf(Traced(cfg.filter, rpc), old(reqMap.reqs), old(exported), KeyOfRpc(rpc), v)
      ensures VerdictFits(cfg, reply, v) && RepliesToFirst(cfg, IdOf(rpc), old(chan).received, chan.received, reply, v)
    {
      var settled := false;
      var i := 0;
      while i < |wakes|
        invariant 0 <= i <= |wakes| && Valid() && HandledBy(old(history), history, h)
        invariant model.handlers == old(model.handlers) && (reqMap.reqs, exported) == (old(reqMap.reqs), old(exported))
        invariant NoneDecisive(cfg, IdOf(rpc), old(chan).received, chan.received)
      {
        settled, reply, v := Select(h, rpc, wakes[i]);
        if settled {
          return;
        }
        i := i + 1;
      }
      settled, reply, v := Select(h, rpc, TimerFired);
    }

    /** Writes the request as one line, the body first and then the line feed, over a pipe that takes `written`
        more bytes before it fails; says whether both writes succeeded. */
    method WriteRequest(body: string, written: nat) returns (ok: bool)
      modifies this`stdin
      ensures ok == (written > |body|)
      ensures stdin == old(stdin) + SentTo(body, true, written)
    {
      var accepted := if written < |body| then written else |body|;
      stdin := stdin + body[..accepted];
      if accepted < |body| {
        return false;
      }
      if written == |body| {
        return false;
      }
      stdin := stdin + [LF];
      return true;
    }

    /** The locked look at the running flag. */
    method CheckRunning(h: nat, rpc: Option<Request>, running: bool) returns (reply: Option<Reply>, v: Verdict)
      requires Valid() && InPhase(model, h, if Traced(cfg.filter, rpc) then Tracked else Arrived)
          && model.handlers[h].rpc == rpc
      modifies this`exported, this`model, this`history, reqMap
      ensures Valid() && history == old(history) + [Check(h, running)]
      ensures model.handlers == old(model.handlers)[h := Handler(rpc, if running then Checked else Done(reply))]
      ensures (reqMap.reqs, exported)
           == EndedIf(!running && Traced(cfg.filter, rpc), old(reqMap.reqs), old(exported), KeyOfRpc(rpc), v)
      ensures reply == Some(Reply(503, "subprocess not running")) && VerdictFits(cfg, reply, v)
    {
      reply, v := Some(Reply(503, "subprocess not running")), Failed("subprocess not running");
      if running {
        Record(Check(h, true));
      } else {
        Leave(h, rpc, v, reply, model, Check(h, false));
      }
    }

    /** Writes the request; `gone` when the handler then returns without waiting. */
    method Write(h: nat, rpc: Option<Request>, body: string, written: nat)
      returns (gone: bool, reply: Option<Reply>, v: Verdict)
      requires Valid() && InPhase(model, h, Checked) && model.handlers[h].rpc == rpc
      modifies this`stdin, this`exported, this`model, this`history, reqMap
      ensures Valid() && history == old(history) + [Action.Write(h, written > |body|)]
      ensures model.handlers == old(model.handlers)[h := Handler(rpc, if gone then Done(reply) else Waiting)]
      ensures (reqMap.reqs, exported)
           == EndedIf(gone && Traced(cfg.filter, rpc), old(reqMap.reqs), old(exported), KeyOfRpc(rpc), v)
      ensures gone == (written <= |body| || Notification(rpc))
      ensures gone ==> reply == if written <= |body| then Some(Reply(502, "subprocess write failed"))
          else Some(Reply(202, ""))
      ensures gone && Traced(cfg.filter, rpc) ==> VerdictFits(cfg, reply, v)
      ensures stdin == old(stdin) + SentTo(body, true, written)
    {
      gone, reply, v := true, Some(Reply(502, "subprocess write failed")), Failed("failed to write to subprocess");
      var ok := WriteRequest(body, written);
      if !ok {
        Leave(h, rpc, v, reply, model, Action.Write(h, false));
        return;
      }
      Record(Action.Write(h, true));
      reply := Some(Reply(202, ""));
      gone := Notification(rpc);
    }

    /** Checks the subprocess and writes the request; `gone` when the handler then returns without waiting. */
    method Send(h: nat, rpc: Option<Request>, body: string, running: bool, written: nat)
      returns (gone: bool, reply: Option<Reply>, v: Verdict)
      requires Valid() && InPhase(model, h, if Traced(cfg.filter, rpc) then Tracked else Arrived)
          && model.handlers[h].rpc == rpc
      modifies this`stdin, this`exported, this`model, this`history, reqMap
      ensures Valid() && HandledBy(old(history), history, h)
      ensures model.handlers == old(model.handlers)[h := Handler(rpc, if gone then Done(reply) else Waiting)]
      ensures (reqMap.reqs, exported)
           == EndedIf(gone && Traced(cfg.filter, rpc), old(reqMap.reqs), old(exported), KeyOfRpc(rpc), v)
      ensures gone == (!running || written <= |body| || Notification(rpc))
      ensures gone ==> FitsOutcome(cfg, rpc, running, written > |body|, chan.received, chan.received, reply, v)
      ensures gone && Traced(cfg.filter, rpc) ==> VerdictFits(cfg, reply, v)
      ensures stdin == old(stdin) + SentTo(body, running, written)
    {
      gone := true;
      reply, v := CheckRunning(h, rpc, running);
      if running {
        gone, reply, v := Write(h, rpc, body, written);
        UpdateTwice(old(model.handlers), h, Handler(rpc, Checked), Handler(rpc, if gone then Done(reply) else Waiting));
      }
    }

    /** The part of the handler after its span is opened. */
    method Forward(h: nat, rpc: Option<Request>, body: string, running: bool, written: nat, wakes: seq<Wake>)
      returns (reply: Option<Reply>, v: Verdict)
      requires Valid() && InPhase(model, h, if Traced(cfg.filter, rpc) then Tracked else Arrived)
          && model.handlers[h].rpc == rpc
      modifies this`chan, this`stdin, this`exported, this`model, this`history, reqMap
      ensures Valid() && HandledBy(old(history), history, h)
      ensures model.handlers == old(model.handlers)[h := Handler(rpc, Done(reply))]
      ensures (reqMap.reqs, exported)
           == EndedIf(Traced(cfg.filter, rpc), old(reqMap.reqs), old(exported), KeyOfRpc(rpc), v)
      ensures Traced(cfg.filter, rpc) ==> VerdictFits(cfg, reply, v)
      ensures stdin == old(stdin) + SentTo(body, running, written)
      ensures FitsOutcome(cfg, rpc, running, written > |body|, old(chan).received, chan.received, reply, v)
    {
      var gone;
      gone, reply, v := Send(h, rpc, body, running, written);
      if !gone {
        ghost var sent := history;
        reply, v := AwaitResponse(h, rpc, wakes);
        HandledTwice(old(history), sent, history, h);
        UpdateTwice(old(model.handlers), h, Handler(rpc, Waiting), Handler(rpc, Done(reply)));
      }
    }

    /** A POST from arrival to reply. Between its sections other handlers may run; here only the reader does.
        `v` is the verdict the span gets if the request is traced. */
    method ServePost(h: nat, rpc: Option<Request>, body: string, now: int, running: bool, written: nat,
        wakes: seq<Wake>)
      returns (reply: Option<Reply>, v: Verdict)
      requires Valid() && h !in model.handlers
      modifies this, reqMap
      ensures Valid() && HandledBy(old(history), history, h)
      ensures (clientName, clientVer) == ClientAfter((old(clientName), old(clientVer)), rpc)
      ensures model.handlers == old(model.handlers)[h := Handler(rpc, Done(reply))]
      ensures (reqMap.reqs, exported) ==
              if Traced(cfg.filter, rpc)
                  then (old(reqMap.reqs) - {KeyOfRpc(rpc)}, old(exported) + [(EntryOf(h, rpc, "", now), v)])
              else (old(reqMap.reqs), old(exported))
      ensures Traced(cfg.filter, rpc) ==> VerdictFits(cfg, reply, v)
      ensures stdin == old(stdin) + SentTo(body, running, written)
      ensures FitsOutcome(cfg, rpc, running, written > |body|, old(chan).received, chan.received, reply, v)
    {
      ReceivePost(h, rpc, now);
      ghost var tracked, handlers := history, model.handlers;
      TakenOutOfStored(old(reqMap.reqs), exported, KeyOfRpc(rpc), EntryOf(h, rpc, "", now));
      reply, v := Forward(h, rpc, body, running, written, wakes);
      HandledTwice(old(history), tracked, history, h);
      UpdateTwice(old(model.handlers), h, handlers[h], Handler(rpc, Done(reply)));
    }

    /** Any request. A body that cannot be read gets no further than its method check. */
    method ServeHTTP(h: nat, isPost: bool, body: Option<string>, rpc: Option<Request>, now: int, running: bool,
                     written: nat, wakes: seq<Wake>)
      returns (reply: Option<Reply>, ghost v: Verdict)
      requires Valid() && h !in model.handlers
      modifies this, reqMap
      ensures Valid() && HandledBy(old(history), history, h)
      ensures !isPost ==> reply == Some(Reply(405, "only POST is supported for stdio transport"))
      ensures isPost && body.None? ==> reply == Some(Reply(400, "reading body failed"))
      ensures !isPost || body.None?
          ==> model == old(model) && stdin == old(stdin) && exported == old(exported) && chan == old(chan)
      ensures isPost && body.Some? && running && written > |body.value|
          ==> stdin == old(stdin) + body.value + [LF]
      ensures isPost && body.Some? ==>
                && model.handlers == old(model.handlers)[h := Handler(rpc, Done(reply))]
                && stdin == old(stdin) + SentTo(body.value, running, written)
                && FitsOutcome(cfg, rpc, running, written > |body.value|, old(chan).received, chan.received, reply, v)
                && if !Traced(cfg.filter, rpc) then reqMap.reqs == old(reqMap.reqs) && exported == old(exported)
                   else && reqMap.reqs == old(reqMap.reqs) - {KeyOfRpc(rpc)}
                        && VerdictFits(cfg, reply, v)
                        && exported == old(exported) + [(EntryOf(h, rpc, "", now), v)]
    {
      v := Failed("");
      if !isPost {
        reply := Some(Reply(405, "only POST is supported for stdio transport"));
        return;
      }
      if body.None? {
        reply := Some(Reply(400, "reading body failed"));
        return;
      }
      var verdict;
      reply, verdict := ServePost(h, rpc, body.value, now, running, written, wakes);
      v := verdict;
    }
  }

  /** The reply to a request whose body could be read. */
  ghost predicate FitsOutcome(cfg: Config, rpc: Option<Request>, running: bool, sent: bool, was: seq<Item>,
                              now: seq<Item>, reply: Option<Reply>, v: Verdict)
  {
    if !running then reply == Some(Reply(503, "subprocess not running"))
    else if !sent then reply == Some(Reply(502, "subprocess write failed"))
    else if Notification(rpc) then reply == Some(Reply(202, ""))
    else RepliesToFirst(cfg, IdOf(rpc), was, now, reply, v)
  }

  /** What reaches the subprocess: the body and a line feed, or as much of that as was written. */
  function SentTo(body: string, running: bool, written: nat): string {
    var line := body + [LF];
    if !running then "" else if written < |line| then line[..written] else line
  }
}
