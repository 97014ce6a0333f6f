/** Many HTTP handlers over one subprocess (internal/proxy/stdio.go): each writes its request and then takes
    lines from the one response channel until one answers it. Handlers and reader interleave freely; a disabled
    action changes nothing. A span is ended in the step that takes its entry, which no other thread can reach. */
module StdioMux {
  import opened Text
  import opened Rpc
  import opened RequestMaps
  import opened Spans
  import opened StdioChannel

  datatype Config = Config(filter: Filter, decode: Decoder)

  datatype Reply = Reply(status: nat, body: string)

  /** A handler: arrived; its span stored; seen the subprocess running; waiting on the channel; returned, with
      a reply unless its client had gone. */
  datatype Phase = Arrived | Tracked | Checked | Waiting | Done(reply: Option<Reply>)

  /** `rpc` is None when the body does not parse. */
  datatype Handler = Handler(rpc: Option<Request>, phase: Phase)

  datatype End = End(entry: InFlight, verdict: Verdict, handler: nat)

  /** `takers[i]` is the handler that received item `i` of the channel. */
  datatype Mux = Mux(
    reqs: FlatMap,
    handlers: map<nat, Handler>,
    chan: Chan,
    takers: seq<nat>,
    ended: seq<End>)

  const NEW_MUX := Mux(map[], map[], NEW_CHAN, [], [])

  datatype Action =
    | Arrive(h: nat, rpc: Option<Request>)
    | Track(h: nat, now: int)
    | Check(h: nat, running: bool)
    | Write(h: nat, ok: bool)
    | Receive(h: nat)
    | HearClose(h: nat)
    | Disconnect(h: nat)
    | TimeOut(h: nat)
    | Reader(a: ReaderAction)

  /** There are no sessions on this transport. */
  function KeyOfRpc(rpc: Option<Request>): string { CorrelationKey("", IdOf(rpc)) }

  /** A request that parses and has no id gets no answer. An unparseable one waits for an id "". */
  predicate Notification(rpc: Option<Request>) {
    rpc.Some? && IdOf(rpc) == ""
  }

  /** The line answers the id. */
  predicate Answers(decode: Decoder, line: string, id: string) {
    decode(line).Some? && decode(line).value.id.Some? && IDString(decode(line).value.id) == id
  }

  lemma NotificationExactly(rpc: Option<Request>)
    ensures Notification(rpc) <==> rpc.Some? && (rpc.value.id.None? || IsId(rpc.value.id, ""))
  {
    IdIsRead(rpc, "");
  }

  /** A line answers a request exactly when it decodes to a message whose id is the request's. */
  lemma AnswersById(decode: Decoder, line: string, id: string)
    ensures Answers(decode, line, id) <==> decode(line).Some? && IsId(decode(line).value.id, id)
  {
    if decode(line).Some? {
      IdKept(decode(line).value.id, id);
    }
  }

  predicate InPhase(s: Mux, h: nat, phase: Phase) {
    h in s.handlers && s.handlers[h].phase == phase
  }

  predicate Enabled(cfg: Config, s: Mux, a: Action) {
    match a
    case Arrive(h, _) => h !in s.handlers
    case Track(h, _) => InPhase(s, h, Arrived) && Traced(cfg.filter, s.handlers[h].rpc)
    case Check(h, _) => InPhase(s, h, Tracked) || (InPhase(s, h, Arrived) && !Traced(cfg.filter, s.handlers[h].rpc))
    case Write(h, _) => InPhase(s, h, Checked)
    case Receive(h) => InPhase(s, h, Waiting) && s.chan.queue != []
    case HearClose(h) => InPhase(s, h, Waiting) && ClosedAndEmpty(s.chan)
    case Disconnect(h) => InPhase(s, h, Waiting)
    case TimeOut(h) => InPhase(s, h, Waiting)
    case Reader(a) => CanMove(s.chan, a)
  }

  function Become(s: Mux, h: nat, phase: Phase): Mux
    requires h in s.handlers
  {
    s.(handlers := s.handlers[h := s.handlers[h].(phase := phase)])
  }

  /** The handler returns; if it opened a span, the entry under its id is taken and ended with the verdict. */
  function Return(cfg: Config, s: Mux, h: nat, verdict: Verdict, reply: Option<Reply>): Mux
    requires h in s.handlers
  {
    var s1 := Become(s, h, Done(reply));
    var key := KeyOfRpc(s.handlers[h].rpc);
    if Traced(cfg.filter, s.handlers[h].rpc) && key in s.reqs
    then s1.(reqs := s.reqs - {key}, ended := s.ended + [End(s.reqs[key], verdict, h)])
    else s1
  }

  function AnswerVerdict(decode: Decoder, line: string): Verdict
    requires decode(line).Some?
  {
    Answered(IsError(decode(line).value), |line|)
  }

  function OnItem(cfg: Config, s: Mux, h: nat, item: Item): Mux
    requires h in s.handlers
  {
    match item
    case Failure(err) => Return(cfg, s, h, Failed(err), Some(Reply(502, "subprocess error")))
    case Data(line) =>
      if Answers(cfg.decode, line, IdOf(s.handlers[h].rpc))
      then Return(cfg, s, h, AnswerVerdict(cfg.decode, line), Some(Reply(200, line)))
      else s
  }

  function Do(cfg: Config, s: Mux, a: Action): Mux
    requires Enabled(cfg, s, a)
  {
    match a
    case Arrive(h, rpc) => s.(handlers := s.handlers[h := Handler(rpc, Arrived)])
    case Track(h, now) =>
      var rpc := s.handlers[h].rpc;
      Become(s, h, Tracked).(reqs := s.reqs[KeyOfRpc(rpc) := EntryOf(h, rpc, "", now)])
    case Check(h, running) =>
      if running then Become(s, h, Checked)
      else Return(cfg, s, h, Failed("subprocess not running"), Some(Reply(503, "subprocess not running")))
    case Write(h, ok) =>
      if !ok then Return(cfg, s, h, Failed("failed to write to subprocess"),
          Some(Reply(502, "subprocess write failed")))
      else if Notification(s.handlers[h].rpc) then Become(s, h, Done(Some(Reply(202, ""))))
      else Become(s, h, Waiting)
    case Receive(h) =>
      OnItem(cfg, s.(chan := Pop(s.chan), takers := s.takers + [h]), h, s.chan.queue[0])
    case HearClose(h) => Return(cfg, s, h, Failed("subprocess stdout closed"), Some(Reply(502, "subprocess closed")))
    case Disconnect(h) => Return(cfg, s, h, Failed("client disconnected"), None)
    case TimeOut(h) => Return(cfg, s, h, Failed("response timeout"), Some(Reply(504, "request timeout")))
    case Reader(a) => s.(chan := Move(s.chan, a))
  }

  function Step(cfg: Config, s: Mux, a: Action): Mux {
    if Enabled(cfg, s, a) then Do(cfg, s, a) else s
  }

  function Run(cfg: Config, acts: seq<Action>): Mux {
    if acts == [] then NEW_MUX else Step(cfg, Run(cfg, acts[..|acts| - 1]), acts[|acts| - 1])
  }

  // ---------- Demultiplexing ----------

  /** A 200 reply carries a line this handler took from the channel and that answers this handler's id. */
  ghost predicate TakenAnswer(cfg: Config, s: Mux, h: nat, line: string) {
    h in s.handlers && Answers(cfg.decode, line, IdOf(s.handlers[h].rpc)) && Received(s, h, line)
  }

  /** The handler received the line at some time. */
  ghost predicate Received(s: Mux, h: nat, line: string) {
    exists i :: 0 <= i < |s.takers| && i < |s.chan.received| && s.takers[i] == h && s.chan.received[i] == Data(line)
  }

  ghost predicate Demuxed(cfg: Config, s: Mux) {
    && |s.takers| == |s.chan.received|
    && Faithful(s.chan)
    && forall h :: h in s.handlers && s.handlers[h].phase.Done? && s.handlers[h].phase.reply.Some?
                   && s.handlers[h].phase.reply.value.status == 200
         ==> TakenAnswer(cfg, s, h, s.handlers[h].phase.reply.value.body)
  }

  lemma TakenAnswerStays(cfg: Config, s: Mux, s': Mux, h: nat, line: string)
    requires TakenAnswer(cfg, s, h, line)
    requires h in s'.handlers && s'.handlers[h].rpc == s.handlers[h].rpc
    requires s.takers <= s'.takers && s.chan.received <= s'.chan.received
    ensures TakenAnswer(cfg, s', h, line)
  {
    var i :| 0 <= i < |s.takers| && i < |s.chan.received| && s.takers[i] == h && s.chan.received[i] == Data(line);
    assert s'.takers[i] == h && s'.chan.received[i] == Data(line);
  }

  lemma ReaderKeepsDemuxed(cfg: Config, s: Mux, a: ReaderAction)
    requires Demuxed(cfg, s) && CanMove(s.chan, a)
    ensures Demuxed(cfg, Do(cfg, s, Reader(a)))
  {
    ReaderKeepsFaithful(s.chan, a);
    var s' := Do(cfg, s, Reader(a));
    forall h, line | TakenAnswer(cfg, s, h, line) ensures TakenAnswer(cfg, s', h, line) {
      TakenAnswerStays(cfg, s, s', h, line);
    }
  }

  lemma ReceiveKeepsDemuxed(cfg: Config, s: Mux, h: nat)
    requires Demuxed(cfg, s) && Enabled(cfg, s, Receive(h))
    ensures Demuxed(cfg, Do(cfg, s, Receive(h)))
  {
    var s' := Do(cfg, s, Receive(h));
    PopKeepsFaithful(s.chan);
    forall g, line | g != h && TakenAnswer(cfg, s, g, line) ensures TakenAnswer(cfg, s', g, line) {
      TakenAnswerStays(cfg, s, s', g, line);
    }
    var n := |s.takers|;
    assert s'.takers[n] == h && s'.chan.received[n] == s.chan.queue[0];
  }

  /** One handler moves without a 200 reply, and the channel stays as it is. */
  lemma MoveKeepsDemuxed(cfg: Config, s: Mux, s': Mux, h: nat)
    requires Demuxed(cfg, s) && s'.chan == s.chan && s'.takers == s.takers
    requires h in s'.handlers && s'.handlers == s.handlers[h := s'.handlers[h]]
    requires h in s.handlers ==> s'.handlers[h].rpc == s.handlers[h].rpc && !s.handlers[h].phase.Done?
    requires s'.handlers[h].phase.Done? && s'.handlers[h].phase.reply.Some?
        ==> s'.handlers[h].phase.reply.value.status != 200
    ensures Demuxed(cfg, s')
  {
    forall g, line | g in s.handlers && TakenAnswer(cfg, s, g, line) ensures TakenAnswer(cfg, s', g, line) {
      TakenAnswerStays(cfg, s, s', g, line);
    }
  }

  lemma OthersKeepDemuxed(cfg: Config, s: Mux, a: Action)
    requires Demuxed(cfg, s) && Enabled(cfg, s, a) && !a.Reader? && !a.Receive?
    ensures Demuxed(cfg, Do(cfg, s, a))
  {
    MoveKeepsDemuxed(cfg, s, Do(cfg, s, a), a.h);
  }

  lemma {:induction false} RunIsDemuxed(cfg: Config, acts: seq<Action>)
    ensures Demuxed(cfg, Run(cfg, acts))
    decreases |acts|
  {
    if acts != [] {
      var n := |acts| - 1;
      RunIsDemuxed(cfg, acts[..n]);
      var s, a := Run(cfg, acts[..n]), acts[n];
      if Enabled(cfg, s, a) {
        match a
        case Reader(ra) => ReaderKeepsDemuxed(cfg, s, ra);
        case Receive(h) => ReceiveKeepsDemuxed(cfg, s, h);
        case _ => OthersKeepDemuxed(cfg, s, a);
      }
    }
  }

  /** Under every interleaving: each item is received by one handler, in the order sent; what was sent is the
      subprocess's output; and a 200 reply is a line its handler received whose id is the handler's own. */
  lemma {:induction false} RepliesAnswerTheirRequest(cfg: Config, acts: seq<Action>)
    ensures var s := Run(cfg, acts);
            && |s.takers| == |s.chan.received|
            && s.chan.received + s.chan.queue == s.chan.sent
            && PrefixThenError(s.chan.sent, s.chan.lines) && |s.chan.queue| <= 16 && s.chan.closes <= 1
            && forall h :: h in s.handlers && s.handlers[h].phase.Done? && s.handlers[h].phase.reply.Some?
                           && s.handlers[h].phase.reply.value.status == 200
                 ==> TakenAnswer(cfg, s, h, s.handlers[h].phase.reply.value.body)
  {
    RunIsDemuxed(cfg, acts);
    ChannelCarriesOutput(Run(cfg, acts).chan);
  }

  lemma StepOfClosed(cfg: Config, s: Mux, a: Action)
    requires Faithful(s.chan) && s.chan.closes > 0
    ensures Step(cfg, s, a).chan.sent == s.chan.sent && Step(cfg, s, a).chan.closes == 1
  {
    if a.Reader? && Enabled(cfg, s, a) {
      NothingAfterClose(s.chan, a.a);
    }
  }

  lemma StepOfGivenUp(cfg: Config, s: Mux, a: Action)
    requires Faithful(s.chan) && s.chan.reader == GaveUp
    ensures Step(cfg, s, a).chan.reader == GaveUp && Step(cfg, s, a).chan.closes == 0
  {
    if a.Reader? && Enabled(cfg, s, a) {
      GivenUpStaysOpen(s.chan, a.a);
    }
  }

  /** Whatever happens after the close, nothing more is sent and the channel is not closed again. And after a
      reader has given up with a line in hand the channel is never closed: handlers waiting then only learn of
      it from their own timers. */
  lemma {:induction false} LastWord(cfg: Config, acts: seq<Action>, more: seq<Action>)
    ensures var c, later := Run(cfg, acts).chan, Run(cfg, acts + more).chan;
            && (c.closes > 0 ==> later.sent == c.sent && later.closes == 1)
            && (c.reader == GaveUp ==> later.reader == GaveUp && later.closes == 0)
    decreases |more|
  {
    RunIsDemuxed(cfg, acts);
    if more == [] {
      assert acts + more == acts;
    } else {
      var n := |more| - 1;
      var before := acts + more[..n];
      assert (acts + more)[..|acts + more| - 1] == before;
      LastWord(cfg, acts, more[..n]);
      RunIsDemuxed(cfg, before);
      var s, c := Run(cfg, before), Run(cfg, acts).chan;
      if c.closes > 0 {
        StepOfClosed(cfg, s, more[n]);
      }
      if c.reader == GaveUp {
        StepOfGivenUp(cfg, s, more[n]);
      }
    }
  }

  // ---------- How the channel ends ----------

  /** Whoever replied that the subprocess closed found the channel closed and empty, and so it stays. */
  ghost predicate ClosedForThem(s: Mux) {
    forall h :: InPhase(s, h, Done(Some(Reply(502, "subprocess closed")))) ==> ClosedAndEmpty(s.chan)
  }

  lemma StepKeepsClosedForThem(cfg: Config, s: Mux, a: Action)
    requires Demuxed(cfg, s) && ClosedForThem(s)
    ensures ClosedForThem(Step(cfg, s, a))
  {
    var s' := Step(cfg, s, a);
    if a.Reader? && ClosedAndEmpty(s.chan) && Enabled(cfg, s, a) {
      NothingAfterClose(s.chan, a.a);
      ReaderKeepsFaithful(s.chan, a.a);
      QueueIsRest(s'.chan);
    }
    forall h | InPhase(s', h, Done(Some(Reply(502, "subprocess closed")))) ensures ClosedAndEmpty(s'.chan) {
      assert InPhase(s, h, Done(Some(Reply(502, "subprocess closed")))) || a == HearClose(h);
    }
  }

  /** In every run a handler replies that the subprocess closed only over a closed channel with nothing left in it. */
  lemma {:induction false} ClosedIsHeardOnlyWhenClosed(cfg: Config, acts: seq<Action>, h: nat)
    requires InPhase(Run(cfg, acts), h, Done(Some(Reply(502, "subprocess closed"))))
    ensures var c := Run(cfg, acts).chan; c.closes == 1 && c.received == c.sent
  {
    RunIsDemuxed(cfg, acts);
    RunIsClosedForThem(cfg, acts);
    ChannelCarriesOutput(Run(cfg, acts).chan);
  }

  lemma {:induction false} RunIsClosedForThem(cfg: Config, acts: seq<Action>)
    ensures ClosedForThem(Run(cfg, acts))
    decreases |acts|
  {
    if acts != [] {
      var n := |acts| - 1;
      RunIsClosedForThem(cfg, acts[..n]);
      RunIsDemuxed(cfg, acts[..n]);
      StepKeepsClosedForThem(cfg, Run(cfg, acts[..n]), acts[n]);
    }
  }

  /** The reader's last scan, in the run, and the error it ended with, if any. */
  ghost predicate ScanEnded(cfg: Config, acts: seq<Action>, err: Option<string>) {
    exists n :: 0 <= n < |acts| && acts[n] == Reader(ScanEnd(err)) && Enabled(cfg, Run(cfg, acts[..n]), acts[n])
  }

  function LastItem(err: Option<string>): seq<Item> {
    match err
    case None => []
    case Some(e) => [Failure(e)]
  }

  /** While nothing is cancelled the reader gives up on nothing: once it is past the output, every line has been
      sent, and the error its scan ended with too, but for the one it may still hold. */
  ghost predicate SendsAll(cfg: Config, acts: seq<Action>, c: Chan) {
    match c.reader
    case Reading => true
    case Offering(item, last) =>
      last ==> item.Failure? && ScanEnded(cfg, acts, Some(item.err)) && c.sent == DataItems(c.lines)
    case GaveUp => false
    case _ => exists err :: ScanEnded(cfg, acts, err) && c.sent == DataItems(c.lines) + LastItem(err)
  }

  lemma ScanEndedStays(cfg: Config, acts: seq<Action>, err: Option<string>)
    requires acts != [] && ScanEnded(cfg, acts[..|acts| - 1], err)
    ensures ScanEnded(cfg, acts, err)
  {
    var before := acts[..|acts| - 1];
    var n :| 0 <= n < |before| && before[n] == Reader(ScanEnd(err)) && Enabled(cfg, Run(cfg, before[..n]), before[n]);
    assert before[..n] == acts[..n] && acts[n] == before[n];
  }

  lemma ChanMoves(cfg: Config, s: Mux, a: Action)
    ensures var c' := Step(cfg, s, a).chan;
            if a.Reader? && Enabled(cfg, s, a) then c' == Move(s.chan, a.a)
            else && c'.reader == s.chan.reader && c'.sent == s.chan.sent && c'.lines == s.chan.lines
                 && c'.cancelled == s.chan.cancelled
  {
  }

  lemma ReaderSendsAll(cfg: Config, acts: seq<Action>, c: Chan, a: ReaderAction)
    requires acts != [] && acts[|acts| - 1] == Reader(a) && Run(cfg, acts[..|acts| - 1]).chan == c
    requires Faithful(c) && CanMove(c, a) && !c.cancelled && SendsAll(cfg, acts[..|acts| - 1], c)
    ensures Move(c, a).cancelled || SendsAll(cfg, acts, Move(c, a))
  {
    forall err | ScanEnded(cfg, acts[..|acts| - 1], err) ensures ScanEnded(cfg, acts, err) {
      ScanEndedStays(cfg, acts, err);
    }
    if a.ScanEnd? {
      assert acts[|acts| - 1] == Reader(ScanEnd(a.err));
      assert ScanEnded(cfg, acts, a.err);
      assert c.sent == DataItems(c.lines) + [];
    } else if a.Send? && c.reader.last {
      assert LastItem(Some(c.reader.item.err)) == [c.reader.item];
    }
  }

  lemma {:induction false} RunSendsAll(cfg: Config, acts: seq<Action>)
    ensures var c := Run(cfg, acts).chan; c.cancelled || SendsAll(cfg, acts, c)
    decreases |acts|
  {
    if acts != [] {
      var n := |acts| - 1;
      var s, a := Run(cfg, acts[..n]), acts[n];
      RunSendsAll(cfg, acts[..n]);
      RunIsDemuxed(cfg, acts[..n]);
      ChanMoves(cfg, s, a);
      if !s.chan.cancelled {
        if a.Reader? && Enabled(cfg, s, a) {
          ReaderSendsAll(cfg, acts, s.chan, a.a);
        } else {
          forall err | ScanEnded(cfg, acts[..n], err) ensures ScanEnded(cfg, acts, err) {
            ScanEndedStays(cfg, acts, err);
          }
        }
      }
    }
  }

  lemma {:induction false} CancelledByCancel(cfg: Config, acts: seq<Action>)
    ensures Run(cfg, acts).chan.cancelled <==> Reader(Cancel) in acts
    decreases |acts|
  {
    if acts != [] {
      var n := |acts| - 1;
      CancelledByCancel(cfg, acts[..n]);
      ChanMoves(cfg, Run(cfg, acts[..n]), acts[n]);
      assert acts == acts[..n] + [acts[n]];
    }
  }

  /** In every run without a cancellation, once the reader has closed the channel everything the subprocess wrote,
      and the error its output ended with if there was one, has been sent. */
  lemma NothingIsLostUncancelled(cfg: Config, acts: seq<Action>)
    requires Reader(Cancel) !in acts
    ensures SendsAll(cfg, acts, Run(cfg, acts).chan)
  {
    RunSendsAll(cfg, acts);
    CancelledByCancel(cfg, acts);
  }

  // ---------- Who gets the answer ----------

  /** The item ends the wait: an error, or a line with the id. */
  predicate Decisive(cfg: Config, item: Item, id: string) {
    item.Failure? || Answers(cfg.decode, item.line, id)
  }

  function ReplyTo(item: Item): Reply {
    match item
    case Failure(_) => Reply(502, "subprocess error")
    case Data(line) => Reply(200, line)
  }

  /** Each decisive item was the last its taker took, and is its reply. */
  ghost predicate Settled(cfg: Config, s: Mux) {
    && |s.takers| == |s.chan.received|
    && (forall i :: 0 <= i < |s.takers| ==> s.takers[i] in s.handlers)
    && (forall i ::
          0 <= i < |s.takers| && Decides(cfg, s, i) ==>
            InPhase(s, s.takers[i], Done(Some(ReplyTo(s.chan.received[i])))))
    && (forall i, j :: 0 <= i < j < |s.takers| && Decides(cfg, s, i) ==> s.takers[j] != s.takers[i])
  }

  /** Item `i` was decisive for the handler that took it. */
  ghost predicate Decides(cfg: Config, s: Mux, i: nat)
    requires i < |s.takers| && |s.takers| == |s.chan.received|
  {
    s.takers[i] in s.handlers && Decisive(cfg, s.chan.received[i], IdOf(s.handlers[s.takers[i]].rpc))
  }

  /** Handlers that are done stay as they are, and nothing is received. */
  lemma QuietKeepsSettled(cfg: Config, s: Mux, s': Mux)
    requires Settled(cfg, s) && s'.takers == s.takers && s'.chan.received == s.chan.received
    requires forall h :: h in s.handlers ==> h in s'.handlers && s'.handlers[h].rpc == s.handlers[h].rpc
    requires forall h :: h in s.handlers && s.handlers[h].phase.Done? ==> s'.handlers[h] == s.handlers[h]
    ensures Settled(cfg, s')
  {
    assert forall i :: 0 <= i < |s.takers| ==> Decides(cfg, s', i) == Decides(cfg, s, i);
  }

  lemma ReceiveKeepsSettled(cfg: Config, s: Mux, h: nat)
    requires Settled(cfg, s) && Enabled(cfg, s, Receive(h))
    ensures Settled(cfg, Do(cfg, s, Receive(h)))
  {
    var s', n := Do(cfg, s, Receive(h)), |s.takers|;
    assert s'.takers == s.takers + [h] && s'.chan.received == s.chan.received + [s.chan.queue[0]];
    assert forall i :: 0 <= i < n ==> Decides(cfg, s', i) == Decides(cfg, s, i);
    assert s'.takers[n] == h && s'.chan.received[n] == s.chan.queue[0];
  }

  lemma OthersReceiveNothing(cfg: Config, s: Mux, a: Action)
    requires Enabled(cfg, s, a) && !a.Receive?
    ensures Do(cfg, s, a).takers == s.takers && Do(cfg, s, a).chan.received == s.chan.received
  {
  }

  lemma OthersLeaveDone(cfg: Config, s: Mux, a: Action)
    requires Enabled(cfg, s, a) && !a.Receive?
    ensures var s' := Do(cfg, s, a);
            forall h :: h in s.handlers ==>
              && h in s'.handlers && s'.handlers[h].rpc == s.handlers[h].rpc
              && (s.handlers[h].phase.Done? ==> s'.handlers[h] == s.handlers[h])
  {
  }

  lemma OthersAreQuiet(cfg: Config, s: Mux, a: Action)
    requires Enabled(cfg, s, a) && !a.Receive? && Settled(cfg, s)
    ensures Settled(cfg, Do(cfg, s, a))
  {
    var s' := Do(cfg, s, a);
    OthersReceiveNothing(cfg, s, a);
    OthersLeaveDone(cfg, s, a);
    QuietKeepsSettled(cfg, s, s');
  }

  lemma {:induction false} RunIsSettled(cfg: Config, acts: seq<Action>)
    ensures Settled(cfg, Run(cfg, acts))
    decreases |acts|
  {
    if acts != [] {
      var n := |acts| - 1;
      RunIsSettled(cfg, acts[..n]);
      var s, a := Run(cfg, acts[..n]), acts[n];
      if Enabled(cfg, s, a) {
        if a.Receive? {
          ReceiveKeepsSettled(cfg, s, a.h);
        } else {
          OthersAreQuiet(cfg, s, a);
        }
      }
    }
  }

  /** Over every run: whoever receives a decisive item has replied with it and receives nothing more. */
  lemma {:induction false} TakersReply(cfg: Config, acts: seq<Action>, i: nat)
    requires var s := Run(cfg, acts);
             && i < |s.takers| && i < |s.chan.received| && s.takers[i] in s.handlers
             && Decisive(cfg, s.chan.received[i], IdOf(s.handlers[s.takers[i]].rpc))
    ensures var s := Run(cfg, acts);
            && s.handlers[s.takers[i]].phase == Done(Some(ReplyTo(s.chan.received[i])))
            && forall j :: i < j < |s.takers| ==> s.takers[j] != s.takers[i]
  {
    RunIsSettled(cfg, acts);
    var s := Run(cfg, acts);
    assert Decides(cfg, s, i);
  }

  /** Over every run, an answer to a handler's request is that handler's reply exactly when the handler is the
      one that received it. Any other handler that receives it first keeps it from its own. */
  lemma {:induction false} AnswerReachesItsTakerExactly(cfg: Config, acts: seq<Action>, h: nat, line: string)
    requires var s := Run(cfg, acts); h in s.handlers && Answers(cfg.decode, line, IdOf(s.handlers[h].rpc))
    ensures var s := Run(cfg, acts);
            s.handlers[h].phase == Done(Some(Reply(200, line))) <==> Received(s, h, line)
  {
    var s := Run(cfg, acts);
    RunIsDemuxed(cfg, acts);
    if s.handlers[h].phase == Done(Some(Reply(200, line))) {
      assert TakenAnswer(cfg, s, h, line);
    }
    if i :| 0 <= i < |s.takers| && i < |s.chan.received| && s.takers[i] == h && s.chan.received[i] == Data(line) {
      TakersReply(cfg, acts, i);
    }
  }

  lemma RunSnoc(cfg: Config, acts: seq<Action>, a: Action)
    ensures Run(cfg, acts + [a]) == Step(cfg, Run(cfg, acts), a)
  {
    assert (acts + [a])[..|acts|] == acts;
  }

  /** A request that is written and waits for its answer; the second step does nothing if it is not traced. */
  function Asks(acts: seq<Action>, h: nat, rpc: Option<Request>): seq<Action> {
    acts + [Arrive(h, rpc)] + [Track(h, 0)] + [Check(h, true)] + [Write(h, true)]
  }

  lemma Accepted(cfg: Config, acts: seq<Action>, h: nat, rpc: Option<Request>)
    requires h !in Run(cfg, acts).handlers
    ensures var s, s' := Run(cfg, acts), Run(cfg, acts + [Arrive(h, rpc)] + [Track(h, 0)]);
            && s'.handlers == s.handlers[h := Handler(rpc, if Traced(cfg.filter, rpc) then Tracked else Arrived)]
            && s'.chan == s.chan && s'.takers == s.takers
  {
    RunSnoc(cfg, acts, Arrive(h, rpc));
    RunSnoc(cfg, acts + [Arrive(h, rpc)], Track(h, 0));
  }

  lemma Forwarded(cfg: Config, acts: seq<Action>, h: nat)
    requires var s := Run(cfg, acts);
             && h in s.handlers && !Notification(s.handlers[h].rpc)
             && s.handlers[h].phase == if Traced(cfg.filter, s.handlers[h].rpc) then Tracked else Arrived
    ensures var s, s' := Run(cfg, acts), Run(cfg, acts + [Check(h, true)] + [Write(h, true)]);
            && s'.handlers == s.handlers[h := s.handlers[h].(phase := Waiting)]
            && s'.chan == s.chan && s'.takers == s.takers
  {
    RunSnoc(cfg, acts, Check(h, true));
    RunSnoc(cfg, acts + [Check(h, true)], Write(h, true));
  }

  lemma AsksAndWaits(cfg: Config, acts: seq<Action>, h: nat, rpc: Option<Request>)
    requires h !in Run(cfg, acts).handlers && !Notification(rpc)
    ensures var s, s' := Run(cfg, acts), Run(cfg, Asks(acts, h, rpc));
            && s'.handlers == s.handlers[h := Handler(rpc, Waiting)]
            && s'.chan == s.chan && s'.takers == s.takers
  {
    Accepted(cfg, acts, h, rpc);
    Forwarded(cfg, acts + [Arrive(h, rpc)] + [Track(h, 0)], h);
  }

  /** So an answer can be lost: two handlers wait, the other one receives the answer to the first, and the first
      times out. */
  lemma AnswerCanBeLost(cfg: Config, rpc: Option<Request>, other: Option<Request>, line: string)
    requires !Notification(rpc) && !Notification(other) && line != ""
    requires Answers(cfg.decode, line, IdOf(rpc)) && IdOf(other) != IdOf(rpc)
    ensures var acts := Asks(Asks([], 1, rpc), 2, other)
                        + [Reader(ScanLine(line))] + [Reader(Send)] + [Receive(2)] + [TimeOut(1)];
            var s := Run(cfg, acts);
            && s.chan.received == [Data(line)] && s.takers == [2]
            && InPhase(s, 1, Done(Some(Reply(504, "request timeout")))) && InPhase(s, 2, Waiting)
  {
    var acts := Asks(Asks([], 1, rpc), 2, other);
    AsksAndWaits(cfg, [], 1, rpc);
    AsksAndWaits(cfg, Asks([], 1, rpc), 2, other);
    LineSent(cfg, acts, line);
    TakenByAnother(cfg, acts + [Reader(ScanLine(line))] + [Reader(Send)], 1, 2, line);
  }

  /** A reader that is cancelled with a line in hand while a handler waits: the handler is left waiting on a channel
      that is never closed. */
  lemma GivesUpOnWaiter(cfg: Config, rpc: Option<Request>, line: string)
    requires !Notification(rpc) && line != ""
    ensures var acts := Asks([], 1, rpc) + [Reader(ScanLine(line))] + [Reader(Cancel)] + [Reader(GiveUp)];
            var s := Run(cfg, acts);
            InPhase(s, 1, Waiting) && s.chan.reader == GaveUp && s.chan.queue == [] && s.chan.closes == 0
  {
    AsksAndWaits(cfg, [], 1, rpc);
    LineGivenUp(cfg, Asks([], 1, rpc), line);
  }

  lemma LineGivenUp(cfg: Config, acts: seq<Action>, line: string)
    requires Run(cfg, acts).chan == NEW_CHAN && line != ""
    ensures var s' := Run(cfg, acts + [Reader(ScanLine(line))] + [Reader(Cancel)] + [Reader(GiveUp)]);
            && s'.handlers == Run(cfg, acts).handlers
            && s'.chan.reader == GaveUp && s'.chan.queue == [] && s'.chan.closes == 0
  {
    RunSnoc(cfg, acts, Reader(ScanLine(line)));
    RunSnoc(cfg, acts + [Reader(ScanLine(line))], Reader(Cancel));
    RunSnoc(cfg, acts + [Reader(ScanLine(line))] + [Reader(Cancel)], Reader(GiveUp));
  }

  lemma LineSent(cfg: Config, acts: seq<Action>, line: string)
    requires Run(cfg, acts).chan == NEW_CHAN && line != ""
    ensures var s, s' := Run(cfg, acts), Run(cfg, acts + [Reader(ScanLine(line))] + [Reader(Send)]);
            s'.chan.queue == [Data(line)] && s'.chan.received == [] && s'.handlers == s.handlers
                && s'.takers == s.takers
  {
    RunSnoc(cfg, acts, Reader(ScanLine(line)));
    RunSnoc(cfg, acts + [Reader(ScanLine(line))], Reader(Send));
  }

  /** The handler `g` receives a line that does not answer it, and `h` gives up waiting. */
  lemma TakenByAnother(cfg: Config, acts: seq<Action>, h: nat, g: nat, line: string)
    requires var s := Run(cfg, acts);
             && InPhase(s, h, Waiting) && InPhase(s, g, Waiting) && g != h && s.chan.queue == [Data(line)]
             && !Answers(cfg.decode, line, IdOf(s.handlers[g].rpc))
    ensures var s, s' := Run(cfg, acts), Run(cfg, acts + [Receive(g)] + [TimeOut(h)]);
            && s'.chan.received == s.chan.received + [Data(line)] && s'.takers == s.takers + [g]
            && InPhase(s', h, Done(Some(Reply(504, "request timeout")))) && InPhase(s', g, Waiting)
  {
    RunSnoc(cfg, acts, Receive(g));
    RunSnoc(cfg, acts + [Receive(g)], TimeOut(h));
  }

  // ---------- A single waiting handler ----------

  function Receives(h: nat, n: nat): seq<Action> {
    seq(n, i => Receive(h))
  }

  function Exec(cfg: Config, s: Mux, acts: seq<Action>): Mux
    decreases |acts|
  {
    if acts == [] then s else Exec(cfg, Step(cfg, s, acts[0]), acts[1..])
  }

  /** Items already in the channel: one step for each ahead of the first decisive one, and one for that. */
  lemma {:induction false} QueuedAnswer(cfg: Config, s: Mux, h: nat, n: nat)
    requires InPhase(s, h, Waiting) && n < |s.chan.queue|
    requires Decisive(cfg, s.chan.queue[n], IdOf(s.handlers[h].rpc))
    requires forall i :: 0 <= i < n ==> !Decisive(cfg, s.chan.queue[i], IdOf(s.handlers[h].rpc))
    ensures var s' := Exec(cfg, s, Receives(h, n + 1));
            && h in s'.handlers && s'.handlers[h].phase == Done(Some(ReplyTo(s.chan.queue[n])))
            && s'.chan.queue == s.chan.queue[n + 1..]
    decreases n
  {
    var s1 := Step(cfg, s, Receive(h));
    assert Receives(h, n + 1)[1..] == Receives(h, n);
    assert Exec(cfg, s, Receives(h, n + 1)) == Exec(cfg, s1, Receives(h, n));
    if n > 0 {
      assert s1.handlers == s.handlers && s1.chan.queue == s.chan.queue[1..];
      QueuedAnswer(cfg, s1, h, n - 1);
      assert s.chan.queue[1..][n..] == s.chan.queue[n + 1..];
    } else {
      assert Exec(cfg, s1, Receives(h, 0)) == s1;
    }
  }

  /** Only the reader and the handler `h` move. */
  predicate Alone(acts: seq<Action>, h: nat) {
    forall i :: 0 <= i < |acts| ==> acts[i].Reader? || acts[i] == Receive(h)
  }

  lemma AloneStep(cfg: Config, s: Mux, a: Action, h: nat)
    requires Faithful(s.chan) && (a.Reader? || a == Receive(h))
    ensures var s' := Step(cfg, s, a);
            && Faithful(s'.chan) && s.chan.sent <= s'.chan.sent && s.chan.received <= s'.chan.received
            && (s'.chan.received == s.chan.received ==> s'.handlers == s.handlers)
            && (!InPhase(s, h, Waiting) ==> s'.chan.received == s.chan.received)
  {
    if Enabled(cfg, s, a) {
      match a
      case Reader(ra) => ReaderKeepsFaithful(s.chan, ra);
      case Receive(_) => PopKeepsFaithful(s.chan);
    }
  }

  /** The channel only grows, and a handler that is done receives nothing. */
  lemma {:induction false} AloneRun(cfg: Config, s: Mux, acts: seq<Action>, h: nat)
    requires Faithful(s.chan) && Alone(acts, h)
    ensures var s' := Exec(cfg, s, acts);
            && Faithful(s'.chan) && s.chan.sent <= s'.chan.sent && s.chan.received <= s'.chan.received <= s'.chan.sent
            && (!InPhase(s, h, Waiting) ==> s'.chan.received == s.chan.received && s'.handlers == s.handlers)
    decreases |acts|
  {
    if acts != [] {
      AloneStep(cfg, s, acts[0], h);
      AloneRun(cfg, Step(cfg, s, acts[0]), acts[1..], h);
    }
  }

  /** What the waiting handler takes first is the first item it had not received. */
  lemma TakesFirst(cfg: Config, s: Mux, h: nat, sent: seq<Item>)
    requires Faithful(s.chan) && Enabled(cfg, s, Receive(h)) && s.chan.sent <= sent
    ensures var r, s1 := |s.chan.received|, Step(cfg, s, Receive(h));
            && r < |sent| && s1.chan.received == s.chan.received + [sent[r]]
            && s1.handlers == if Decisive(cfg, sent[r], IdOf(s.handlers[h].rpc))
                              then s.handlers[h := s.handlers[h].(phase := Done(Some(ReplyTo(sent[r]))))]
                              else s.handlers
  {
    var r := |s.chan.received|;
    assert (s.chan.received + s.chan.queue)[r] == s.chan.queue[0] == sent[r];
  }

  /** Of the items from `from` on, item `n` is the first decisive one, or there is none and `n` is their number. */
  ghost predicate FirstDecisive(cfg: Config, id: string, items: seq<Item>, from: nat, n: nat) {
    && from + n <= |items|
    && (forall i :: from <= i < from + n ==> !Decisive(cfg, items[i], id))
    && (from + n < |items| ==> Decisive(cfg, items[from + n], id))
  }

  /** From `s` to `s'` the handler `h` has taken at most `n + 1` items. It has replied with the last of those once
      it has taken them all, and until then it waits. */
  ghost predicate WaitedFor(s: Mux, s': Mux, h: nat, n: nat) {
    var from, to := |s.chan.received|, |s'.chan.received|;
    && from <= to <= from + n + 1 && to <= |s'.chan.sent|
    && (to <= from + n ==> s'.handlers == s.handlers)
    && (to == from + n + 1 ==> InPhase(s', h, Done(Some(ReplyTo(s'.chan.sent[from + n])))))
  }

  /** Where a first step leaves the handler: with the same items to come, or one fewer, or with its reply. */
  lemma FirstStep(cfg: Config, s: Mux, a: Action, h: nat, sent: seq<Item>, n: nat)
    requires InPhase(s, h, Waiting) && Faithful(s.chan) && (a.Reader? || a == Receive(h)) && s.chan.sent <= sent
    requires FirstDecisive(cfg, IdOf(s.handlers[h].rpc), sent, |s.chan.received|, n)
    ensures var s1, r := Step(cfg, s, a), |s.chan.received|;
            if |s1.chan.received| == r then s1.handlers == s.handlers
            else && |s1.chan.received| == r + 1 <= |sent|
                 && if n == 0 then InPhase(s1, h, Done(Some(ReplyTo(sent[r]))))
                    else s1.handlers == s.handlers && FirstDecisive(cfg, IdOf(s.handlers[h].rpc), sent, r + 1, n - 1)
  {
    AloneStep(cfg, s, a, h);
    if a == Receive(h) && Enabled(cfg, s, a) {
      TakesFirst(cfg, s, h, sent);
    }
  }

  /** What holds from the state after a first step holds from the state before it. */
  lemma WaitedBefore(s: Mux, s1: Mux, s': Mux, h: nat, n: nat)
    requires |s'.chan.received| <= |s'.chan.sent|
    requires if |s1.chan.received| == |s.chan.received| then s1.handlers == s.handlers && WaitedFor(s1, s', h, n)
             else && |s1.chan.received| == |s.chan.received| + 1 <= |s'.chan.sent|
                  && if n > 0 then s1.handlers == s.handlers && WaitedFor(s1, s', h, n - 1)
                     else && InPhase(s1, h, Done(Some(ReplyTo(s'.chan.sent[|s.chan.received|]))))
                          && s'.handlers == s1.handlers && |s'.chan.received| == |s1.chan.received|
    ensures WaitedFor(s, s', h, n)
  {
  }

  /** A handler left alone with the channel while the reader goes on sending, in any order: it never goes past
      the first decisive item of all that are sent, and once it has taken that one, that is its reply. */
  lemma {:induction false} LoneWaiter(cfg: Config, s: Mux, acts: seq<Action>, h: nat, n: nat)
    requires InPhase(s, h, Waiting) && Faithful(s.chan) && Alone(acts, h)
    requires FirstDecisive(cfg, IdOf(s.handlers[h].rpc), Exec(cfg, s, acts).chan.sent, |s.chan.received|, n)
    ensures WaitedFor(s, Exec(cfg, s, acts), h, n)
    decreases |acts|
  {
    AloneRun(cfg, s, acts, h);
    if acts != [] {
      var s1, s' := Step(cfg, s, acts[0]), Exec(cfg, s, acts);
      assert s' == Exec(cfg, s1, acts[1..]);
      AloneStep(cfg, s, acts[0], h);
      AloneRun(cfg, s1, acts[1..], h);
      FirstStep(cfg, s, acts[0], h, s'.chan.sent, n);
      if |s1.chan.received| == |s.chan.received| {
        LoneWaiter(cfg, s1, acts[1..], h, n);
      } else if n > 0 {
        LoneWaiter(cfg, s1, acts[1..], h, n - 1);
      }
      WaitedBefore(s, s1, s', h, n);
    }
  }

  lemma {:induction false} ExecConcat(cfg: Config, s: Mux, a: seq<Action>, b: seq<Action>)
    ensures Exec(cfg, s, a + b) == Exec(cfg, Exec(cfg, s, a), b)
    decreases |a|
  {
    if a == [] {
      assert a + b == b;
    } else {
      assert (a + b)[1..] == a[1..] + b;
      ExecConcat(cfg, Step(cfg, s, a[0]), a[1..], b);
    }
  }

  /** It does get there: whatever the reader and the handler have done so far, one more step for each item left up
      to the decisive one brings the reply. */
  lemma {:induction false} LoneWaiterGetsFirstAnswer(cfg: Config, s: Mux, acts: seq<Action>, h: nat, n: nat)
    requires InPhase(s, h, Waiting) && Faithful(s.chan) && Alone(acts, h)
    requires |s.chan.received| + n < |Exec(cfg, s, acts).chan.sent|
    requires FirstDecisive(cfg, IdOf(s.handlers[h].rpc), Exec(cfg, s, acts).chan.sent, |s.chan.received|, n)
    ensures var s' := Exec(cfg, s, acts);
            var left := |s.chan.received| + n + 1 - |s'.chan.received|;
            && left >= 0
            && InPhase(Exec(cfg, s, acts + Receives(h, left)), h,
                Done(Some(ReplyTo(s'.chan.sent[|s.chan.received| + n]))))
  {
    var s' := Exec(cfg, s, acts);
    LoneWaiter(cfg, s, acts, h, n);
    AloneRun(cfg, s, acts, h);
    ExecConcat(cfg, s, acts, Receives(h, |s.chan.received| + n + 1 - |s'.chan.received|));
    RestBringsReply(cfg, s, s', h, n);
  }

  lemma RestBringsReply(cfg: Config, s: Mux, s': Mux, h: nat, n: nat)
    requires InPhase(s, h, Waiting) && Faithful(s'.chan) && WaitedFor(s, s', h, n)
    requires |s.chan.received| + n < |s'.chan.sent|
    requires FirstDecisive(cfg, IdOf(s.handlers[h].rpc), s'.chan.sent, |s.chan.received|, n)
    ensures var left := |s.chan.received| + n + 1 - |s'.chan.received|;
            InPhase(Exec(cfg, s', Receives(h, left)), h, Done(Some(ReplyTo(s'.chan.sent[|s.chan.received| + n]))))
  {
    var last := |s.chan.received| + n;
    QueueIsRest(s'.chan);
    if |s'.chan.received| <= last {
      QueuedAnswer(cfg, s', h, last - |s'.chan.received|);
    }
  }
}
