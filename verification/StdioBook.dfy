/** Bookkeeping of the stdio transport: while ids in use are distinct, the request map is exactly the spans of
    the handlers that are under way, and every way out of a handler ends its own span once. */
module StdioBook {
  import opened Text
  import opened Rpc
  import opened RequestMaps
  import opened Spans
  import opened StdioChannel
  import opened StdioMux

  predicate Active(cfg: Config, s: Mux, h: nat) {
    h in s.handlers && Traced(cfg.filter, s.handlers[h].rpc) && !s.handlers[h].phase.Done?
  }

  /** Has stored its span and not yet taken it back. */
  predicate Holding(cfg: Config, s: Mux, h: nat) {
    Active(cfg, s, h) && !s.handlers[h].phase.Arrived?
  }

  function KeyOfHandler(s: Mux, h: nat): string
    requires h in s.handlers
  {
    KeyOfRpc(s.handlers[h].rpc)
  }

  /** No two traced handlers under way have the same id. */
  ghost predicate DistinctIds(cfg: Config, s: Mux) {
    forall g, h :: Active(cfg, s, g) && Active(cfg, s, h) && IdOf(s.handlers[g].rpc) == IdOf(s.handlers[h].rpc)
        ==> g == h
  }

  /** The reason for each reply that is no answer; a client that left got none. The text of a subprocess error is
      the reader's. */
  predicate Why(reply: Option<Reply>, msg: string) {
    match reply
    case None => msg == "client disconnected"
    case Some(r) =>
      || (r == Reply(503, "subprocess not running") && msg == "subprocess not running")
      || (r == Reply(502, "subprocess write failed") && msg == "failed to write to subprocess")
      || (r == Reply(502, "subprocess closed") && msg == "subprocess stdout closed")
      || (r == Reply(504, "request timeout") && msg == "response timeout")
      || r == Reply(502, "subprocess error")
  }

  /** The verdict says what the reply says: the answer's outcome and size, or the reason there was none. */
  predicate VerdictFits(cfg: Config, reply: Option<Reply>, verdict: Verdict) {
    match verdict
    case Answered(info, size) =>
      && reply.Some? && reply.value.status == 200 && size == |reply.value.body|
      && cfg.decode(reply.value.body).Some? && Reports(info, cfg.decode(reply.value.body).value)
    case Failed(msg) => Why(reply, msg)
    case _ => false
  }

  ghost predicate EndedOnce(s: Mux, h: nat) {
    && (exists i :: 0 <= i < |s.ended| && s.ended[i].entry.span == h)
    && (forall i, j ::
          0 <= i < |s.ended| && 0 <= j < |s.ended| && s.ended[i].entry.span == s.ended[j].entry.span == h ==> i == j)
  }

  ghost predicate MapIsHolders(cfg: Config, s: Mux) {
    && (forall h :: Holding(cfg, s, h) ==> KeyOfHandler(s, h) in s.reqs && s.reqs[KeyOfHandler(s, h)].span == h)
    && (forall k :: k in s.reqs ==> Holding(cfg, s, s.reqs[k].span) && k == KeyOfHandler(s, s.reqs[k].span))
  }

  ghost predicate EndsAreExits(cfg: Config, s: Mux) {
    && (forall h ::
          h in s.handlers && Traced(cfg.filter, s.handlers[h].rpc) && s.handlers[h].phase.Done? ==> EndedOnce(s, h))
    && (forall i :: 0 <= i < |s.ended| ==>
          var h := s.ended[i].entry.span;
          && s.ended[i].handler == h && h in s.handlers
          && Traced(cfg.filter, s.handlers[h].rpc) && s.handlers[h].phase.Done?
          && VerdictFits(cfg, s.handlers[h].phase.reply, s.ended[i].verdict))
  }

  ghost predicate Book(cfg: Config, s: Mux) {
    MapIsHolders(cfg, s) && EndsAreExits(cfg, s)
  }

  /** A handler that goes from holding to done leaves everyone else as they were. */
  lemma HoldersAfter(cfg: Config, s: Mux, s': Mux, h: nat, g: nat)
    requires Holding(cfg, s, h) && InPhaseDone(s', h) && s'.handlers == s.handlers[h := s'.handlers[h]]
    requires s'.handlers[h].rpc == s.handlers[h].rpc
    ensures Holding(cfg, s', g) <==> Holding(cfg, s, g) && g != h
  {
  }

  predicate InPhaseDone(s: Mux, h: nat) {
    h in s.handlers && s.handlers[h].phase.Done?
  }

  lemma ReturnKeepsMap(cfg: Config, s: Mux, s': Mux, h: nat)
    requires MapIsHolders(cfg, s) && Holding(cfg, s, h)
    requires InPhaseDone(s', h) && s'.handlers == s.handlers[h := s'.handlers[h]]
        && s'.handlers[h].rpc == s.handlers[h].rpc
    requires s'.reqs == s.reqs - {KeyOfHandler(s, h)}
    ensures MapIsHolders(cfg, s')
  {
    forall g | Holding(cfg, s', g) ensures KeyOfHandler(s', g) in s'.reqs && s'.reqs[KeyOfHandler(s', g)].span == g {
      HoldersAfter(cfg, s, s', h, g);
      assert KeyOfHandler(s, g) in s.reqs && s.reqs[KeyOfHandler(s, h)].span == h;
    }
    forall k | k in s'.reqs ensures Holding(cfg, s', s'.reqs[k].span) && k == KeyOfHandler(s', s'.reqs[k].span) {
      HoldersAfter(cfg, s, s', h, s.reqs[k].span);
      assert Holding(cfg, s, s.reqs[k].span);
    }
  }

  lemma EndedOnceMore(s: Mux, s': Mux, e: End)
    requires s'.ended == s.ended + [e]
    requires forall i :: 0 <= i < |s.ended| ==> s.ended[i].entry.span != e.entry.span
    ensures EndedOnce(s', e.entry.span)
    ensures forall g :: g != e.entry.span && EndedOnce(s, g) ==> EndedOnce(s', g)
  {
    var n := |s.ended|;
    assert s'.ended[n] == e;
    assert forall i :: 0 <= i < n ==> s'.ended[i] == s.ended[i];
    forall g | g != e.entry.span && EndedOnce(s, g) ensures EndedOnce(s', g) {
      var i :| 0 <= i < |s.ended| && s.ended[i].entry.span == g;
      assert s'.ended[i].entry.span == g;
    }
  }

  lemma ReturnKeepsEnds(cfg: Config, s: Mux, s': Mux, h: nat, verdict: Verdict)
    requires EndsAreExits(cfg, s) && Holding(cfg, s, h)
    requires InPhaseDone(s', h) && s'.handlers == s.handlers[h := s'.handlers[h]]
        && s'.handlers[h].rpc == s.handlers[h].rpc
    requires exists e: InFlight :: e.span == h && s'.ended == s.ended + [End(e, verdict, h)]
    requires VerdictFits(cfg, s'.handlers[h].phase.reply, verdict)
    ensures EndsAreExits(cfg, s') && EndedOnce(s', h)
  {
    var e: InFlight :| e.span == h && s'.ended == s.ended + [End(e, verdict, h)];
    EndedOnceMore(s, s', End(e, verdict, h));
    forall i | 0 <= i < |s'.ended|
      ensures var g := s'.ended[i].entry.span;
              && s'.ended[i].handler == g && InPhaseDone(s', g) && Traced(cfg.filter, s'.handlers[g].rpc)
              && VerdictFits(cfg, s'.handlers[g].phase.reply, s'.ended[i].verdict)
    {
      assert i < |s.ended| ==> s'.ended[i] == s.ended[i];
    }
  }

  /** Every way a handler returns: its key is gone and its own span is ended. */
  lemma ReturnKeepsBook(cfg: Config, s: Mux, h: nat, verdict: Verdict, reply: Option<Reply>)
    requires Book(cfg, s)
    requires h in s.handlers && !s.handlers[h].phase.Done?
    requires Traced(cfg.filter, s.handlers[h].rpc) ==> !s.handlers[h].phase.Arrived?
    requires VerdictFits(cfg, reply, verdict)
    ensures var s' := Return(cfg, s, h, verdict, reply);
            && Book(cfg, s')
            && (Traced(cfg.filter, s.handlers[h].rpc) ==>
                  KeyOfHandler(s, h) !in s'.reqs && EndedOnce(s', h) && |s'.ended| == |s.ended| + 1
                  && s'.ended[|s.ended|].entry.span == h && s'.ended[|s.ended|].verdict == verdict)
  {
    var s' := Return(cfg, s, h, verdict, reply);
    if Traced(cfg.filter, s.handlers[h].rpc) {
      assert Holding(cfg, s, h);
      assert s'.ended == s.ended + [End(s.reqs[KeyOfHandler(s, h)], verdict, h)];
      ReturnKeepsMap(cfg, s, s', h);
      ReturnKeepsEnds(cfg, s, s', h, verdict);
    } else {
      SameBooks(cfg, s, s', h);
    }
  }

  lemma SameEnds(cfg: Config, s: Mux, s': Mux)
    requires EndsAreExits(cfg, s) && s'.ended == s.ended
    requires forall g :: InPhaseDone(s, g) ==> g in s'.handlers && s'.handlers[g] == s.handlers[g]
    requires forall g :: InPhaseDone(s', g) && Traced(cfg.filter, s'.handlers[g].rpc) ==> InPhaseDone(s, g)
    ensures EndsAreExits(cfg, s')
  {
    assert forall g :: EndedOnce(s, g) <==> EndedOnce(s', g);
  }

  /** A handler that opens no span is no part of the books, and neither is where exactly a holder is. */
  lemma SameBooks(cfg: Config, s: Mux, s': Mux, h: nat)
    requires Book(cfg, s) && h in s'.handlers && s'.reqs == s.reqs && s'.ended == s.ended
    requires s'.handlers == s.handlers[h := s'.handlers[h]]
    requires h in s.handlers ==> s'.handlers[h].rpc == s.handlers[h].rpc && !s.handlers[h].phase.Done?
    requires Holding(cfg, s, h) <==> Holding(cfg, s', h)
    requires Traced(cfg.filter, s'.handlers[h].rpc) ==> !s'.handlers[h].phase.Done?
    ensures Book(cfg, s')
  {
    assert forall g :: Holding(cfg, s', g) <==> Holding(cfg, s, g);
    assert forall g :: EndedOnce(s, g) <==> EndedOnce(s', g);
  }

  /** A handler moves on without leaving. */
  lemma BecomeKeepsBook(cfg: Config, s: Mux, h: nat, phase: Phase)
    requires Book(cfg, s) && h in s.handlers && !s.handlers[h].phase.Done?
    requires Traced(cfg.filter, s.handlers[h].rpc) ==> !s.handlers[h].phase.Arrived? && !phase.Arrived? && !phase.Done?
    ensures Book(cfg, Become(s, h, phase))
  {
    SameBooks(cfg, s, Become(s, h, phase), h);
  }

  /** Storing a span keeps the books exactly when the key is free. */
  lemma TrackKeepsBookExactly(cfg: Config, s: Mux, h: nat, now: int)
    requires Book(cfg, s) && Enabled(cfg, s, Track(h, now))
    ensures Book(cfg, Do(cfg, s, Track(h, now))) <==> KeyOfHandler(s, h) !in s.reqs
  {
    var s' := Do(cfg, s, Track(h, now));
    var key := KeyOfHandler(s, h);
    if key in s.reqs {
      var g := s.reqs[key].span;
      assert Holding(cfg, s, g) && KeyOfHandler(s', g) == key && s'.reqs[key].span == h;
    } else {
      assert forall g :: Holding(cfg, s', g) <==> Holding(cfg, s, g) || g == h;
      assert MapIsHolders(cfg, s');
      SameEnds(cfg, s, s');
    }
  }

  /** The channel and the log of takers are no part of the books. */
  lemma ChannelIsNoBook(cfg: Config, s: Mux, s': Mux)
    requires Book(cfg, s) && s' == s.(chan := s'.chan, takers := s'.takers)
    ensures Book(cfg, s')
  {
    assert forall g :: Holding(cfg, s', g) <==> Holding(cfg, s, g);
    assert forall g :: EndedOnce(s, g) <==> EndedOnce(s', g);
  }

  lemma ReceiveKeepsBook(cfg: Config, s: Mux, h: nat)
    requires Book(cfg, s) && Enabled(cfg, s, Receive(h))
    ensures Book(cfg, Do(cfg, s, Receive(h)))
  {
    var item := s.chan.queue[0];
    var s1 := s.(chan := Pop(s.chan), takers := s.takers + [h]);
    ChannelIsNoBook(cfg, s, s1);
    match item
    case Failure(err) =>
      ReturnKeepsBook(cfg, s1, h, Failed(err), Some(Reply(502, "subprocess error")));
    case Data(line) =>
      if Answers(cfg.decode, line, IdOf(s.handlers[h].rpc)) {
        IsErrorReports(cfg.decode(line).value, IsError(cfg.decode(line).value));
        ReturnKeepsBook(cfg, s1, h, AnswerVerdict(cfg.decode, line), Some(Reply(200, line)));
      }
  }

  lemma ArriveKeepsBook(cfg: Config, s: Mux, h: nat, rpc: Option<Request>)
    requires Book(cfg, s) && h !in s.handlers
    ensures Book(cfg, Do(cfg, s, Arrive(h, rpc)))
  {
    SameBooks(cfg, s, Do(cfg, s, Arrive(h, rpc)), h);
  }

  /** The action stores a span over one that is still there. */
  predicate Displaces(cfg: Config, s: Mux, a: Action) {
    a.Track? && Enabled(cfg, s, a) && KeyOfHandler(s, a.h) in s.reqs
  }

  lemma StepKeepsBookExactly(cfg: Config, s: Mux, a: Action)
    requires Book(cfg, s)
    ensures Book(cfg, Step(cfg, s, a)) <==> !Displaces(cfg, s, a)
  {
    if Enabled(cfg, s, a) {
      match a
      case Arrive(h, rpc) => ArriveKeepsBook(cfg, s, h, rpc);
      case Track(h, now) => TrackKeepsBookExactly(cfg, s, h, now);
      case Check(h, running) =>
        if running {
          BecomeKeepsBook(cfg, s, h, Checked);
        } else {
          ReturnKeepsBook(cfg, s, h, Failed("subprocess not running"), Some(Reply(503, "subprocess not running")));
        }
      case Write(h, ok) =>
        if !ok {
          ReturnKeepsBook(cfg, s, h, Failed("failed to write to subprocess"),
              Some(Reply(502, "subprocess write failed")));
        } else if Notification(s.handlers[h].rpc) {
          BecomeKeepsBook(cfg, s, h, Done(Some(Reply(202, ""))));
        } else {
          BecomeKeepsBook(cfg, s, h, Waiting);
        }
      case Receive(h) => ReceiveKeepsBook(cfg, s, h);
      case HearClose(h) =>
        ReturnKeepsBook(cfg, s, h, Failed("subprocess stdout closed"), Some(Reply(502, "subprocess closed")));
      case Disconnect(h) => ReturnKeepsBook(cfg, s, h, Failed("client disconnected"), None);
      case TimeOut(h) => ReturnKeepsBook(cfg, s, h, Failed("response timeout"), Some(Reply(504, "request timeout")));
      case Reader(_) => ChannelIsNoBook(cfg, s, Do(cfg, s, a));
    }
  }

  /** No step of the run stores a span over one that is still there. */
  predicate NeverDisplaces(cfg: Config, acts: seq<Action>) {
    acts == [] ||
    (var before := acts[..|acts| - 1];
     NeverDisplaces(cfg, before) && !Displaces(cfg, Run(cfg, before), acts[|acts| - 1]))
  }

  /** The books balance after each step of the run. */
  ghost predicate AlwaysBalanced(cfg: Config, acts: seq<Action>) {
    Book(cfg, Run(cfg, acts)) && (acts == [] || AlwaysBalanced(cfg, acts[..|acts| - 1]))
  }

  ghost predicate AlwaysDistinct(cfg: Config, acts: seq<Action>) {
    DistinctIds(cfg, Run(cfg, acts)) && (acts == [] || AlwaysDistinct(cfg, acts[..|acts| - 1]))
  }

  /** All through a run the map holds exactly the spans of the handlers under way, each handler that has left
      has had its own span ended exactly once, by itself, with the verdict its reply shows, and no other span
      is ended: this holds at every point of the run just when no span is ever stored over another. */
  lemma {:induction false} BooksBalanceExactly(cfg: Config, acts: seq<Action>)
    ensures AlwaysBalanced(cfg, acts) <==> NeverDisplaces(cfg, acts)
    decreases |acts|
  {
    if acts == [] {
      assert Book(cfg, Run(cfg, acts));
    } else {
      var before := acts[..|acts| - 1];
      BooksBalanceExactly(cfg, before);
      if AlwaysBalanced(cfg, before) {
        assert Book(cfg, Run(cfg, before));
        StepKeepsBookExactly(cfg, Run(cfg, before), acts[|acts| - 1]);
      }
    }
  }

  /** In particular while the ids of the traced handlers under way are distinct. */
  lemma {:induction false} BooksBalance(cfg: Config, acts: seq<Action>)
    requires AlwaysDistinct(cfg, acts)
    ensures AlwaysBalanced(cfg, acts)
    decreases |acts|
  {
    if acts != [] {
      var before := acts[..|acts| - 1];
      BooksBalance(cfg, before);
      assert Book(cfg, Run(cfg, before)) && DistinctIds(cfg, Run(cfg, before));
      DistinctNeverDisplaces(cfg, Run(cfg, before), acts[|acts| - 1]);
      StepKeepsBookExactly(cfg, Run(cfg, before), acts[|acts| - 1]);
    } else {
      BooksBalanceExactly(cfg, acts);
    }
  }

  lemma DistinctNeverDisplaces(cfg: Config, s: Mux, a: Action)
    requires Book(cfg, s) && DistinctIds(cfg, s)
    ensures !Displaces(cfg, s, a)
  {
    if Displaces(cfg, s, a) {
      var g := s.reqs[KeyOfHandler(s, a.h)].span;
      assert Holding(cfg, s, g) && Active(cfg, s, a.h);
    }
  }

  // ---------- Where an error's text comes from ----------

  /** The handler took this error from the channel. */
  ghost predicate TookError(s: Mux, h: nat, err: string) {
    exists i :: 0 <= i < |s.takers| && i < |s.chan.received| && s.takers[i] == h && s.chan.received[i] == Failure(err)
  }

  /** A span ended by a handler whose reply is a subprocess error failed with an error that handler took. */
  ghost predicate ErrorsAreRead(s: Mux) {
    && |s.takers| == |s.chan.received|
    && (forall i :: 0 <= i < |s.ended| ==> InPhaseDone(s, s.ended[i].handler))
    && (forall i :: 0 <= i < |s.ended| && InPhase(s, s.ended[i].handler, Done(Some(Reply(502, "subprocess error"))))
          ==> s.ended[i].verdict.Failed? && TookError(s, s.ended[i].handler, s.ended[i].verdict.msg))
  }

  lemma TookErrorStays(s: Mux, s': Mux, h: nat, err: string)
    requires TookError(s, h, err) && s.takers <= s'.takers && s.chan.received <= s'.chan.received
    ensures TookError(s', h, err)
  {
    var i :| 0 <= i < |s.takers| && i < |s.chan.received| && s.takers[i] == h && s.chan.received[i] == Failure(err);
    assert s'.takers[i] == h && s'.chan.received[i] == Failure(err);
  }

  /** At most one more span is ended, by a handler that is done only now. */
  lemma OneMoreKeepsErrors(s: Mux, s': Mux, h: nat)
    requires ErrorsAreRead(s) && s.takers <= s'.takers && s.chan.received <= s'.chan.received
    requires |s'.takers| == |s'.chan.received|
    requires forall g :: InPhaseDone(s, g) ==> g in s'.handlers && s'.handlers[g] == s.handlers[g]
    requires s'.ended == s.ended || (|s'.ended| == |s.ended| + 1 && s.ended <= s'.ended
        && s'.ended[|s.ended|].handler == h && InPhaseDone(s', h)
        && (InPhase(s', h, Done(Some(Reply(502, "subprocess error"))))
            ==> s'.ended[|s.ended|].verdict.Failed? && TookError(s', h, s'.ended[|s.ended|].verdict.msg)))
    ensures ErrorsAreRead(s')
  {
    forall i | 0 <= i < |s.ended| && InPhase(s', s'.ended[i].handler, Done(Some(Reply(502, "subprocess error"))))
      ensures s'.ended[i].verdict.Failed? && TookError(s', s'.ended[i].handler, s'.ended[i].verdict.msg)
    {
      assert s'.ended[i] == s.ended[i];
      TookErrorStays(s, s', s.ended[i].handler, s.ended[i].verdict.msg);
    }
  }

  lemma ReceiveKeepsErrors(cfg: Config, s: Mux, h: nat)
    requires ErrorsAreRead(s) && Enabled(cfg, s, Receive(h))
    ensures ErrorsAreRead(Do(cfg, s, Receive(h)))
  {
    var s', n := Do(cfg, s, Receive(h)), |s.takers|;
    assert s'.takers[n] == h && s'.chan.received[n] == s.chan.queue[0];
    OneMoreKeepsErrors(s, s', h);
  }

  lemma OthersKeepErrors(cfg: Config, s: Mux, a: Action)
    requires ErrorsAreRead(s) && Enabled(cfg, s, a) && !a.Receive?
    ensures ErrorsAreRead(Do(cfg, s, a))
  {
    OthersReceiveNothing(cfg, s, a);
    OthersLeaveDone(cfg, s, a);
    OneMoreKeepsErrors(s, Do(cfg, s, a), if a.Reader? then 0 else a.h);
  }

  /** Under every interleaving: a span ended by a handler that replied with a subprocess error reports the text of
      an error that same handler took from the channel. */
  lemma {:induction false} ErrorTextIsTheReaders(cfg: Config, acts: seq<Action>)
    ensures ErrorsAreRead(Run(cfg, acts))
    decreases |acts|
  {
    if acts != [] {
      var n := |acts| - 1;
      ErrorTextIsTheReaders(cfg, acts[..n]);
      var s, a := Run(cfg, acts[..n]), acts[n];
      if Enabled(cfg, s, a) {
        if a.Receive? {
          ReceiveKeepsErrors(cfg, s, a.h);
        } else {
          OthersKeepErrors(cfg, s, a);
        }
      }
    }
  }

  // ---------- Shared ids ----------

  /** Two handlers under way with one id. */
  lemma SharedId(cfg: Config, rpc: Option<Request>)
    requires Traced(cfg.filter, rpc)
    ensures var s := Run(cfg, [Arrive(1, rpc), Track(1, 0), Arrive(2, rpc), Track(2, 0)]);
            && s.handlers == map[1 := Handler(rpc, Tracked), 2 := Handler(rpc, Tracked)]
            && s.reqs == map[KeyOfRpc(rpc) := EntryOf(2, rpc, "", 0)] && s.ended == []
  {
    RunSnoc(cfg, [], Arrive(1, rpc));
    assert [] + [Arrive(1, rpc)] == [Arrive(1, rpc)];
    RunSnoc(cfg, [Arrive(1, rpc)], Track(1, 0));
    assert [Arrive(1, rpc)] + [Track(1, 0)] == [Arrive(1, rpc), Track(1, 0)];
    RunSnoc(cfg, [Arrive(1, rpc), Track(1, 0)], Arrive(2, rpc));
    assert [Arrive(1, rpc), Track(1, 0)] + [Arrive(2, rpc)] == [Arrive(1, rpc), Track(1, 0), Arrive(2, rpc)];
    RunSnoc(cfg, [Arrive(1, rpc), Track(1, 0), Arrive(2, rpc)], Track(2, 0));
    assert [Arrive(1, rpc), Track(1, 0), Arrive(2, rpc)] + [Track(2, 0)]
        == [Arrive(1, rpc), Track(1, 0), Arrive(2, rpc), Track(2, 0)];
  }

  /** Without distinct ids the books do not balance: a second handler with the same id displaces the first
      one's span, the first handler's exit ends the second one's span, and nothing ends the first. */
  lemma SharedIdLosesSpan(cfg: Config, rpc: Option<Request>)
    requires Traced(cfg.filter, rpc)
    ensures var s := Run(cfg,
        [Arrive(1, rpc), Track(1, 0), Arrive(2, rpc), Track(2, 0), Check(1, false), Check(2, false)]);
            && InPhaseDone(s, 1) && InPhaseDone(s, 2) && s.reqs == map[]
            && |s.ended| == 1 && s.ended[0].entry.span == 2 && s.ended[0].handler == 1
  {
    var acts := [Arrive(1, rpc), Track(1, 0), Arrive(2, rpc), Track(2, 0)];
    SharedId(cfg, rpc);
    RunSnoc(cfg, acts, Check(1, false));
    RunSnoc(cfg, acts + [Check(1, false)], Check(2, false));
    assert acts + [Check(1, false)] + [Check(2, false)]
        == [Arrive(1, rpc), Track(1, 0), Arrive(2, rpc), Track(2, 0), Check(1, false), Check(2, false)];
  }
}
