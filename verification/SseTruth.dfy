/** Status truthfulness: every verdict on an ended span has its cause in the run, at a moment the call was in flight. */
module SseTruth {
  import opened Text
  import opened RequestMaps
  import opened Rpc
  import opened Spans
  import opened SseReader
  import opened SseProtocol
  import opened SseClients
  import opened SseConservation
  import opened SseRouting

  /** The action takes `h` out of the map. */
  ghost predicate Takes(cfg: Config, s: State, a: Action, h: Held) {
    && Enabled(cfg, s, a)
    && var g := Grabs(cfg, s, a);
       && g.Entries?
       && h.verdict == g.verdict && h.owner == g.owner
       && h.takenAt == s.now
       && exists k :: k in g.keys && k in s.reqs && s.reqs[k] == h.entry
  }

  ghost predicate TakenInRun(cfg: Config, acts: seq<Action>, h: Held) {
    exists n :: 0 <= n < |acts| && Takes(cfg, Run(cfg, acts[..n]), acts[n], h)
  }

  /** Whatever is held was held before or has just been taken; whatever is ended was held. */
  lemma HeldComesFrom(cfg: Config, s: State, a: Action, h: Held)
    requires h in Step(cfg, s, a).held
    ensures h in s.held || Takes(cfg, s, a, h)
  {
    if Enabled(cfg, s, a) && !a.TrackSpan? && !a.Finish? {
      MovesKeepEntries(cfg, s, a);
    }
  }

  lemma EndedComesFrom(cfg: Config, s: State, a: Action, i: nat)
    requires i < |Step(cfg, s, a).ended|
    ensures (i < |s.ended| && Step(cfg, s, a).ended[i] == s.ended[i]) || Step(cfg, s, a).ended[i].held in s.held
  {
    if Enabled(cfg, s, a) && !a.TrackSpan? && !a.Finish? {
      MovesKeepEntries(cfg, s, a);
    }
  }

  lemma {:induction false} EveryHeldWasTaken(cfg: Config, acts: seq<Action>)
    ensures forall h :: h in Run(cfg, acts).held ==> TakenInRun(cfg, acts, h)
    ensures forall i :: 0 <= i < |Run(cfg, acts).ended| ==> TakenInRun(cfg, acts, Run(cfg, acts).ended[i].held)
    decreases |acts|
  {
    if acts != [] {
      var m := |acts| - 1;
      var s, a := Run(cfg, acts[..m]), acts[m];
      EveryHeldWasTaken(cfg, acts[..m]);
      forall h | TakenInRun(cfg, acts[..m], h) ensures TakenInRun(cfg, acts, h) {
        var n :| 0 <= n < m && Takes(cfg, Run(cfg, acts[..m][..n]), acts[..m][n], h);
        assert acts[..m][..n] == acts[..n];
      }
      forall h | h in Run(cfg, acts).held ensures TakenInRun(cfg, acts, h) {
        HeldComesFrom(cfg, s, a, h);
      }
      forall i | 0 <= i < |Run(cfg, acts).ended| ensures TakenInRun(cfg, acts, Run(cfg, acts).ended[i].held) {
        EndedComesFrom(cfg, s, a, i);
      }
    }
  }

  // ---------- Runs whose keys are unambiguous ----------

  /** Session ids hold no NUL, and neither do ids met where there is no session. */
  ghost predicate CleanStep(cfg: Config, s: State, a: Action) {
    Enabled(cfg, s, a) ==>
      match a
      case Arrive(_, req) => Plain(CallOf(req))
      case Line(st, line) =>
        && NUL !in RegisteredAt(cfg, s.streams[st], line)
        && (AnswerAt(cfg, s.streams[st], line).Some? ==>
              Plain((s.streams[st].sessionID, AnswerAt(cfg, s.streams[st], line).value.0)))
      case _ => true
  }

  ghost predicate CleanRun(cfg: Config, acts: seq<Action>) {
    forall n :: 0 <= n < |acts| ==> CleanStep(cfg, Run(cfg, acts[..n]), acts[n])
  }

  ghost predicate CleanState(s: State) {
    PlainPosts(s) && forall st :: st in s.streams ==> NUL !in s.streams[st].sessionID
  }

  lemma CleanRunPrefix(cfg: Config, acts: seq<Action>, m: nat)
    requires CleanRun(cfg, acts) && m <= |acts|
    ensures CleanRun(cfg, acts[..m])
  {
    assert forall n :: 0 <= n < m ==> acts[..m][..n] == acts[..n];
  }

  lemma MovesKeepPlainPosts(cfg: Config, s: State, a: Action)
    requires PlainPosts(s) && CleanStep(cfg, s, a) && Enabled(cfg, s, a)
    ensures PlainPosts(Moves(cfg, s, a))
  {
  }

  lemma MovesKeepCleanState(cfg: Config, s: State, a: Action)
    requires CleanState(s) && CleanStep(cfg, s, a) && Enabled(cfg, s, a)
    ensures CleanState(Moves(cfg, s, a))
  {
    MovesKeepPlainPosts(cfg, s, a);
    var s' := Moves(cfg, s, a);
    forall st | st in s'.streams ensures NUL !in s'.streams[st].sessionID {
    }
  }

  lemma StepKeepsCleanState(cfg: Config, s: State, a: Action)
    requires CleanState(s) && CleanStep(cfg, s, a)
    ensures CleanState(Step(cfg, s, a))
  {
    if Enabled(cfg, s, a) {
      MovesKeepCleanState(cfg, s, a);
      DoMoves(cfg, s, a);
    }
  }

  lemma {:induction false} CleanRunCleanState(cfg: Config, acts: seq<Action>)
    requires CleanRun(cfg, acts)
    ensures CleanState(Run(cfg, acts))
    decreases |acts|
  {
    if acts != [] {
      var m := |acts| - 1;
      CleanRunPrefix(cfg, acts, m);
      CleanRunCleanState(cfg, acts[..m]);
      StepKeepsCleanState(cfg, Run(cfg, acts[..m]), acts[m]);
    }
  }

  // ---------- What each verdict means ----------

  /** Upstream's reply is a failure of the POST, and `msg` says which: it could not be sent, or it was rejected
      with a status from 400 up. Any other status is no failure. */
  predicate Explains(reply: Reply, msg: string) {
    match reply
    case CreateFailed => msg == "upstream request creation failed"
    case Unreachable(text) => msg == text
    case Status(code) => code >= 400 && msg == "upstream rejected the request with HTTP " + Decimal(code)
  }

  lemma FailureExplained(reply: Reply, msg: string)
    ensures FailureOf(reply) == Some(msg) <==> Explains(reply, msg)
  {
  }

  predicate Fails(reply: Reply) {
    reply.Status? ==> reply.code >= 400
  }

  lemma FailsExactly(reply: Reply)
    ensures Fails(reply) <==> FailureOf(reply).Some?
    ensures Fails(reply) <==> exists msg :: Explains(reply, msg)
  {
    if FailureOf(reply).Some? {
      FailureExplained(reply, FailureOf(reply).value);
    }
    if msg :| Explains(reply, msg) {
      FailureExplained(reply, msg);
    }
  }

  /** The line is a data line of a message, or of no type, and its trimmed data answers the call `id` with `v`. */
  ghost predicate LineAnswers(cfg: Config, eventType: string, line: string, id: string, v: Verdict) {
    && (eventType == "" || eventType == "message")
    && |line| >= 5 && line[..5] == "data:"
    && exists data :: IsTrimmed(line[5..], data) && Says(cfg.decode, data, id, v)
  }

  lemma AnswerAtMeans(cfg: Config, stream: Stream, line: string, id: string, v: Verdict)
    ensures AnswerAt(cfg, stream, line) == Some((id, v)) <==> LineAnswers(cfg, stream.eventType, line, id, v)
  {
    if |line| >= 5 && line[..5] == "data:" {
      var data := TrimSpace(line[5..]);
      TrimmedExactly(line[5..], data);
      AnswerMeans(cfg.decode, data, id, v);
      if other :| IsTrimmed(line[5..], other) && Says(cfg.decode, other, id, v) {
        TrimmedExactly(line[5..], other);
      }
    }
  }

  /** In state `s` the action `a` is what the verdict on `h` says happened. */
  ghost predicate Justifies(cfg: Config, s: State, a: Action, h: Held) {
    match h.verdict
    case Answered(_, _) =>
      // A message with this id, on a stream of this session, whose content is the verdict.
      && a.Line? && a.st in s.streams
      && s.streams[a.st].sessionID == h.entry.sessionID
      && LineAnswers(cfg, s.streams[a.st].eventType, a.line, h.entry.requestID, h.verdict)
    case Abandoned(clientGone) =>
      // The session's stream had ended, for that reason.
      && a.Drain? && a.st in s.streams && h.entry.sessionID != ""
      && s.streams[a.st].sessionID == h.entry.sessionID
      && s.streams[a.st].phase == Closing(clientGone)
    case TimedOut =>
      a.Tick? && s.now - h.entry.start > cfg.timeout
    case Failed(msg) =>
      // A POST with this session and id failed or was rejected, for that reason.
      && a.Conclude? && a.p in s.posts && Traced(cfg.filter, s.posts[a.p].req.rpc)
      && CallOf(s.posts[a.p].req) == EntryCall(h.entry)
      && Explains(a.reply, msg)
  }

  ghost predicate InFlight(s: State, e: InFlight) {
    exists k :: k in s.reqs && s.reqs[k] == e
  }

  /** The key of an entry names the entry's own session and id. */
  lemma EntryKey(cfg: Config, s: State, k: string)
    requires WellFormed(cfg, s) && PlainPosts(s) && k in s.reqs
    ensures var call := EntryCall(s.reqs[k]);
            Plain(call) && k == KeyOf(call) && Unkey(k) == call
  {
    UnkeyOfKey(EntryCall(s.reqs[k]));
  }

  lemma AnswerIsJustified(cfg: Config, s: State, st: nat, line: string, h: Held)
    requires WellFormed(cfg, s) && CleanState(s) && CleanStep(cfg, s, Line(st, line))
        && Takes(cfg, s, Line(st, line), h)
    ensures Justifies(cfg, s, Line(st, line), h)
  {
    var (id, verdict) := AnswerAt(cfg, s.streams[st], line).value;
    var call: Pair := (s.streams[st].sessionID, id);
    UnkeyOfKey(call);
    EntryKey(cfg, s, KeyOf(call));
    assert EntryCall(h.entry) == call;
    AnswerAtMeans(cfg, s.streams[st], line, id, verdict);
  }

  lemma DrainIsJustified(cfg: Config, s: State, st: nat, h: Held)
    requires WellFormed(cfg, s) && CleanState(s) && Takes(cfg, s, Drain(st), h)
    ensures Justifies(cfg, s, Drain(st), h)
  {
    var k :| k in SessionKeys(s.reqs, s.streams[st].sessionID) && s.reqs[k] == h.entry;
    EntryKey(cfg, s, k);
    OwnershipAgrees(s.streams[st].sessionID, EntryCall(h.entry));
  }

  lemma FailureIsJustified(cfg: Config, s: State, p: nat, reply: Reply, h: Held)
    requires WellFormed(cfg, s) && CleanState(s) && Takes(cfg, s, Conclude(p, reply), h)
    ensures Justifies(cfg, s, Conclude(p, reply), h)
  {
    UnkeyOfKey(CallOf(s.posts[p].req));
    EntryKey(cfg, s, ReqKey(s.posts[p].req));
    FailureExplained(reply, FailureOf(reply).value);
  }

  lemma TickIsJustified(cfg: Config, s: State, h: Held)
    requires Takes(cfg, s, Tick, h)
    ensures Justifies(cfg, s, Tick, h)
  {
  }

  lemma TakingIsJustified(cfg: Config, s: State, a: Action, h: Held)
    requires WellFormed(cfg, s) && CleanState(s) && CleanStep(cfg, s, a) && Takes(cfg, s, a, h)
    ensures Justifies(cfg, s, a, h)
  {
    if a.Line? {
      AnswerIsJustified(cfg, s, a.st, a.line, h);
    } else if a.Conclude? {
      FailureIsJustified(cfg, s, a.p, a.reply, h);
    } else if a.Drain? {
      DrainIsJustified(cfg, s, a.st, h);
    } else if a.Tick? {
      TickIsJustified(cfg, s, h);
    } else {
      assert false;
    }
  }

  /** The action takes `h`, whose call is in flight, and is what the verdict says happened. */
  ghost predicate TakesWithCause(cfg: Config, s: State, a: Action, h: Held) {
    Takes(cfg, s, a, h) && InFlight(s, h.entry) && Justifies(cfg, s, a, h)
  }

  /** The stream has ended in the run, because its client left or because upstream closed it. */
  ghost predicate HungUp(cfg: Config, acts: seq<Action>, st: nat, clientGone: bool) {
    exists n :: 0 <= n < |acts| && acts[n] == Hangup(st, clientGone) && Enabled(cfg, Run(cfg, acts[..n]), acts[n])
  }

  lemma PhaseStays(cfg: Config, s: State, a: Action, st: nat)
    requires st in Step(cfg, s, a).streams && Step(cfg, s, a).streams[st].phase.Closing?
    ensures (st in s.streams && s.streams[st].phase == Step(cfg, s, a).streams[st].phase)
         || (a == Hangup(st, Step(cfg, s, a).streams[st].phase.clientGone) && Enabled(cfg, s, a))
  {
    if Enabled(cfg, s, a) {
      DoMoves(cfg, s, a);
    }
  }

  lemma {:induction false} ClosingHungUp(cfg: Config, acts: seq<Action>, st: nat)
    requires st in Run(cfg, acts).streams && Run(cfg, acts).streams[st].phase.Closing?
    ensures HungUp(cfg, acts, st, Run(cfg, acts).streams[st].phase.clientGone)
    decreases |acts|
  {
    if acts != [] {
      var m, gone := |acts| - 1, Run(cfg, acts).streams[st].phase.clientGone;
      var s := Run(cfg, acts[..m]);
      PhaseStays(cfg, s, acts[m], st);
      if acts[m] != Hangup(st, gone) || !Enabled(cfg, s, acts[m]) {
        ClosingHungUp(cfg, acts[..m], st);
        var n :| 0 <= n < m && acts[..m][n] == Hangup(st, gone) && Enabled(cfg, Run(cfg, acts[..m][..n]), acts[..m][n]);
        assert acts[..m][..n] == acts[..n] && acts[n] == Hangup(st, gone);
      }
    }
  }

  /** Every ended span was taken by an action of the run that is what its verdict says happened, at a moment its
      call was in flight. A call was only abandoned after its stream had ended for the reason given. */
  lemma {:induction false} StatusIsTruthful(cfg: Config, acts: seq<Action>, i: nat)
    requires CleanRun(cfg, acts) && i < |Run(cfg, acts).ended|
    ensures var h := Run(cfg, acts).ended[i].held;
            exists n :: 0 <= n < |acts| && TakesWithCause(cfg, Run(cfg, acts[..n]), acts[n], h)
                        && (h.verdict.Abandoned? ==> HungUp(cfg, acts[..n], acts[n].st, h.verdict.clientGone))
  {
    EveryHeldWasTaken(cfg, acts);
    var h := Run(cfg, acts).ended[i].held;
    var n :| 0 <= n < |acts| && Takes(cfg, Run(cfg, acts[..n]), acts[n], h);
    RunIsSound(cfg, acts[..n]);
    CleanRunPrefix(cfg, acts, n);
    CleanRunCleanState(cfg, acts[..n]);
    TakingIsJustified(cfg, Run(cfg, acts[..n]), acts[n], h);
    if h.verdict.Abandoned? {
      ClosingHungUp(cfg, acts[..n], acts[n].st);
    }
  }

  // ---------- Which calls an action settles ----------

  /** What a call waits for, or is overtaken by: its answer on its session's stream, the end of that stream, the
      failure of a POST of that call, or the deadline. */
  ghost predicate Settles(cfg: Config, s: State, a: Action, e: InFlight)
    requires Enabled(cfg, s, a)
  {
    match a
    case Line(st, line) =>
      && e.sessionID == s.streams[st].sessionID
      && exists v :: LineAnswers(cfg, s.streams[st].eventType, line, e.requestID, v)
    case Conclude(p, reply) =>
      Traced(cfg.filter, s.posts[p].req.rpc) && Fails(reply) && EntryCall(e) == CallOf(s.posts[p].req)
    case Drain(st) => e.sessionID != "" && e.sessionID == s.streams[st].sessionID
    case Tick => s.now - e.start > cfg.timeout
    case _ => false
  }

  /** An entry is in flight exactly when it is under the key of its own call. */
  lemma InFlightAtItsKey(cfg: Config, s: State, e: InFlight)
    requires WellFormed(cfg, s) && PlainPosts(s)
    ensures var key := KeyOf(EntryCall(e));
            InFlight(s, e) <==> key in s.reqs && s.reqs[key] == e
  {
    if k :| k in s.reqs && s.reqs[k] == e {
      EntryKey(cfg, s, k);
    }
  }

  lemma GrabbedLeave(cfg: Config, s: State, a: Action)
    requires Enabled(cfg, s, a) && !a.TrackSpan?
    ensures Do(cfg, s, a).reqs == if Grabs(cfg, s, a).Entries? then s.reqs - Grabs(cfg, s, a).keys else s.reqs
  {
    if !a.Finish? {
      MovesKeepEntries(cfg, s, a);
    }
  }

  /** The entry is taken by the action exactly when its key is among the keys the action takes. */
  lemma TakenExactly(cfg: Config, s: State, a: Action, e: InFlight)
    requires WellFormed(cfg, s) && CleanState(s) && Enabled(cfg, s, a) && !a.TrackSpan? && InFlight(s, e)
    ensures KeyOf(EntryCall(e)) in s.reqs && s.reqs[KeyOf(EntryCall(e))] == e
    ensures !InFlight(Do(cfg, s, a), e) <==> Grabs(cfg, s, a).Entries? && KeyOf(EntryCall(e)) in Grabs(cfg, s, a).keys
  {
    var key := KeyOf(EntryCall(e));
    InFlightAtItsKey(cfg, s, e);
    GrabbedLeave(cfg, s, a);
    var s' := Do(cfg, s, a);
    if key in s'.reqs {
      assert s'.reqs[key] == e;
    } else if j :| j in s'.reqs && s'.reqs[j] == e {
      EntryKey(cfg, s, j);
      assert false;
    }
  }

  lemma LineSettles(cfg: Config, s: State, st: nat, line: string, e: InFlight)
    requires Enabled(cfg, s, Line(st, line))
    ensures var answer := AnswerAt(cfg, s.streams[st], line);
            Settles(cfg, s, Line(st, line), e)
            <==> answer.Some? && EntryCall(e) == (s.streams[st].sessionID, answer.value.0)
  {
    var stream := s.streams[st];
    if v :| LineAnswers(cfg, stream.eventType, line, e.requestID, v) {
      AnswerAtMeans(cfg, stream, line, e.requestID, v);
    }
    if AnswerAt(cfg, stream, line).Some? {
      var (id, v) := AnswerAt(cfg, stream, line).value;
      AnswerAtMeans(cfg, stream, line, id, v);
    }
  }

  lemma AnswerSettles(cfg: Config, s: State, st: nat, line: string, e: InFlight)
    requires WellFormed(cfg, s) && CleanState(s) && CleanStep(cfg, s, Line(st, line)) && Enabled(cfg, s, Line(st, line))
    requires AnswerAt(cfg, s.streams[st], line).Some? && Plain(EntryCall(e))
    ensures KeyOf(EntryCall(e)) in Grabs(cfg, s, Line(st, line)).keys <==> Settles(cfg, s, Line(st, line), e)
  {
    LineSettles(cfg, s, st, line, e);
    UnkeyOfKey(EntryCall(e));
    UnkeyOfKey((s.streams[st].sessionID, AnswerAt(cfg, s.streams[st], line).value.0));
  }

  lemma FailureSettles(cfg: Config, s: State, p: nat, reply: Reply, e: InFlight)
    requires CleanState(s) && Enabled(cfg, s, Conclude(p, reply)) && Plain(EntryCall(e))
    requires Traced(cfg.filter, s.posts[p].req.rpc) && Fails(reply)
    ensures Grabs(cfg, s, Conclude(p, reply)).Entries?
    ensures KeyOf(EntryCall(e)) in Grabs(cfg, s, Conclude(p, reply)).keys <==> Settles(cfg, s, Conclude(p, reply), e)
  {
    FailsExactly(reply);
    UnkeyOfKey(EntryCall(e));
    UnkeyOfKey(CallOf(s.posts[p].req));
  }

  lemma LineSettlesItsKey(cfg: Config, s: State, st: nat, line: string, e: InFlight)
    requires WellFormed(cfg, s) && CleanState(s) && CleanStep(cfg, s, Line(st, line)) && Enabled(cfg, s, Line(st, line))
    requires Plain(EntryCall(e))
    ensures SettledByKeys(cfg, s, Line(st, line), e)
  {
    LineSettles(cfg, s, st, line, e);
    if AnswerAt(cfg, s.streams[st], line).Some? {
      AnswerSettles(cfg, s, st, line, e);
    }
  }

  lemma ConcludeSettlesItsKey(cfg: Config, s: State, p: nat, reply: Reply, e: InFlight)
    requires CleanState(s) && Enabled(cfg, s, Conclude(p, reply)) && Plain(EntryCall(e))
    ensures SettledByKeys(cfg, s, Conclude(p, reply), e)
  {
    FailsExactly(reply);
    if Traced(cfg.filter, s.posts[p].req.rpc) && Fails(reply) {
      FailureSettles(cfg, s, p, reply, e);
    }
  }

  /** The action takes the key of the call exactly when it settles the call. */
  ghost predicate SettledByKeys(cfg: Config, s: State, a: Action, e: InFlight)
    requires Enabled(cfg, s, a)
  {
    (Grabs(cfg, s, a).Entries? && KeyOf(EntryCall(e)) in Grabs(cfg, s, a).keys) <==> Settles(cfg, s, a, e)
  }

  /** An action's keys hold a call's key exactly when it settles the call. */
  lemma SettlesItsKeys(cfg: Config, s: State, a: Action, e: InFlight)
    requires WellFormed(cfg, s) && CleanState(s) && CleanStep(cfg, s, a) && Enabled(cfg, s, a)
    requires var key := KeyOf(EntryCall(e)); key in s.reqs && s.reqs[key] == e
    ensures SettledByKeys(cfg, s, a, e)
  {
    EntryKey(cfg, s, KeyOf(EntryCall(e)));
    if a.Line? {
      LineSettlesItsKey(cfg, s, a.st, a.line, e);
    } else if a.Conclude? {
      ConcludeSettlesItsKey(cfg, s, a.p, a.reply, e);
    } else if a.Drain? {
      OwnershipAgrees(s.streams[a.st].sessionID, EntryCall(e));
    }
  }

  /** In a reachable state an action takes a call out of flight exactly when it settles that call, and the
      thread that took it then holds it with the action's verdict. */
  lemma {:induction false} CallsAreSettledExactly(cfg: Config, acts: seq<Action>, a: Action, e: InFlight)
    requires CleanRun(cfg, acts) && CleanStep(cfg, Run(cfg, acts), a) && Enabled(cfg, Run(cfg, acts), a)
    requires !a.TrackSpan? && InFlight(Run(cfg, acts), e)
    ensures var s := Run(cfg, acts);
            && (InFlight(Do(cfg, s, a), e) <==> !Settles(cfg, s, a, e))
            && (Settles(cfg, s, a, e)
                ==> exists h :: h in Do(cfg, s, a).held && h.entry == e && Justifies(cfg, s, a, h))
  {
    var s := Run(cfg, acts);
    RunIsSound(cfg, acts);
    CleanRunCleanState(cfg, acts);
    TakenExactly(cfg, s, a, e);
    SettlesItsKeys(cfg, s, a, e);
    if Settles(cfg, s, a, e) {
      var h := SettledIsHeld(cfg, s, a, e);
    }
  }

  lemma SettledIsHeld(cfg: Config, s: State, a: Action, e: InFlight) returns (h: Held)
    requires WellFormed(cfg, s) && CleanState(s) && CleanStep(cfg, s, a) && Enabled(cfg, s, a) && !a.TrackSpan?
    requires var key := KeyOf(EntryCall(e)); key in s.reqs && s.reqs[key] == e
    requires Settles(cfg, s, a, e)
    ensures h in Do(cfg, s, a).held && h.entry == e && Justifies(cfg, s, a, h)
  {
    SettlesItsKeys(cfg, s, a, e);
    var g := Grabs(cfg, s, a);
    h := Held(e, g.verdict, g.owner, s.now);
    MovesKeepEntries(cfg, s, a);
    assert Takes(cfg, s, a, h);
    TakingIsJustified(cfg, s, a, h);
    HeldAfter(cfg, s, a, KeyOf(EntryCall(e)), h);
  }

  lemma HeldAfter(cfg: Config, s: State, a: Action, key: string, h: Held)
    requires Enabled(cfg, s, a) && Grabs(cfg, s, a).Entries? && SameEntries(s, Moves(cfg, s, a))
        && Moves(cfg, s, a).now == s.now
    requires key in Grabs(cfg, s, a).keys && key in s.reqs
    requires h == Held(s.reqs[key], Grabs(cfg, s, a).verdict, Grabs(cfg, s, a).owner, s.now)
    ensures h in Do(cfg, s, a).held
  {
  }

  // ---------- What the end of a stream settles ----------

  /** The session the lines fed to a stream so far leave it with. */
  ghost function LastSession(cfg: Config, acts: seq<Action>, st: nat): string {
    SessionAfter(raw => SessionIDOf(cfg, raw), Calls("", LinesOf(cfg, acts, st)))
  }

  /** Of the calls in flight when a stream drains, exactly those of the session it registered last are taken,
      under every interleaving. A session it had registered before that keeps its calls. */
  lemma {:induction false} StreamEndSettlesExactly(cfg: Config, acts: seq<Action>, st: nat, e: InFlight)
    requires CleanRun(cfg, acts) && Enabled(cfg, Run(cfg, acts), Drain(st)) && InFlight(Run(cfg, acts), e)
    ensures InFlight(Step(cfg, Run(cfg, acts), Drain(st)), e)
       <==> e.sessionID == "" || e.sessionID != LastSession(cfg, acts, st)
  {
    StreamsFollowTheirLines(cfg, acts, st);
    CallsAreSettledExactly(cfg, acts, Drain(st), e);
  }

  /** And exactly that session's record leaves the table when the stream hangs up. */
  lemma {:induction false} StreamEndForgetsExactly(cfg: Config, acts: seq<Action>, st: nat, clientGone: bool)
    requires Enabled(cfg, Run(cfg, acts), Hangup(st, clientGone))
    ensures var s, last := Run(cfg, acts), LastSession(cfg, acts, st);
            Step(cfg, s, Hangup(st, clientGone)).sessions == if last == "" then s.sessions else s.sessions - {last}
  {
    StreamsFollowTheirLines(cfg, acts, st);
  }

  ghost predicate NoIdReused(cfg: Config, s: State) {
    forall p, q :: p in s.posts && q in s.posts && Traced(cfg.filter, s.posts[p].req.rpc)
        && Traced(cfg.filter, s.posts[q].req.rpc)
                   && CallOf(s.posts[p].req) == CallOf(s.posts[q].req)
      ==> p == q
  }

  /** The posts of an earlier state in which one failed and the other's call was in flight. */
  lemma SameCallSamePost(cfg: Config, s: State, later: State, p: nat, e: InFlight)
    requires WellFormed(cfg, s) && InFlight(s, e) && NoIdReused(cfg, later)
    requires forall q :: q in s.posts ==> q in later.posts && later.posts[q].req == s.posts[q].req
    requires p in s.posts && Traced(cfg.filter, s.posts[p].req.rpc) && CallOf(s.posts[p].req) == EntryCall(e)
    ensures p == e.span
  {
    assert EntryOk(cfg, s, e);
  }

  /** The POST that opened the span concludes with the failure the span reports, and so takes it. */
  ghost predicate FailsItsOwn(cfg: Config, s: State, a: Action, h: Held)
    requires h.verdict.Failed?
  {
    Takes(cfg, s, a, h) && a.Conclude? && a.p == h.entry.span && Explains(a.reply, h.verdict.msg)
  }

  /** When no two traced posts share a session and an id, a span with a POST failure failed its own POST. */
  lemma {:induction false} FailureIsItsOwn(cfg: Config, acts: seq<Action>, i: nat)
    requires CleanRun(cfg, acts) && i < |Run(cfg, acts).ended|
    requires Run(cfg, acts).ended[i].held.verdict.Failed?
    requires NoIdReused(cfg, Run(cfg, acts))
    ensures var h := Run(cfg, acts).ended[i].held;
            exists n :: 0 <= n < |acts| && FailsItsOwn(cfg, Run(cfg, acts[..n]), acts[n], h)
  {
    StatusIsTruthful(cfg, acts, i);
    var h := Run(cfg, acts).ended[i].held;
    var n :| 0 <= n < |acts| && TakesWithCause(cfg, Run(cfg, acts[..n]), acts[n], h);
    RunIsSound(cfg, acts[..n]);
    PostsStay(cfg, acts, n);
    SameCallSamePost(cfg, Run(cfg, acts[..n]), Run(cfg, acts), acts[n].p, h.entry);
    assert FailsItsOwn(cfg, Run(cfg, acts[..n]), acts[n], h);
  }

  lemma {:induction false} PostsStay(cfg: Config, acts: seq<Action>, n: nat)
    requires n <= |acts|
    ensures var s, s' := Run(cfg, acts[..n]), Run(cfg, acts);
            forall p :: p in s.posts ==> p in s'.posts && s'.posts[p].req == s.posts[p].req
    decreases |acts|
  {
    if n == |acts| {
      assert acts[..n] == acts;
    } else {
      var m := |acts| - 1;
      PostsStay(cfg, acts[..m], n);
      assert acts[..m][..n] == acts[..n];
      if Enabled(cfg, Run(cfg, acts[..m]), acts[m]) {
        MovesAdvancePosts(cfg, Run(cfg, acts[..m]), acts[m]);
      }
    }
  }

  // ---------- What a span says ----------

  /** The request says so itself: it names the method and the id, a tool only when it is a tool call, and its URL
      carries the session. */
  ghost predicate Speaks(req: PostReq, rpcMethod: string, toolName: string, requestID: string, sessionID: string) {
    && req.rpc.Some? && rpcMethod == req.rpc.value.rpcMethod
    && (rpcMethod == "tools/call" ==> toolName == req.rpc.value.toolName)
    && (rpcMethod != "tools/call" ==> toolName == "")
    && IsId(req.rpc.value.id, requestID) && requestID != ""
    && Carries(req.query, sessionID)
  }

  lemma TracedSpeaks(filter: Filter, req: PostReq)
    requires Traced(filter, req.rpc)
    ensures Speaks(req, req.rpc.value.rpcMethod, ToolNameOf(req.rpc.value), IdOf(req.rpc), SessionOf(req))
  {
    IdKept(req.rpc.value.id, IdOf(req.rpc));
    SessionIsCarried(req.query, SessionOf(req));
  }

  /** What a started span says of its post. */
  ghost predicate StartSays(s: State, p: nat) {
    && p in s.started && p in s.posts
    && var start := s.started[p];
       Speaks(s.posts[p].req, start.rpcMethod, start.toolName, start.requestID, start.sessionID)
  }

  ghost predicate StartsSay(s: State) {
    forall p :: p in s.started ==> StartSays(s, p)
  }

  lemma StepKeepsStartsSaying(cfg: Config, s: State, a: Action)
    requires StartsSay(s)
    ensures StartsSay(Step(cfg, s, a))
  {
    if Enabled(cfg, s, a) {
      DoMoves(cfg, s, a);
      MovesAdvancePosts(cfg, s, a);
      if a.OpenSpan? {
        TracedSpeaks(cfg.filter, s.posts[a.p].req);
      }
      forall p | p in Step(cfg, s, a).started ensures StartSays(Step(cfg, s, a), p) {
        assert !(a == OpenSpan(p)) ==> StartSays(s, p);
      }
    }
  }

  lemma {:induction false} StartsSayTheirCall(cfg: Config, acts: seq<Action>)
    ensures StartsSay(Run(cfg, acts))
    decreases |acts|
  {
    if acts != [] {
      var n := |acts| - 1;
      StartsSayTheirCall(cfg, acts[..n]);
      StepKeepsStartsSaying(cfg, Run(cfg, acts[..n]), acts[n]);
    }
  }

  lemma EntrySpeaks(cfg: Config, s: State, e: InFlight)
    requires EntryOk(cfg, s, e)
    ensures Speaks(s.posts[e.span].req, e.rpcMethod, e.toolName, e.requestID, e.sessionID)
  {
    TracedSpeaks(cfg.filter, s.posts[e.span].req);
  }

  /** In every run a span says from its start to its end what the request it stands for said: its method, its tool,
      its id and its session. */
  lemma {:induction false} SpansSayTheirCall(cfg: Config, acts: seq<Action>, i: nat)
    requires i < |Run(cfg, acts).ended|
    ensures var s, e := Run(cfg, acts), Run(cfg, acts).ended[i].held.entry;
            && StartSays(s, e.span)
            && Speaks(s.posts[e.span].req, e.rpcMethod, e.toolName, e.requestID, e.sessionID)
  {
    RunIsSound(cfg, acts);
    StartsSayTheirCall(cfg, acts);
    EntrySpeaks(cfg, Run(cfg, acts), Run(cfg, acts).ended[i].held.entry);
  }
}
