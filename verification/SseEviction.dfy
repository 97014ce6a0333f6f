/** The eviction bound: with ticks at most `interval` apart no call stays in the map past timeout + interval. */
module SseEviction {
  import opened SseProtocol
  import opened SseConservation

  /** The evictor has ticked within the last `interval`, throughout the run. */
  ghost predicate Timely(cfg: Config, acts: seq<Action>, interval: int) {
    forall n :: 0 <= n <= |acts| ==> Run(cfg, acts[..n]).now - Run(cfg, acts[..n]).lastTick <= interval
  }

  /** Taken by the evictor: over age when taken, but by no more than one interval. */
  predicate EvictedInTime(cfg: Config, interval: int, h: Held) {
    cfg.timeout < h.takenAt - h.entry.start <= cfg.timeout + interval
  }

  ghost predicate Swept(cfg: Config, s: State, interval: int) {
    && s.lastTick <= s.now
    && (forall k :: k in s.reqs ==> s.reqs[k].start >= s.lastTick - cfg.timeout)
    && (forall h :: h in s.held && h.verdict.TimedOut? ==>
          EvictedInTime(cfg, interval, h) && h.owner == ByEvictor && h.takenAt == s.lastTick)
    && (forall h :: h in s.held && h.owner == ByEvictor ==> h.verdict.TimedOut?)
    && (forall i ::
          0 <= i < |s.ended| && s.ended[i].held.verdict.TimedOut? ==> EvictedInTime(cfg, interval, s.ended[i].held))
  }

  lemma AnswersAreAnswered(cfg: Config, stream: Stream, line: string)
    requires AnswerAt(cfg, stream, line).Some?
    ensures AnswerAt(cfg, stream, line).value.1.Answered?
  {
  }

  lemma TickSweeps(cfg: Config, s: State, interval: int)
    requires Swept(cfg, s, interval) && s.now - s.lastTick <= interval && Idle(s, ByEvictor)
    ensures Swept(cfg, Do(cfg, s, Tick), interval)
  {
  }

  lemma GrabKeepsSwept(cfg: Config, s: State, interval: int, a: Action)
    requires Swept(cfg, s, interval) && Enabled(cfg, s, a) && !a.Tick? && !a.TrackSpan? && !a.Finish?
    ensures Swept(cfg, Do(cfg, s, a), interval)
  {
    MovesKeepEntries(cfg, s, a);
    if a.Line? && AnswerAt(cfg, s.streams[a.st], a.line).Some? {
      AnswersAreAnswered(cfg, s.streams[a.st], a.line);
    }
  }

  lemma StepKeepsSwept(cfg: Config, s: State, interval: int, a: Action)
    requires cfg.timeout >= 0 && Swept(cfg, s, interval) && s.now - s.lastTick <= interval
    ensures Swept(cfg, Step(cfg, s, a), interval)
  {
    if Enabled(cfg, s, a) {
      if a.Tick? {
        TickSweeps(cfg, s, interval);
      } else if !a.TrackSpan? && !a.Finish? {
        GrabKeepsSwept(cfg, s, interval, a);
      }
    }
  }

  lemma TimelyPrefix(cfg: Config, acts: seq<Action>, interval: int, m: nat)
    requires Timely(cfg, acts, interval) && m <= |acts|
    ensures Timely(cfg, acts[..m], interval)
  {
    assert forall n :: 0 <= n <= m ==> acts[..m][..n] == acts[..n];
  }

  lemma {:induction false} RunIsSwept(cfg: Config, acts: seq<Action>, interval: int)
    requires cfg.timeout >= 0 && Timely(cfg, acts, interval)
    ensures Swept(cfg, Run(cfg, acts), interval)
    decreases |acts|
  {
    if acts != [] {
      var m := |acts| - 1;
      TimelyPrefix(cfg, acts, interval, m);
      RunIsSwept(cfg, acts[..m], interval);
      StepKeepsSwept(cfg, Run(cfg, acts[..m]), interval, acts[m]);
    }
  }

  /** Every entry in the map is at most timeout + interval old, and every evicted span was over the timeout by
      at most one interval when it was taken. No stream has to exist for this. */
  lemma {:induction false} EvictionBound(cfg: Config, acts: seq<Action>, interval: int)
    requires cfg.timeout >= 0 && Timely(cfg, acts, interval)
    ensures var s := Run(cfg, acts);
            && (forall k :: k in s.reqs ==> s.now - s.reqs[k].start <= cfg.timeout + interval)
            && (forall i :: 0 <= i < |s.ended| && s.ended[i].held.verdict.TimedOut? ==>
                  EvictedInTime(cfg, interval, s.ended[i].held))
  {
    RunIsSwept(cfg, acts, interval);
    assert acts[..|acts|] == acts;
  }

  // ---------- No call outlives the window ----------

  /** Wherever the span is, its entry says it started at `t`. */
  ghost predicate StartsAt(s: State, span: nat, t: int) {
    && span in s.started && !InPhase(s, span, Opened)
    && (forall k :: k in s.reqs && s.reqs[k].span == span ==> s.reqs[k].start == t)
  }

  lemma MovesKeepStart(cfg: Config, s: State, a: Action, span: nat, t: int)
    requires WellFormed(cfg, s) && StartsAt(s, span, t) && Enabled(cfg, s, a)
    ensures StartsAt(Moves(cfg, s, a), span, t)
  {
  }

  lemma StepKeepsStart(cfg: Config, s: State, a: Action, span: nat, t: int)
    requires WellFormed(cfg, s) && StartsAt(s, span, t)
    ensures StartsAt(Step(cfg, s, a), span, t)
  {
    if Enabled(cfg, s, a) {
      MovesKeepStart(cfg, s, a, span, t);
      DoMoves(cfg, s, a);
    }
  }

  lemma TrackingSetsStart(cfg: Config, s: State, span: nat)
    requires WellFormed(cfg, s) && Conserved(s) && Enabled(cfg, s, TrackSpan(span))
    ensures StartsAt(Step(cfg, s, TrackSpan(span)), span, s.now)
  {
    assert At(s, span, Opening);
    assert forall k :: k in s.reqs && s.reqs[k].span == span ==> At(s, span, InMap(k));
  }

  lemma LastTrack(cfg: Config, before: seq<Action>, span: nat)
    requires Enabled(cfg, Run(cfg, before), TrackSpan(span))
    ensures StartsAt(Step(cfg, Run(cfg, before), TrackSpan(span)), span, Run(cfg, before).now)
  {
    RunIsSound(cfg, before);
    TrackingSetsStart(cfg, Run(cfg, before), span);
  }

  lemma LaterStep(cfg: Config, before: seq<Action>, a: Action, span: nat, t: int)
    requires StartsAt(Run(cfg, before), span, t)
    ensures StartsAt(Step(cfg, Run(cfg, before), a), span, t)
  {
    RunIsSound(cfg, before);
    StepKeepsStart(cfg, Run(cfg, before), a, span, t);
  }

  lemma {:induction false} TrackedSpanKeepsStart(cfg: Config, acts: seq<Action>, n: nat, span: nat)
    requires n < |acts| && acts[n] == TrackSpan(span) && Enabled(cfg, Run(cfg, acts[..n]), acts[n])
    ensures StartsAt(Run(cfg, acts), span, Run(cfg, acts[..n]).now)
    decreases |acts|
  {
    var m := |acts| - 1;
    var before := acts[..m];
    if n == m {
      LastTrack(cfg, before, span);
    } else {
      assert before[..n] == acts[..n];
      TrackedSpanKeepsStart(cfg, before, n, span);
      LaterStep(cfg, before, acts[m], span, Run(cfg, acts[..n]).now);
    }
  }

  /** A span stored at time t is, once t + timeout + interval has passed, ended, displaced, or in the hand of
      the thread about to end it; and the evictor holds nothing from before its latest tick. */
  lemma {:induction false} NoSpanOutlivesTheWindow(cfg: Config, acts: seq<Action>, interval: int, n: nat, span: nat)
    requires cfg.timeout >= 0 && Timely(cfg, acts, interval)
    requires n < |acts| && acts[n] == TrackSpan(span) && Enabled(cfg, Run(cfg, acts[..n]), acts[n])
    requires Run(cfg, acts).now > Run(cfg, acts[..n]).now + cfg.timeout + interval
    ensures var s := Run(cfg, acts);
            exists a :: At(s, span, a) && (a.EndedAt? || a.DisplacedAt?
                        || (a.InHand? && (a.h.owner == ByEvictor ==> a.h.takenAt == s.lastTick)))
  {
    var s := Run(cfg, acts);
    TrackedSpanKeepsStart(cfg, acts, n, span);
    RunIsSound(cfg, acts);
    EvictionBound(cfg, acts, interval);
    RunIsSwept(cfg, acts, interval);
    var a :| At(s, span, a);
  }
}
