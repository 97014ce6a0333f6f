/** The lifecycle of the stdio subprocess (internal/proxy/stdio.go): Start, Stop and the monitor as a transition
    system over two mutex-guarded flags and two channels, and as the methods that take its steps. */
module StdioLifecycle {
  import opened Text

  /** A monitor goroutine: waiting for the process, past closing `waitDone`, past reading the flags, returned. */
  datatype Monitor = Watching | Woken | Noted(wasStopped: bool) | Gone(wasStopped: bool)

  /** A Stop call: the one that set `stopped` and is waiting, or one that has returned. */
  datatype StopCall = Setter | Returned(wasSetter: bool)

  /** `closes` counts the closings of `waitDone` and `reports` the values sent to `exitErr`, whose buffer of
      one holds `pending` of them. A second close would be a panic. */
  datatype Life = Life(
    running: bool,
    stopped: bool,
    startedOnce: bool,
    exited: bool,
    monitors: seq<Monitor>,
    stops: map<nat, StopCall>,
    closes: nat,
    reports: nat,
    pending: nat)

  const NEW_LIFE := Life(false, false, false, false, [], map[], 0, 0, 0)

  datatype Action =
    | Start(spawns: bool)      // whether the operating system can start the command
    | StopEnter(c: nat)
    | StopReturn(c: nat)
    | Exit                     // the process ends, on its own or killed
    | Wake(m: nat)
    | Note(m: nat)
    | Report(m: nat)
    | TakeReport

  predicate Enabled(s: Life, a: Action) {
    match a
    case Start(_) => true
    case StopEnter(c) => c !in s.stops
    case StopReturn(c) => c in s.stops && s.stops[c] == Setter && s.closes > 0
    case Exit => s.startedOnce && !s.exited
    case Wake(m) => m < |s.monitors| && s.monitors[m] == Watching && s.exited
    case Note(m) => m < |s.monitors| && s.monitors[m] == Woken
    case Report(m) => m < |s.monitors| && s.monitors[m].Noted?
    case TakeReport => s.pending > 0
  }

  function Do(s: Life, a: Action): Life
    requires Enabled(s, a)
  {
    match a
    case Start(spawns) =>
      // A command that has started once cannot start again.
      if s.running || !spawns || s.startedOnce then s
      else s.(running := true, startedOnce := true, monitors := s.monitors + [Watching])
    case StopEnter(c) =>
      if !s.running || s.stopped then s.(stops := s.stops[c := Returned(false)])
      else s.(stopped := true, stops := s.stops[c := Setter])
    case StopReturn(c) => s.(stops := s.stops[c := Returned(true)])
    case Exit => s.(exited := true)
    case Wake(m) => s.(closes := s.closes + 1, monitors := s.monitors[m := Woken])
    case Note(m) => s.(running := false, monitors := s.monitors[m := Noted(s.stopped)])
    case Report(m) =>
      var was := s.monitors[m].wasStopped;
      var s1 := s.(monitors := s.monitors[m := Gone(was)]);
      if !was && s.pending < 1 then s1.(reports := s.reports + 1, pending := s.pending + 1) else s1
    case TakeReport => s.(pending := s.pending - 1)
  }

  function Step(s: Life, a: Action): Life {
    if Enabled(s, a) then Do(s, a) else s
  }

  function Run(acts: seq<Action>): Life {
    if acts == [] then NEW_LIFE else Step(Run(acts[..|acts| - 1]), acts[|acts| - 1])
  }

  /** What holds in every state of every run. */
  predicate Sound(s: Life) {
    && |s.monitors| == (if s.startedOnce then 1 else 0)
    && (s.running ==> s.startedOnce)
    && (s.stopped ==> s.startedOnce)
    && s.closes == (if |s.monitors| == 1 && !s.monitors[0].Watching? then 1 else 0)
    && s.running == (|s.monitors| == 1 && (s.monitors[0].Watching? || s.monitors[0].Woken?))
    && s.reports == (if |s.monitors| == 1 && s.monitors[0] == Gone(false) then 1 else 0)
    && s.pending <= s.reports
    && (|s.monitors| == 1 && s.monitors[0].Gone? && s.monitors[0].wasStopped ==> s.stopped)
    && (|s.monitors| == 1 && s.monitors[0].Noted? && s.monitors[0].wasStopped ==> s.stopped)
    && (forall c :: c in s.stops && s.stops[c] == Setter ==> s.stopped)
    && (forall c :: c in s.stops && s.stops[c] == Returned(true) ==> s.closes == 1 && s.stopped)
    && OneSetter(s)
    && (forall c :: c in s.stops && SetStopped(s.stops[c]) ==> s.stopped)
  }

  /** At most one call has set `stopped`. */
  predicate OneSetter(s: Life) {
    forall c, d :: c in s.stops && d in s.stops && SetStopped(s.stops[c]) && SetStopped(s.stops[d]) ==> c == d
  }

  predicate SetStopped(call: StopCall) {
    call == Setter || call == Returned(true)
  }

  lemma StepKeepsSound(s: Life, a: Action)
    requires Sound(s)
    ensures Sound(Step(s, a))
  {
  }

  lemma {:induction false} RunIsSound(acts: seq<Action>)
    ensures Sound(Run(acts))
    decreases |acts|
  {
    if acts != [] {
      var n := |acts| - 1;
      RunIsSound(acts[..n]);
      StepKeepsSound(Run(acts[..n]), acts[n]);
    }
  }

  /** The promises of the lifecycle, over every interleaving of Start, Stop, exit and monitor steps: `waitDone`
      is closed at most once; a started process that is not running has it closed; the one Stop call that set
      `stopped` has returned only after that; and `exitErr` got one value if the monitor saw `stopped` false
      and none otherwise. */
  lemma LifecycleIsSafe(acts: seq<Action>)
    ensures var s := Run(acts);
            && s.closes <= 1
            && (s.startedOnce && !s.running ==> s.closes == 1)
            && (forall c :: c in s.stops && s.stops[c] == Returned(true) ==> s.closes == 1)
            && OneSetter(s)
            && s.reports <= 1
            && (s.reports == 1 <==> |s.monitors| == 1 && s.monitors[0] == Gone(false))
  {
    RunIsSound(acts);
  }

  /** Once the process has been noted gone it never runs again, and `waitDone` is not closed again. */
  lemma {:induction false} NeverRunsAgain(acts: seq<Action>, more: seq<Action>)
    requires Run(acts).startedOnce && !Run(acts).running
    ensures Run(acts + more).startedOnce && !Run(acts + more).running
    ensures Run(acts + more).closes == Run(acts).closes == 1
    decreases |more|
  {
    RunIsSound(acts + more);
    RunIsSound(acts);
    if more == [] {
      assert acts + more == acts;
    } else {
      var n := |more| - 1;
      NeverRunsAgain(acts, more[..n]);
      assert (acts + more)[..|acts + more| - 1] == acts + more[..n];
    }
  }

  /** Stop is meant to return only once the process is gone. A call comes back at once with a started process
      not waited for exactly when it enters after another call has set `stopped` and before `waitDone` closes. */
  lemma {:induction false} StopReturnsEarlyExactly(acts: seq<Action>, c: nat)
    requires Enabled(Run(acts), StopEnter(c))
    ensures var s := Run(acts);
            (Do(s, StopEnter(c)).stops[c] == Returned(false) && s.startedOnce && s.closes == 0)
                <==> (s.stopped && s.closes == 0)
  {
    RunIsSound(acts);
  }

  lemma RunSnoc(acts: seq<Action>, a: Action)
    ensures Run(acts + [a]) == Step(Run(acts), a)
  {
    assert (acts + [a])[..|acts|] == acts;
  }

  /** There is such a run: the second of two calls is back before the process has even been told to exit. */
  lemma StopCanReturnEarly()
    ensures var s := Run([Start(true)] + [StopEnter(0)] + [StopEnter(1)]);
            s.startedOnce && s.closes == 0 && s.stops == map[0 := Setter, 1 := Returned(false)]
  {
    RunSnoc([], Start(true));
    assert [] + [Start(true)] == [Start(true)];
    RunSnoc([Start(true)], StopEnter(0));
    RunSnoc([Start(true)] + [StopEnter(0)], StopEnter(1));
  }

  // ---------- The proxy object ----------

  class StdioProcess {
    var running: bool
    var stopped: bool
    var cmdStarted: bool
    var waitDone: bool          // closed
    var exitErr: Option<string> // the buffer of one
    ghost var history: seq<Action>
    ghost var life: Life

    ghost predicate Valid()
      reads this
    {
      && life == Run(history)
      && running == life.running && stopped == life.stopped && cmdStarted == life.startedOnce
      && waitDone == (life.closes > 0) && exitErr.Some? == (life.pending > 0)
    }

    constructor ()
      ensures Valid() && history == []
    {
      running, stopped, cmdStarted, waitDone, exitErr := false, false, false, false, None;
      history, life := [], NEW_LIFE;
    }

    ghost method Record(a: Action)
      requires life == Run(history)
      modifies this`history, this`life
      ensures history == old(history) + [a] && life == Run(history) && life == Step(old(life), a)
    {
      RunSnoc(history, a);
      history, life := history + [a], Step(life, a);
    }

    method Start(spawns: bool) returns (ok: bool)
      requires Valid()
      modifies this
      ensures Valid() && history == old(history) + [Action.Start(spawns)]
      ensures ok == (!old(running) && spawns && !old(cmdStarted))
      ensures ok ==> running
    {
      ok := !running && spawns && !cmdStarted;
      if ok {
        cmdStarted, running := true, true;
      }
      Record(Action.Start(spawns));
    }

    /** The locked part of Stop: whether the caller goes on to wait for the process. */
    method StopEnter(c: nat) returns (waits: bool)
      requires Valid() && c !in life.stops
      modifies this
      ensures Valid() && history == old(history) + [Action.StopEnter(c)]
      ensures waits == (old(running) && !old(stopped)) && life.stops[c] == if waits then Setter else Returned(false)
    {
      waits := running && !stopped;
      if waits {
        stopped := true;
      }
      Record(Action.StopEnter(c));
    }

    /** The wait ends when `waitDone` is closed. */
    method StopReturn(c: nat)
      requires Valid() && waitDone && c in life.stops && life.stops[c] == Setter
      modifies this`history, this`life
      ensures Valid() && history == old(history) + [Action.StopReturn(c)] && life.stops[c] == Returned(true)
    {
      Record(Action.StopReturn(c));
    }

    method CloseWaitDone()
      requires Valid() && life.exited && life.monitors == [Watching]
      modifies this`waitDone, this`history, this`life
      ensures Valid() && history == old(history) + [Wake(0)] && !old(waitDone) && waitDone
      ensures life == old(life).(closes := life.closes, monitors := [Woken])
    {
      RunIsSound(history);
      waitDone := true;
      Record(Wake(0));
    }

    /** The monitor's locked section. */
    method NoteExit() returns (wasStopped: bool)
      requires Valid() && life.monitors == [Woken]
      modifies this`running, this`history, this`life
      ensures Valid() && history == old(history) + [Note(0)] && !running
      ensures wasStopped == stopped && life.monitors == [Noted(wasStopped)]
    {
      wasStopped := stopped;
      running := false;
      Record(Note(0));
    }

    /** The send never blocks and never finds the buffer full. */
    method ReportExit(err: Option<string>, wasStopped: bool)
      requires Valid() && life.monitors == [Noted(wasStopped)]
      modifies this`exitErr, this`history, this`life
      ensures Valid() && history == old(history) + [Report(0)]
      ensures exitErr == if wasStopped then None else Some(match err case Some(e) => e case None => "subprocess exited")
    {
      RunIsSound(history);
      if !wasStopped && exitErr.None? {
        exitErr := Some(match err case Some(e) => e case None => "subprocess exited");
      }
      Record(Report(0));
    }

    /** The monitor, from the return of Wait to its own; `err` is the exit error, None for a clean exit. The
        close cannot happen twice. */
    method MonitorProcess(err: Option<string>)
      requires Valid() && life.exited && life.monitors == [Watching]
      modifies this
      ensures Valid() && history == old(history) + [Wake(0)] + [Note(0)] + [Report(0)]
      ensures !old(waitDone) && waitDone && !running && stopped == old(stopped)
      ensures exitErr == if stopped then None else Some(match err case Some(e) => e case None => "subprocess exited")
    {
      CloseWaitDone();
      var wasStopped := NoteExit();
      ReportExit(err, wasStopped);
    }
  }
}
