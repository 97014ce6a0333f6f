/** Span conservation in the SSE proxy: over every interleaving each started span is in exactly one place. */
module SseConservation {
  import opened Rpc
  import opened RequestMaps
  import opened Spans
  import opened SseProtocol

  // ---------- What every entry says ----------

  /** The entry is the one its post stored. */
  ghost predicate EntryOk(cfg: Config, s: State, e: InFlight) {
    && e.span in s.posts
    && Traced(cfg.filter, s.posts[e.span].req.rpc)
    && !s.posts[e.span].phase.Arrived? && !s.posts[e.span].phase.Opened?
    && e == PostEntry(e.span, s.posts[e.span].req, e.start)
    && e.start <= s.now
  }

  /** A span is started when its post has one to open and has opened it. */
  ghost predicate StartedOk(cfg: Config, s: State) {
    && (forall p ::
          p in s.started <==> p in s.posts && Traced(cfg.filter, s.posts[p].req.rpc) && !s.posts[p].phase.Arrived?)
    && (forall p :: p in s.posts && s.posts[p].phase.Opened? ==> Traced(cfg.filter, s.posts[p].req.rpc))
  }

  ghost predicate WellFormed(cfg: Config, s: State) {
    && (forall k :: k in s.reqs ==> EntryOk(cfg, s, s.reqs[k]) && k == ReqKey(s.posts[s.reqs[k].span].req))
    && (forall h :: h in s.held ==> EntryOk(cfg, s, h.entry))
    && (forall i :: 0 <= i < |s.ended| ==> EntryOk(cfg, s, s.ended[i].held.entry))
    && (forall i :: 0 <= i < |s.displaced| ==> EntryOk(cfg, s, s.displaced[i]))
    && StartedOk(cfg, s)
  }

  /** Posts only move forward, and the log and the map are left alone. */
  ghost predicate SameEntries(s: State, s': State) {
    && s'.reqs == s.reqs && s'.held == s.held && s'.ended == s.ended && s'.displaced == s.displaced
    && s'.now >= s.now
  }

  ghost predicate PostsAdvance(s: State, s': State) {
    forall p :: p in s.posts ==>
      && p in s'.posts && s'.posts[p].req == s.posts[p].req
      && (s'.posts[p].phase.Arrived? ==> s.posts[p].phase.Arrived?)
      && (s'.posts[p].phase.Opened? ==> s.posts[p].phase.Opened? || s.posts[p].phase.Arrived?)
  }

  lemma WellFormedKept(cfg: Config, s: State, s': State)
    requires WellFormed(cfg, s) && SameEntries(s, s') && PostsAdvance(s, s') && StartedOk(cfg, s')
    ensures WellFormed(cfg, s')
  {
    forall e | EntryOk(cfg, s, e) ensures EntryOk(cfg, s', e) && s'.posts[e.span].req == s.posts[e.span].req {
    }
  }

  lemma TakeAllKeepsWellFormed(cfg: Config, s: State, keys: set<string>, verdict: Verdict, owner: Owner)
    requires WellFormed(cfg, s)
    ensures WellFormed(cfg, TakeAll(s, keys, verdict, owner))
  {
    var s' := TakeAll(s, keys, verdict, owner);
    assert forall e :: EntryOk(cfg, s, e) <==> EntryOk(cfg, s', e);
  }

  /** The state after an entry is put under a key. */
  function WithEntry(s: State, key: string, e: InFlight): State {
    s.(reqs := s.reqs[key := e], displaced := s.displaced + if key in s.reqs then [s.reqs[key]] else [])
  }

  /** What an entry says depends on the posts and the clock alone. */
  lemma EntryStaysOk(cfg: Config, s: State, s': State, e: InFlight)
    requires s'.posts == s.posts && s'.now == s.now
    ensures EntryOk(cfg, s', e) <==> EntryOk(cfg, s, e)
  {
  }

  lemma StoreKeepsWellFormed(cfg: Config, s: State, key: string, e: InFlight)
    requires WellFormed(cfg, s) && EntryOk(cfg, s, e) && key == ReqKey(s.posts[e.span].req)
    ensures WellFormed(cfg, WithEntry(s, key, e))
  {
    var s' := WithEntry(s, key, e);
    forall k | k in s'.reqs ensures EntryOk(cfg, s', s'.reqs[k]) && k == ReqKey(s'.posts[s'.reqs[k].span].req) {
      EntryStaysOk(cfg, s, s', s'.reqs[k]);
    }
    forall h | h in s'.held ensures EntryOk(cfg, s', h.entry) {
      EntryStaysOk(cfg, s, s', h.entry);
    }
    forall i | 0 <= i < |s'.ended| ensures EntryOk(cfg, s', s'.ended[i].held.entry) {
      EntryStaysOk(cfg, s, s', s.ended[i].held.entry);
    }
    forall i | 0 <= i < |s'.displaced| ensures EntryOk(cfg, s', s'.displaced[i]) {
      EntryStaysOk(cfg, s, s', s'.displaced[i]);
    }
  }

  lemma TrackKeepsWellFormed(cfg: Config, s: State, p: nat)
    requires WellFormed(cfg, s) && Enabled(cfg, s, TrackSpan(p))
    ensures WellFormed(cfg, Do(cfg, s, TrackSpan(p)))
  {
    var req := s.posts[p].req;
    var mid := s.(posts := s.posts[p := s.posts[p].(phase := Tracked)]);
    WellFormedKept(cfg, s, mid);
    StoreKeepsWellFormed(cfg, mid, ReqKey(req), PostEntry(p, req, s.now));
  }

  lemma FinishKeepsWellFormed(cfg: Config, s: State, h: Held)
    requires WellFormed(cfg, s) && h in s.held
    ensures WellFormed(cfg, Do(cfg, s, Finish(h)))
  {
    assert forall e :: EntryOk(cfg, s, e) <==> EntryOk(cfg, Do(cfg, s, Finish(h)), e);
  }

  /** The actions that neither store an entry nor end a span. */
  lemma MovesKeepEntries(cfg: Config, s: State, a: Action)
    requires Enabled(cfg, s, a) && !a.TrackSpan? && !a.Finish?
    ensures SameEntries(s, Moves(cfg, s, a))
  {
  }

  lemma MovesAdvancePosts(cfg: Config, s: State, a: Action)
    requires Enabled(cfg, s, a)
    ensures PostsAdvance(s, Moves(cfg, s, a))
  {
  }

  lemma ArriveKeepsStarted(cfg: Config, s: State, p: nat, req: PostReq)
    requires StartedOk(cfg, s) && Enabled(cfg, s, Arrive(p, req))
    ensures StartedOk(cfg, Moves(cfg, s, Arrive(p, req)))
  {
  }

  /** Post `p` moves on to a phase past its opening, or opens its span. */
  lemma PhaseKeepsStarted(cfg: Config, s: State, s': State, p: nat)
    requires StartedOk(cfg, s) && p in s.posts && p in s'.posts && s'.posts == s.posts[p := s'.posts[p]]
    requires s'.posts[p].req == s.posts[p].req && !s'.posts[p].phase.Arrived?
    requires if s'.posts[p].phase.Opened?
             then Traced(cfg.filter, s.posts[p].req.rpc) && s'.started.Keys == s.started.Keys + {p}
             else s'.started == s.started && (s.posts[p].phase.Arrived? ==> !Traced(cfg.filter, s.posts[p].req.rpc))
    ensures StartedOk(cfg, s')
  {
  }

  lemma MovesKeepStarted(cfg: Config, s: State, a: Action)
    requires StartedOk(cfg, s) && Enabled(cfg, s, a)
    ensures StartedOk(cfg, Moves(cfg, s, a))
  {
    if a.Arrive? {
      ArriveKeepsStarted(cfg, s, a.p, a.req);
    } else if a.OpenSpan? || a.TrackSpan? || a.Route? || a.Conclude? {
      PhaseKeepsStarted(cfg, s, Moves(cfg, s, a), a.p);
    } else {
      assert Moves(cfg, s, a).posts == s.posts && Moves(cfg, s, a).started == s.started;
    }
  }

  lemma StepKeepsWellFormed(cfg: Config, s: State, a: Action)
    requires WellFormed(cfg, s)
    ensures WellFormed(cfg, Step(cfg, s, a))
  {
    if Enabled(cfg, s, a) {
      if a.TrackSpan? {
        TrackKeepsWellFormed(cfg, s, a.p);
      } else if a.Finish? {
        FinishKeepsWellFormed(cfg, s, a.h);
      } else {
        MovesKeepEntries(cfg, s, a);
        MovesAdvancePosts(cfg, s, a);
        MovesKeepStarted(cfg, s, a);
        WellFormedKept(cfg, s, Moves(cfg, s, a));
        match Grabs(cfg, s, a)
        case Nothing =>
        case Entries(keys, verdict, owner) => TakeAllKeepsWellFormed(cfg, Moves(cfg, s, a), keys, verdict, owner);
      }
    }
  }

  // ---------- Where a span is ----------

  datatype Place =
    | Opening                   // started, not yet in the map
    | InMap(key: string)
    | InHand(h: Held)           // taken by the thread that will end it
    | EndedAt(i: nat)           // position in the log of ends
    | DisplacedAt(i: nat)       // overwritten by a later store on the same key

  ghost predicate At(s: State, span: nat, place: Place) {
    match place
    case Opening => InPhase(s, span, Opened)
    case InMap(key) => key in s.reqs && s.reqs[key].span == span
    case InHand(h) => h in s.held && h.entry.span == span
    case EndedAt(i) => i < |s.ended| && s.ended[i].held.entry.span == span
    case DisplacedAt(i) => i < |s.displaced| && s.displaced[i].span == span
  }

  /** Every started span is in exactly one place, and nothing else is anywhere. */
  ghost predicate Conserved(s: State) {
    && (forall span, a, b :: At(s, span, a) && At(s, span, b) ==> a == b)
    && (forall span :: span in s.started ==> exists a :: At(s, span, a))
    && (forall span, a :: At(s, span, a) ==> span in s.started)
  }

  /** Spans stay conserved when each place has one new place and every new place comes from an old one. */
  lemma MovedConserves(s: State, s': State, to: (nat, Place) -> Place)
    requires Conserved(s) && s'.started == s.started
    requires forall span, a :: At(s, span, a) ==> At(s', span, to(span, a))
    requires forall span, b :: At(s', span, b) ==> exists a :: At(s, span, a) && to(span, a) == b
    ensures Conserved(s')
  {
    forall span, b, c | At(s', span, b) && At(s', span, c) ensures b == c {
      var b0 :| At(s, span, b0) && to(span, b0) == b;
      var c0 :| At(s, span, c0) && to(span, c0) == c;
    }
    forall span | span in s'.started ensures exists b :: At(s', span, b) {
      var a :| At(s, span, a);
      assert At(s', span, to(span, a));
    }
  }

  /** Nothing moves. */
  lemma QuietConserves(s: State, s': State)
    requires Conserved(s) && SameEntries(s, s') && s'.started == s.started
    requires forall p :: InPhase(s', p, Opened) <==> InPhase(s, p, Opened)
    ensures Conserved(s')
  {
    assert forall span, a :: At(s', span, a) <==> At(s, span, a);
    assert forall span :: span in s.started ==> exists a :: At(s, span, a) && At(s', span, a);
  }

  lemma OpenAdds(cfg: Config, s: State, p: nat, span: nat, a: Place)
    requires Enabled(cfg, s, OpenSpan(p))
    ensures At(Do(cfg, s, OpenSpan(p)), span, a) <==> At(s, span, a) || (span == p && a == Opening)
  {
  }

  lemma OpenConserves(cfg: Config, s: State, p: nat)
    requires WellFormed(cfg, s) && Conserved(s) && Enabled(cfg, s, OpenSpan(p))
    ensures Conserved(Do(cfg, s, OpenSpan(p)))
  {
    var s' := Do(cfg, s, OpenSpan(p));
    forall span, a ensures At(s', span, a) <==> At(s, span, a) || (span == p && a == Opening) {
      OpenAdds(cfg, s, p, span, a);
    }
    assert p !in s.started;
    forall span | span in s'.started ensures exists b :: At(s', span, b) {
      if span == p {
        assert At(s', span, Opening);
      } else {
        var a :| At(s, span, a);
        assert At(s', span, a);
      }
    }
  }

  /** Where a place goes when post `p` stores its span under `key`. */
  function TrackTo(s: State, p: nat, key: string, span: nat, a: Place): Place {
    if span == p && a == Opening then InMap(key)
    else if a == InMap(key) then DisplacedAt(|s.displaced|)
    else a
  }

  lemma TrackMoves(cfg: Config, s: State, p: nat, span: nat, a: Place)
    requires WellFormed(cfg, s) && Conserved(s) && Enabled(cfg, s, TrackSpan(p)) && At(s, span, a)
    ensures At(Moves(cfg, s, TrackSpan(p)), span, TrackTo(s, p, ReqKey(s.posts[p].req), span, a))
  {
    assert At(s, p, Opening);
  }

  lemma TrackComesFrom(cfg: Config, s: State, p: nat, span: nat, b: Place) returns (a: Place)
    requires WellFormed(cfg, s) && Conserved(s) && Enabled(cfg, s, TrackSpan(p))
    requires At(Moves(cfg, s, TrackSpan(p)), span, b)
    ensures At(s, span, a) && TrackTo(s, p, ReqKey(s.posts[p].req), span, a) == b
  {
    assert At(s, p, Opening);
    var key := ReqKey(s.posts[p].req);
    a := if b == InMap(key) then Opening else if b == DisplacedAt(|s.displaced|) then InMap(key) else b;
  }

  /** From the opener's hand into the map, and from the map into the displaced ones. */
  lemma TrackConserves(cfg: Config, s: State, p: nat)
    requires WellFormed(cfg, s) && Conserved(s) && Enabled(cfg, s, TrackSpan(p))
    ensures Conserved(Do(cfg, s, TrackSpan(p)))
  {
    var s' := Moves(cfg, s, TrackSpan(p));
    var key := ReqKey(s.posts[p].req);
    var to := (span: nat, a: Place) => TrackTo(s, p, key, span, a);
    forall span, a | At(s, span, a) ensures At(s', span, to(span, a)) {
      TrackMoves(cfg, s, p, span, a);
    }
    forall span, b | At(s', span, b) ensures exists a :: At(s, span, a) && to(span, a) == b {
      var a := TrackComesFrom(cfg, s, p, span, b);
    }
    MovedConserves(s, s', to);
  }

  /** Where a place goes when the entries under `keys` are taken. */
  function TakeTo(reqs: FlatMap, keys: set<string>, verdict: Verdict, owner: Owner, now: int, a: Place): Place {
    if a.InMap? && a.key in keys && a.key in reqs then InHand(Held(reqs[a.key], verdict, owner, now)) else a
  }

  lemma TakeMoves(s: State, keys: set<string>, verdict: Verdict, owner: Owner, span: nat, a: Place)
    requires At(s, span, a)
    ensures At(TakeAll(s, keys, verdict, owner), span, TakeTo(s.reqs, keys, verdict, owner, s.now, a))
  {
  }

  lemma TakeComesFrom(s: State, keys: set<string>, verdict: Verdict, owner: Owner, span: nat, b: Place)
      returns (a: Place)
    requires At(TakeAll(s, keys, verdict, owner), span, b)
    ensures At(s, span, a) && TakeTo(s.reqs, keys, verdict, owner, s.now, a) == b
  {
    a := b;
    if b.InHand? && b.h !in s.held {
      var k :| k in keys && k in s.reqs && b.h == Held(s.reqs[k], verdict, owner, s.now);
      a := InMap(k);
    }
  }

  /** From the map into the hand of the thread that took it. */
  lemma TakeAllConserves(s: State, keys: set<string>, verdict: Verdict, owner: Owner)
    requires Conserved(s)
    ensures Conserved(TakeAll(s, keys, verdict, owner))
  {
    var s' := TakeAll(s, keys, verdict, owner);
    var to := (span: nat, a: Place) => TakeTo(s.reqs, keys, verdict, owner, s.now, a);
    forall span, a | At(s, span, a) ensures At(s', span, to(span, a)) {
      TakeMoves(s, keys, verdict, owner, span, a);
    }
    forall span, b | At(s', span, b) ensures exists a :: At(s, span, a) && to(span, a) == b {
      var a := TakeComesFrom(s, keys, verdict, owner, span, b);
    }
    MovedConserves(s, s', to);
  }

  /** From that hand into the log of ends. */
  lemma FinishConserves(cfg: Config, s: State, h: Held)
    requires Conserved(s) && h in s.held
    ensures Conserved(Do(cfg, s, Finish(h)))
  {
    var s' := Do(cfg, s, Finish(h));
    var n := |s.ended|;
    var to := (span: nat, a: Place) => if a == InHand(h) then EndedAt(n) else a;
    forall span, b | At(s', span, b) ensures exists a :: At(s, span, a) && to(span, a) == b {
      assert At(s, span, if b == EndedAt(n) then InHand(h) else b);
    }
    MovedConserves(s, s', to);
  }

  lemma MovesKeepOpening(cfg: Config, s: State, a: Action)
    requires Enabled(cfg, s, a) && !a.OpenSpan? && !a.TrackSpan?
    ensures Moves(cfg, s, a).started == s.started
    ensures forall p :: InPhase(Moves(cfg, s, a), p, Opened) <==> InPhase(s, p, Opened)
  {
  }

  /** The other actions at most take entries. */
  lemma OthersConserve(cfg: Config, s: State, a: Action)
    requires Conserved(s) && Enabled(cfg, s, a) && !a.OpenSpan? && !a.TrackSpan? && !a.Finish?
    ensures Conserved(Do(cfg, s, a))
  {
    var s1 := Moves(cfg, s, a);
    MovesKeepEntries(cfg, s, a);
    MovesKeepOpening(cfg, s, a);
    QuietConserves(s, s1);
    match Grabs(cfg, s, a)
    case Nothing =>
    case Entries(keys, verdict, owner) => TakeAllConserves(s1, keys, verdict, owner);
  }

  lemma StepConserves(cfg: Config, s: State, a: Action)
    requires WellFormed(cfg, s) && Conserved(s)
    ensures Conserved(Step(cfg, s, a))
  {
    if Enabled(cfg, s, a) {
      match a
      case OpenSpan(p) => OpenConserves(cfg, s, p);
      case TrackSpan(p) => TrackConserves(cfg, s, p);
      case Finish(h) => FinishConserves(cfg, s, h);
      case _ => OthersConserve(cfg, s, a);
    }
  }

  /** The state a run reaches is well formed and conserves spans. */
  lemma {:induction false} RunIsSound(cfg: Config, acts: seq<Action>)
    ensures WellFormed(cfg, Run(cfg, acts)) && Conserved(Run(cfg, acts))
    decreases |acts|
  {
    if acts != [] {
      var n := |acts| - 1;
      RunIsSound(cfg, acts[..n]);
      StepKeepsWellFormed(cfg, Run(cfg, acts[..n]), acts[n]);
      StepConserves(cfg, Run(cfg, acts[..n]), acts[n]);
    }
  }

  /** No run ends a span twice, or ends one that was displaced or never started. */
  lemma SpansEndAtMostOnce(cfg: Config, acts: seq<Action>)
    ensures var s := Run(cfg, acts);
            && (forall i, j :: 0 <= i < j < |s.ended| ==> s.ended[i].held.entry.span != s.ended[j].held.entry.span)
            && (forall i, j ::
                  0 <= i < |s.ended| && 0 <= j < |s.displaced| ==> s.ended[i].held.entry.span != s.displaced[j].span)
            && (forall i :: 0 <= i < |s.ended| ==> s.ended[i].held.entry.span in s.started)
  {
    RunIsSound(cfg, acts);
    var s := Run(cfg, acts);
    forall i | 0 <= i < |s.ended| ensures At(s, s.ended[i].held.entry.span, EndedAt(i)) {
    }
    forall j | 0 <= j < |s.displaced| ensures At(s, s.displaced[j].span, DisplacedAt(j)) {
    }
  }

  // ---------- Who holds what ----------

  /** A POST handler takes its entry in its last section, so until then it holds nothing. */
  ghost predicate PostsHoldLast(s: State) {
    forall h :: h in s.held && h.owner.ByPost? ==> InPhase(s, h.owner.p, Concluded)
  }

  lemma ConcludedStays(cfg: Config, s: State, a: Action, p: nat)
    requires Enabled(cfg, s, a) && InPhase(s, p, Concluded)
    ensures InPhase(Moves(cfg, s, a), p, Concluded)
  {
  }

  lemma GrabbedByConcluded(cfg: Config, s: State, a: Action)
    requires Enabled(cfg, s, a) && Grabs(cfg, s, a).Entries? && Grabs(cfg, s, a).owner.ByPost?
    ensures InPhase(Moves(cfg, s, a), Grabs(cfg, s, a).owner.p, Concluded)
  {
  }

  lemma StepKeepsPostsHoldLast(cfg: Config, s: State, a: Action)
    requires PostsHoldLast(s)
    ensures PostsHoldLast(Step(cfg, s, a))
  {
    if Enabled(cfg, s, a) {
      var s' := Do(cfg, s, a);
      DoMoves(cfg, s, a);
      forall h | h in s'.held && h.owner.ByPost? ensures InPhase(s', h.owner.p, Concluded) {
        if h in s.held {
          ConcludedStays(cfg, s, a, h.owner.p);
        } else {
          HeldIsGrabbed(cfg, s, a, h);
          GrabbedByConcluded(cfg, s, a);
        }
      }
    }
  }

  lemma HeldIsGrabbed(cfg: Config, s: State, a: Action, h: Held)
    requires Enabled(cfg, s, a) && h in Do(cfg, s, a).held && h !in s.held
    ensures Grabs(cfg, s, a).Entries? && h.owner == Grabs(cfg, s, a).owner
  {
    if !a.TrackSpan? && !a.Finish? {
      MovesKeepEntries(cfg, s, a);
    }
  }

  lemma {:induction false} RunHoldsLast(cfg: Config, acts: seq<Action>)
    ensures PostsHoldLast(Run(cfg, acts))
    decreases |acts|
  {
    if acts != [] {
      var n := |acts| - 1;
      RunHoldsLast(cfg, acts[..n]);
      StepKeepsPostsHoldLast(cfg, Run(cfg, acts[..n]), acts[n]);
    }
  }

  // ---------- Displacement ----------

  /** The call a post makes, and the call an entry belongs to. */
  function CallOf(req: PostReq): Pair { (SessionOf(req), IdOf(req.rpc)) }

  function EntryCall(e: InFlight): Pair { (e.sessionID, e.requestID) }

  ghost predicate PlainPosts(s: State) {
    forall p :: p in s.posts ==> Plain(CallOf(s.posts[p].req))
  }

  /** A post stores its span while another call with the same session and id is in flight. */
  ghost predicate Reuses(cfg: Config, s: State, a: Action) {
    && a.TrackSpan? && Enabled(cfg, s, a)
    && exists k :: k in s.reqs && EntryCall(s.reqs[k]) == CallOf(s.posts[a.p].req)
  }

  lemma ReuseIsOccupiedKey(cfg: Config, s: State, a: Action)
    requires WellFormed(cfg, s) && PlainPosts(s) && a.TrackSpan? && Enabled(cfg, s, a)
    ensures Reuses(cfg, s, a) <==> ReqKey(s.posts[a.p].req) in s.reqs
  {
    var call := CallOf(s.posts[a.p].req);
    UnkeyOfKey(call);
    forall k | k in s.reqs ensures k == KeyOf(EntryCall(s.reqs[k])) && Unkey(k) == EntryCall(s.reqs[k]) {
      UnkeyOfKey(EntryCall(s.reqs[k]));
    }
  }

  lemma PostsPersist(cfg: Config, s: State, a: Action)
    requires PlainPosts(Step(cfg, s, a))
    ensures PlainPosts(s)
  {
    if Enabled(cfg, s, a) {
      MovesAdvancePosts(cfg, s, a);
      assert Do(cfg, s, a).posts == Moves(cfg, s, a).posts;
    }
  }

  lemma DisplacedByStep(cfg: Config, s: State, a: Action)
    requires WellFormed(cfg, s) && PlainPosts(s)
    ensures Step(cfg, s, a).displaced == [] <==> s.displaced == [] && !Reuses(cfg, s, a)
  {
    if Enabled(cfg, s, a) {
      if a.TrackSpan? {
        ReuseIsOccupiedKey(cfg, s, a);
      } else if !a.Finish? {
        MovesKeepEntries(cfg, s, a);
      }
    }
  }

  ghost predicate NeverReuses(cfg: Config, acts: seq<Action>) {
    forall n :: 0 <= n < |acts| ==> !Reuses(cfg, Run(cfg, acts[..n]), acts[n])
  }

  lemma NeverReusesSnoc(cfg: Config, acts: seq<Action>)
    requires acts != []
    ensures var m := |acts| - 1;
            NeverReuses(cfg, acts) <==> NeverReuses(cfg, acts[..m]) && !Reuses(cfg, Run(cfg, acts[..m]), acts[m])
  {
    var m := |acts| - 1;
    forall n | 0 <= n < m ensures acts[..m][..n] == acts[..n] && acts[..m][n] == acts[n] {
    }
  }

  /** A span is lost to displacement in exactly the runs that reuse a session's id while it is in flight. */
  lemma {:induction false} NothingDisplacedExactly(cfg: Config, acts: seq<Action>)
    requires PlainPosts(Run(cfg, acts))
    ensures Run(cfg, acts).displaced == [] <==> NeverReuses(cfg, acts)
    decreases |acts|
  {
    if acts != [] {
      var m := |acts| - 1;
      var before := acts[..m];
      PostsPersist(cfg, Run(cfg, before), acts[m]);
      NothingDisplacedExactly(cfg, before);
      NeverReusesSnoc(cfg, acts);
      RunIsSound(cfg, before);
      DisplacedByStep(cfg, Run(cfg, before), acts[m]);
    }
  }
}
