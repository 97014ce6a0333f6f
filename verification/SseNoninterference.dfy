/** Session noninterference: what happens to one session's calls does not depend on any other session. */
module SseNoninterference {
  import opened Text
  import opened Rpc
  import opened RequestMaps
  import opened SseProtocol
  import opened SseConservation
  import opened SseTruth

  // ---------- The view of one session ----------

  function EndsOf(ended: seq<End>, sess: string): seq<End> {
    if ended == [] then []
    else
      var last := ended[|ended| - 1];
      EndsOf(ended[..|ended| - 1], sess) + if last.held.entry.sessionID == sess then [last] else []
  }

  function EntriesOf(entries: seq<InFlight>, sess: string): seq<InFlight> {
    if entries == [] then []
    else
      var last := entries[|entries| - 1];
      EntriesOf(entries[..|entries| - 1], sess) + if last.sessionID == sess then [last] else []
  }

  /** `own` says which session a stream advertises. */
  type Owners = nat -> string

  ghost function ReqsOf(reqs: FlatMap, sess: string): FlatMap {
    map k | k in reqs && KeyHasSession(sess, k) :: reqs[k]
  }

  ghost function SessionsOf(sessions: map<string, Session>, sess: string): map<string, Session> {
    map x | x in sessions && x == sess :: sessions[x]
  }

  ghost function PostsOf(posts: map<nat, Post>, sess: string): map<nat, Post> {
    map p | p in posts && SessionOf(posts[p].req) == sess :: posts[p]
  }

  ghost function StreamsOf(streams: map<nat, Stream>, sess: string, own: Owners): map<nat, Stream> {
    map st | st in streams && own(st) == sess :: streams[st]
  }

  ghost function HeldOf(held: set<Held>, sess: string): set<Held> {
    set h | h in held && h.entry.sessionID == sess
  }

  ghost function StartedOf(started: map<nat, Start>, sess: string): map<nat, Start> {
    map p | p in started && started[p].sessionID == sess :: started[p]
  }

  /** Everything in the state that belongs to session `sess`: its calls, spans, ends in order, attributes and
      upstream URLs, and its streams; and the clock. */
  ghost function View(s: State, sess: string, own: Owners): State {
    State(s.now, s.lastTick, ReqsOf(s.reqs, sess), SessionsOf(s.sessions, sess), PostsOf(s.posts, sess),
          StreamsOf(s.streams, sess, own), HeldOf(s.held, sess), StartedOf(s.started, sess), EndsOf(s.ended, sess),
          EntriesOf(s.displaced, sess))
  }

  ghost predicate PostIs(s: State, p: nat, sess: string) {
    p in s.posts && SessionOf(s.posts[p].req) == sess
  }

  /** The action is of session `sess`, or is the clock or the evictor's tick. */
  ghost predicate Mine(s: State, a: Action, sess: string, own: Owners) {
    match a
    case Arrive(_, req) => SessionOf(req) == sess
    case OpenSpan(p) => PostIs(s, p, sess)
    case TrackSpan(p) => PostIs(s, p, sess)
    case Route(p) => PostIs(s, p, sess)
    case Conclude(p, _) => PostIs(s, p, sess)
    case Connect(st) => own(st) == sess
    case Line(st, _) => own(st) == sess
    case Hangup(st, _) => own(st) == sess
    case Drain(st) => own(st) == sess
    case Advance(_) => true
    case Tick => true
    case Finish(h) => h.entry.sessionID == sess
  }

  /** The same run with all other sessions' posts, streams and span ends removed and the ticks kept. */
  ghost function Only(cfg: Config, acts: seq<Action>, sess: string, own: Owners): seq<Action>
    decreases |acts|
  {
    if acts == [] then []
    else
      var n := |acts| - 1;
      var s, a := Run(cfg, acts[..n]), acts[n];
      Only(cfg, acts[..n], sess, own) + if Enabled(cfg, s, a) && Mine(s, a, sess, own) then [a] else []
  }

  // ---------- Hypotheses ----------

  /** No stream advertises any session but its own. */
  ghost predicate OneSessionEach(cfg: Config, acts: seq<Action>, own: Owners) {
    forall n :: 0 <= n < |acts| ==> AdvertisesOwn(cfg, Run(cfg, acts[..n]), acts[n], own)
  }

  ghost predicate AdvertisesOwn(cfg: Config, s: State, a: Action, own: Owners) {
    a.Line? && Enabled(cfg, s, a) ==>
      RegisteredAt(cfg, s.streams[a.st], a.line) == "" || RegisteredAt(cfg, s.streams[a.st], a.line) == own(a.st)
  }

  ghost predicate StreamsOwned(s: State, own: Owners) {
    forall st :: st in s.streams ==> s.streams[st].sessionID == "" || s.streams[st].sessionID == own(st)
  }

  /** Everything a step needs to know about the state it starts from. */
  ghost predicate Tidy(cfg: Config, s: State, own: Owners) {
    WellFormed(cfg, s) && CleanState(s) && StreamsOwned(s, own)
  }

  lemma MovesKeepOwned(cfg: Config, s: State, a: Action, own: Owners)
    requires StreamsOwned(s, own) && AdvertisesOwn(cfg, s, a, own) && Enabled(cfg, s, a)
    ensures StreamsOwned(Moves(cfg, s, a), own)
  {
  }

  lemma StepKeepsTidy(cfg: Config, s: State, a: Action, own: Owners)
    requires Tidy(cfg, s, own) && CleanStep(cfg, s, a) && AdvertisesOwn(cfg, s, a, own)
    ensures Tidy(cfg, Step(cfg, s, a), own)
  {
    StepKeepsWellFormed(cfg, s, a);
    StepKeepsCleanState(cfg, s, a);
    if Enabled(cfg, s, a) {
      MovesKeepOwned(cfg, s, a, own);
      DoMoves(cfg, s, a);
    }
  }

  // ---------- Keys and sessions ----------

  /** An entry is in the session's part of the map exactly when it is the session's. */
  lemma KeysBySession(cfg: Config, s: State, sess: string, k: string)
    requires WellFormed(cfg, s) && PlainPosts(s) && k in s.reqs && sess != "" && NUL !in sess
    ensures KeyHasSession(sess, k) <==> s.reqs[k].sessionID == sess
  {
    EntryKey(cfg, s, k);
    OwnershipAgrees(sess, EntryCall(s.reqs[k]));
  }

  ghost predicate KeysMatchSession(reqs: FlatMap, sess: string) {
    forall k :: k in reqs ==> (KeyHasSession(sess, k) <==> reqs[k].sessionID == sess)
  }

  ghost predicate SameSelection(reqs: FlatMap, sess: string, keys: set<string>, mine: set<string>) {
    forall k :: k in reqs && KeyHasSession(sess, k) ==> (k in keys <==> k in mine)
  }

  lemma TakenOf(reqs: FlatMap, sess: string, keys: set<string>, mine: set<string>, v: Verdict, o: Owner, now: int)
    requires KeysMatchSession(reqs, sess) && SameSelection(reqs, sess, keys, mine)
    ensures HeldOf(Taken(reqs, keys, v, o, now), sess) == Taken(ReqsOf(reqs, sess), mine, v, o, now)
  {
    var w := ReqsOf(reqs, sess);
    forall h | h in HeldOf(Taken(reqs, keys, v, o, now), sess) ensures h in Taken(w, mine, v, o, now) {
      var k :| k in keys && k in reqs && h == Held(reqs[k], v, o, now);
      assert k in w && k in mine;
    }
    forall h | h in Taken(w, mine, v, o, now) ensures h in HeldOf(Taken(reqs, keys, v, o, now), sess) {
      var k :| k in mine && k in w && h == Held(w[k], v, o, now);
      assert k in reqs && k in keys;
    }
  }

  lemma HeldOfUnion(a: set<Held>, b: set<Held>, sess: string)
    ensures HeldOf(a + b, sess) == HeldOf(a, sess) + HeldOf(b, sess)
  {
  }

  lemma ReqsOfLess(reqs: FlatMap, sess: string, keys: set<string>, mine: set<string>)
    requires SameSelection(reqs, sess, keys, mine)
    ensures ReqsOf(reqs - keys, sess) == ReqsOf(reqs, sess) - mine
  {
  }

  /** Taking entries and viewing commute, when the keys agree on the session's part of the map. */
  lemma ViewOfTakeAll(s: State, sess: string, own: Owners, keys: set<string>, mine: set<string>, v: Verdict, o: Owner)
    requires KeysMatchSession(s.reqs, sess) && SameSelection(s.reqs, sess, keys, mine)
    ensures View(TakeAll(s, keys, v, o), sess, own) == TakeAll(View(s, sess, own), mine, v, o)
  {
    TakenOf(s.reqs, sess, keys, mine, v, o, s.now);
    HeldOfUnion(s.held, Taken(s.reqs, keys, v, o, s.now), sess);
    ReqsOfLess(s.reqs, sess, keys, mine);
  }

  lemma TakingNothing(s: State, v: Verdict, o: Owner)
    ensures TakeAll(s, {}, v, o) == s
  {
    assert s.reqs - {} == s.reqs;
  }

  // ---------- One step ----------

  lemma EndsOfSnoc(ended: seq<End>, e: End, sess: string)
    ensures EndsOf(ended + [e], sess) == EndsOf(ended, sess) + if e.held.entry.sessionID == sess then [e] else []
  {
    assert (ended + [e])[..|ended|] == ended;
  }

  lemma EntriesOfSnoc(entries: seq<InFlight>, e: InFlight, sess: string)
    ensures EntriesOf(entries + [e], sess) == EntriesOf(entries, sess) + if e.sessionID == sess then [e] else []
  {
    assert (entries + [e])[..|entries|] == entries;
  }

  lemma ViewEnables(cfg: Config, s: State, a: Action, sess: string, own: Owners)
    requires Enabled(cfg, s, a) && Mine(s, a, sess, own)
    ensures Enabled(cfg, View(s, sess, own), a)
  {
  }

  lemma PostsOfUpdate(posts: map<nat, Post>, p: nat, post: Post, sess: string)
    requires p in posts ==> SessionOf(posts[p].req) == SessionOf(post.req)
    ensures PostsOf(posts[p := post], sess)
         == if SessionOf(post.req) == sess then PostsOf(posts, sess)[p := post] else PostsOf(posts, sess)
  {
  }

  lemma StartedOfUpdate(started: map<nat, Start>, p: nat, start: Start, sess: string)
    requires p !in started
    ensures StartedOf(started[p := start], sess)
         == if start.sessionID == sess then StartedOf(started, sess)[p := start] else StartedOf(started, sess)
  {
  }

  lemma StreamsOfUpdate(streams: map<nat, Stream>, st: nat, stream: Stream, sess: string, own: Owners)
    ensures StreamsOf(streams[st := stream], sess, own)
         == if own(st) == sess then StreamsOf(streams, sess, own)[st := stream] else StreamsOf(streams, sess, own)
  {
  }

  lemma SessionsOfUpdate(sessions: map<string, Session>, sid: string, session: Session, sess: string)
    ensures SessionsOf(sessions[sid := session], sess)
         == if sid == sess then SessionsOf(sessions, sess)[sid := session] else SessionsOf(sessions, sess)
    ensures SessionsOf(sessions - {sid}, sess)
         == if sid == sess then SessionsOf(sessions, sess) - {sid} else SessionsOf(sessions, sess)
  {
  }

  lemma ReqsOfUpdate(reqs: FlatMap, k: string, e: InFlight, sess: string)
    ensures ReqsOf(reqs[k := e], sess)
         == if KeyHasSession(sess, k) then ReqsOf(reqs, sess)[k := e] else ReqsOf(reqs, sess)
  {
  }

  lemma ViewOfPostFields(s: State, s': State, sess: string, own: Owners)
    requires s' == s.(posts := s'.posts, started := s'.started)
    ensures View(s', sess, own)
         == View(s, sess, own).(posts := PostsOf(s'.posts, sess), started := StartedOf(s'.started, sess))
  {
  }

  lemma ClientOfView(sessions: map<string, Session>, sess: string)
    ensures ClientOf(SessionsOf(sessions, sess), sess) == ClientOf(sessions, sess)
  {
  }

  /** Opening a span, post and start by themselves. */
  lemma OpenedFields(cfg: Config, s: State, p: nat)
    requires Enabled(cfg, s, OpenSpan(p))
    ensures var req, s' := s.posts[p].req, Moves(cfg, s, OpenSpan(p));
            && s'.posts == s.posts[p := s.posts[p].(phase := Opened)]
            && s'.started == s.started[p := StartOf(req, ClientOf(s.sessions, SessionOf(req)))]
            && s' == s.(posts := s'.posts, started := s'.started)
  {
  }

  lemma ViewOfOpen(cfg: Config, s: State, p: nat, sess: string, own: Owners)
    requires Enabled(cfg, s, OpenSpan(p)) && p !in s.started
    requires PostIs(s, p, sess) ==> Enabled(cfg, View(s, sess, own), OpenSpan(p))
    ensures View(Moves(cfg, s, OpenSpan(p)), sess, own)
         == if PostIs(s, p, sess) then Moves(cfg, View(s, sess, own), OpenSpan(p)) else View(s, sess, own)
  {
    var s' := Moves(cfg, s, OpenSpan(p));
    OpenedFields(cfg, s, p);
    ViewOfPostFields(s, s', sess, own);
    PostsOfUpdate(s.posts, p, s'.posts[p], sess);
    StartedOfUpdate(s.started, p, s'.started[p], sess);
    if PostIs(s, p, sess) {
      OpenedFields(cfg, View(s, sess, own), p);
      ClientOfView(s.sessions, sess);
    }
  }

  lemma ViewOfPost(cfg: Config, s: State, a: Action, p: nat, sess: string, own: Owners)
    requires Enabled(cfg, s, a) && (a == Route(p) || (a.Conclude? && a.p == p))
    ensures View(Moves(cfg, s, a), sess, own)
         == if PostIs(s, p, sess) then Moves(cfg, View(s, sess, own), a) else View(s, sess, own)
  {
    PostsOfUpdate(s.posts, p, Moves(cfg, s, a).posts[p], sess);
  }

  lemma ViewOfArrive(cfg: Config, s: State, p: nat, req: PostReq, sess: string, own: Owners)
    requires Enabled(cfg, s, Arrive(p, req))
    ensures View(Moves(cfg, s, Arrive(p, req)), sess, own)
         == if SessionOf(req) == sess then Moves(cfg, View(s, sess, own), Arrive(p, req)) else View(s, sess, own)
  {
    PostsOfUpdate(s.posts, p, Post(req, Arrived, None), sess);
    var sid := SessionOf(req);
    if Announces(req, sid) {
      SessionsOfUpdate(s.sessions, sid, Remembered(s.sessions, req)[sid], sess);
    }
  }

  lemma ViewOfTrack(cfg: Config, s: State, p: nat, sess: string, own: Owners)
    requires Tidy(cfg, s, own) && Enabled(cfg, s, TrackSpan(p)) && sess != "" && NUL !in sess
    ensures View(Moves(cfg, s, TrackSpan(p)), sess, own)
         == if PostIs(s, p, sess) then Moves(cfg, View(s, sess, own), TrackSpan(p)) else View(s, sess, own)
  {
    var key := ReqKey(s.posts[p].req);
    OwnershipAgrees(sess, CallOf(s.posts[p].req));
    PostsOfUpdate(s.posts, p, s.posts[p].(phase := Tracked), sess);
    ReqsOfUpdate(s.reqs, key, PostEntry(p, s.posts[p].req, s.now), sess);
    if key in s.reqs {
      KeysBySession(cfg, s, sess, key);
      EntriesOfSnoc(s.displaced, s.reqs[key], sess);
    } else {
      assert s.displaced + [] == s.displaced;
    }
    assert EntriesOf(s.displaced, sess) + [] == EntriesOf(s.displaced, sess);
  }

  lemma ViewOfStream(cfg: Config, s: State, a: Action, sess: string, own: Owners)
    requires a.Connect? || a.Line? || a.Hangup? || a.Drain?
    requires Enabled(cfg, s, a) && StreamsOwned(s, own) && AdvertisesOwn(cfg, s, a, own) && sess != ""
    ensures View(Moves(cfg, s, a), sess, own)
         == if own(a.st) == sess then Moves(cfg, View(s, sess, own), a) else View(s, sess, own)
  {
    StreamsOfUpdate(s.streams, a.st, Moves(cfg, s, a).streams[a.st], sess, own);
    match a
    case Line(st, line) =>
      var sid := RegisteredAt(cfg, s.streams[st], line);
      if sid != "" {
        SessionsOfUpdate(s.sessions, sid, Moves(cfg, s, a).sessions[sid], sess);
      }
    case Hangup(st, _) =>
      SessionsOfUpdate(s.sessions, s.streams[st].sessionID, NO_SESSION, sess);
    case _ =>
  }

  lemma ViewOfFinish(cfg: Config, s: State, h: Held, sess: string, own: Owners)
    requires h in s.held
    ensures View(Moves(cfg, s, Finish(h)), sess, own)
         == if h.entry.sessionID == sess then Moves(cfg, View(s, sess, own), Finish(h)) else View(s, sess, own)
  {
    EndsOfSnoc(s.ended, End(h, s.now), sess);
    assert EndsOf(s.ended, sess) + [] == EndsOf(s.ended, sess);
    assert HeldOf(s.held - {h}, sess)
        == if h.entry.sessionID == sess then HeldOf(s.held, sess) - {h} else HeldOf(s.held, sess);
  }

  lemma ViewOfClock(cfg: Config, s: State, a: Action, sess: string, own: Owners)
    requires Enabled(cfg, s, a) && (a.Advance? || a.Tick?)
    ensures Enabled(cfg, View(s, sess, own), a)
    ensures View(Moves(cfg, s, a), sess, own) == Moves(cfg, View(s, sess, own), a)
  {
  }

  lemma ViewOfPostMoves(cfg: Config, s: State, a: Action, sess: string, own: Owners)
    requires Tidy(cfg, s, own) && Enabled(cfg, s, a) && sess != "" && NUL !in sess
    requires a.OpenSpan? || a.TrackSpan? || a.Route? || a.Conclude?
    ensures View(Moves(cfg, s, a), sess, own)
         == if PostIs(s, a.p, sess) then Moves(cfg, View(s, sess, own), a) else View(s, sess, own)
  {
    if a.OpenSpan? {
      if PostIs(s, a.p, sess) {
        ViewEnables(cfg, s, a, sess, own);
      }
      ViewOfOpen(cfg, s, a.p, sess, own);
    } else if a.TrackSpan? {
      ViewOfTrack(cfg, s, a.p, sess, own);
    } else {
      ViewOfPost(cfg, s, a, a.p, sess, own);
    }
  }

  /** What an action does besides taking entries shows in the session's view just when the action is its own. */
  lemma ViewOfMoves(cfg: Config, s: State, a: Action, sess: string, own: Owners)
    requires Tidy(cfg, s, own) && Enabled(cfg, s, a) && AdvertisesOwn(cfg, s, a, own) && sess != "" && NUL !in sess
    ensures Mine(s, a, sess, own) ==> Enabled(cfg, View(s, sess, own), a)
    ensures View(Moves(cfg, s, a), sess, own)
         == if Mine(s, a, sess, own) then Moves(cfg, View(s, sess, own), a) else View(s, sess, own)
  {
    if Mine(s, a, sess, own) {
      ViewEnables(cfg, s, a, sess, own);
    }
    if a.Arrive? {
      ViewOfArrive(cfg, s, a.p, a.req, sess, own);
    } else if a.OpenSpan? || a.TrackSpan? || a.Route? || a.Conclude? {
      ViewOfPostMoves(cfg, s, a, sess, own);
    } else if a.Finish? {
      ViewOfFinish(cfg, s, a.h, sess, own);
    } else if a.Advance? || a.Tick? {
      ViewOfClock(cfg, s, a, sess, own);
    } else {
      ViewOfStream(cfg, s, a, sess, own);
    }
  }

  // Entries taken.

  /** A plain key of another session, or of none, is outside the session's part of the map. */
  lemma OtherKey(sess: string, call: Pair)
    requires Plain(call) && call.0 != sess && NUL !in sess
    ensures !KeyHasSession(sess, KeyOf(call))
  {
    OwnershipAgrees(sess, call);
  }

  lemma OtherDrain(cfg: Config, s: State, sess: string, other: string)
    requires WellFormed(cfg, s) && PlainPosts(s) && sess != "" && NUL !in sess && NUL !in other && other != sess
    ensures SameSelection(s.reqs, sess, SessionKeys(s.reqs, other), {})
  {
    forall k | k in SessionKeys(s.reqs, other) ensures !KeyHasSession(sess, k) {
      KeysBySession(cfg, s, sess, k);
      KeysBySession(cfg, s, other, k);
    }
  }

  /** An action of another session takes nothing of this one. */
  lemma OthersTakeNothing(cfg: Config, s: State, a: Action, sess: string, own: Owners)
    requires Tidy(cfg, s, own) && CleanStep(cfg, s, a) && Enabled(cfg, s, a) && !Mine(s, a, sess, own)
    requires sess != "" && NUL !in sess && Grabs(cfg, s, a).Entries?
    ensures SameSelection(s.reqs, sess, Grabs(cfg, s, a).keys, {})
  {
    if a.Line? {
      OtherKey(sess, (s.streams[a.st].sessionID, AnswerAt(cfg, s.streams[a.st], a.line).value.0));
    } else if a.Conclude? {
      OtherKey(sess, CallOf(s.posts[a.p].req));
    } else if a.Drain? {
      OtherDrain(cfg, s, sess, s.streams[a.st].sessionID);
    }
  }

  /** An action of this session takes the same entries of it whatever else is in the map. */
  lemma OwnTakesSame(cfg: Config, s: State, a: Action, sess: string, own: Owners)
    requires Enabled(cfg, s, a) && Mine(s, a, sess, own) && Enabled(cfg, View(s, sess, own), a)
    ensures var g, w := Grabs(cfg, s, a), Grabs(cfg, View(s, sess, own), a);
            && g.Entries? == w.Entries?
            && (g.Entries? ==>
                  && g.verdict == w.verdict && g.owner == w.owner
                  && SameSelection(s.reqs, sess, g.keys, w.keys))
  {
  }

  lemma KeysMatch(cfg: Config, s: State, reqs: FlatMap, sess: string)
    requires WellFormed(cfg, s) && PlainPosts(s) && reqs == s.reqs && sess != "" && NUL !in sess
    ensures KeysMatchSession(reqs, sess)
  {
    forall k | k in reqs ensures KeyHasSession(sess, k) <==> reqs[k].sessionID == sess {
      KeysBySession(cfg, s, sess, k);
    }
  }

  /** One step of the session itself. */
  lemma ViewOfOwnStep(cfg: Config, s: State, a: Action, sess: string, own: Owners)
    requires Tidy(cfg, s, own) && CleanStep(cfg, s, a) && AdvertisesOwn(cfg, s, a, own)
    requires Enabled(cfg, s, a) && sess != "" && NUL !in sess && Mine(s, a, sess, own)
    ensures View(Do(cfg, s, a), sess, own) == Step(cfg, View(s, sess, own), a)
  {
    var m, w := Moves(cfg, s, a), View(s, sess, own);
    ViewOfMoves(cfg, s, a, sess, own);
    OwnTakesSame(cfg, s, a, sess, own);
    if Grabs(cfg, s, a).Entries? {
      var Entries(keys, v, o) := Grabs(cfg, s, a);
      MovesKeepEntries(cfg, s, a);
      KeysMatch(cfg, s, m.reqs, sess);
      ViewOfTakeAll(m, sess, own, keys, Grabs(cfg, w, a).keys, v, o);
    }
  }

  /** One step of another session. */
  lemma ViewOfOtherStep(cfg: Config, s: State, a: Action, sess: string, own: Owners)
    requires Tidy(cfg, s, own) && CleanStep(cfg, s, a) && AdvertisesOwn(cfg, s, a, own)
    requires Enabled(cfg, s, a) && sess != "" && NUL !in sess && !Mine(s, a, sess, own)
    ensures View(Do(cfg, s, a), sess, own) == View(s, sess, own)
  {
    var m := Moves(cfg, s, a);
    ViewOfMoves(cfg, s, a, sess, own);
    if Grabs(cfg, s, a).Entries? {
      var Entries(keys, v, o) := Grabs(cfg, s, a);
      MovesKeepEntries(cfg, s, a);
      KeysMatch(cfg, s, m.reqs, sess);
      OthersTakeNothing(cfg, s, a, sess, own);
      ViewOfTakeAll(m, sess, own, keys, {}, v, o);
      TakingNothing(View(m, sess, own), v, o);
    }
  }

  /** One step, seen from the session. */
  lemma {:induction false} ViewOfStep(cfg: Config, s: State, a: Action, sess: string, own: Owners)
    requires Tidy(cfg, s, own) && CleanStep(cfg, s, a) && AdvertisesOwn(cfg, s, a, own)
    requires Enabled(cfg, s, a) && sess != "" && NUL !in sess
    ensures View(Do(cfg, s, a), sess, own)
         == if Mine(s, a, sess, own) then Step(cfg, View(s, sess, own), a) else View(s, sess, own)
  {
    if Mine(s, a, sess, own) {
      ViewOfOwnStep(cfg, s, a, sess, own);
    } else {
      ViewOfOtherStep(cfg, s, a, sess, own);
    }
  }

  lemma {:induction false} RunIsTidy(cfg: Config, acts: seq<Action>, own: Owners)
    requires CleanRun(cfg, acts) && OneSessionEach(cfg, acts, own)
    ensures Tidy(cfg, Run(cfg, acts), own)
    decreases |acts|
  {
    if acts != [] {
      var m := |acts| - 1;
      HypothesesOfPrefix(cfg, acts, own);
      RunIsTidy(cfg, acts[..m], own);
      StepKeepsTidy(cfg, Run(cfg, acts[..m]), acts[m], own);
    }
  }

  lemma HypothesesOfPrefix(cfg: Config, acts: seq<Action>, own: Owners)
    requires CleanRun(cfg, acts) && OneSessionEach(cfg, acts, own) && acts != []
    ensures CleanRun(cfg, acts[..|acts| - 1]) && OneSessionEach(cfg, acts[..|acts| - 1], own)
  {
    var m := |acts| - 1;
    CleanRunPrefix(cfg, acts, m);
    assert forall n :: 0 <= n < m ==> acts[..m][..n] == acts[..n];
  }

  /** For any run and any session, the session's calls, spans, the order of their ends, their verdicts, times,
      client attributes and upstream URLs are those of the same run without the other sessions. */
  lemma {:induction false} Noninterference(cfg: Config, acts: seq<Action>, sess: string, own: Owners)
    requires sess != "" && NUL !in sess
    requires CleanRun(cfg, acts) && OneSessionEach(cfg, acts, own)
    ensures View(Run(cfg, acts), sess, own) == Run(cfg, Only(cfg, acts, sess, own))
    decreases |acts|
  {
    if acts == [] {
      ViewOfInit(sess, own);
    } else {
      var m := |acts| - 1;
      var s, a := Run(cfg, acts[..m]), acts[m];
      var before := Only(cfg, acts[..m], sess, own);
      HypothesesOfPrefix(cfg, acts, own);
      Noninterference(cfg, acts[..m], sess, own);
      RunIsTidy(cfg, acts[..m], own);
      if Enabled(cfg, s, a) {
        ViewOfStep(cfg, s, a, sess, own);
        if Mine(s, a, sess, own) {
          assert (before + [a])[..|before|] == before;
        } else {
          assert before + [] == before;
        }
      } else {
        assert before + [] == before;
      }
    }
  }

  lemma ViewOfInit(sess: string, own: Owners)
    ensures View(INIT, sess, own) == INIT
  {
  }
}
