/** The SSE proxy itself (internal/proxy/sse.go). Each method is the code of one critical section, or a handler
    that runs its sections in order, and is proved to be a step or a run of the transition system: `model` is
    the state of that system, and `Valid` ties it to the real fields. */
module SseProxy {
  import opened Text
  import opened Rpc
  import opened RequestMaps
  import opened Spans
  import opened Scanner
  import opened SseReader
  import opened SseProtocol
  import opened SseConservation
  import opened SseRouting
  import opened SseTruth
  import EventStream

  /** A run without its span ends: the order of the handler's own critical sections. */
  function Sections(acts: seq<Action>): seq<Action> {
    if acts == [] then []
    else Sections(acts[..|acts| - 1]) + if acts[|acts| - 1].Finish? then [] else [acts[|acts| - 1]]
  }

  function LineActions(st: nat, lines: seq<string>): seq<Action> {
    seq(|lines|, i requires 0 <= i < |lines| => Line(st, lines[i]))
  }

  /** The values under some keys of a map are what those keys hold. */
  lemma {:induction false} ValuesAtMembers(m: FlatMap, keys: set<string>, e: InFlight)
    requires keys <= m.Keys
    ensures e in ValuesAt(m, keys) <==> exists k :: k in keys && m[k] == e
    decreases keys
  {
    if keys != {} {
      var k :| k in keys;
      ValuesAtPick(m, keys, k);
      ValuesAtMembers(m, keys - {k}, e);
    }
  }

  lemma {:induction false} ValuesAtOnce(m: FlatMap, keys: set<string>, e: InFlight)
    requires keys <= m.Keys
    requires forall j, k :: j in m && k in m && m[j] == m[k] ==> j == k
    ensures ValuesAt(m, keys)[e] <= 1
    decreases keys
  {
    if keys != {} {
      var k :| k in keys;
      ValuesAtPick(m, keys, k);
      ValuesAtOnce(m, keys - {k}, e);
      ValuesAtMembers(m, keys - {k}, m[k]);
    }
  }

  lemma LineActionsSnoc(st: nat, lines: seq<string>, i: nat)
    requires i < |lines|
    ensures LineActions(st, lines[..i + 1]) == LineActions(st, lines[..i]) + [Line(st, lines[i])]
    ensures lines[..i + 1] == lines[..i] + [lines[i]]
  {
  }

  lemma NoDuplicates(out: seq<InFlight>, i: nat, j: nat)
    requires i < j < |out| && multiset(out)[out[j]] <= 1
    ensures out[i] != out[j]
  {
    var e := out[j];
    assert out == out[..j] + [e] + out[j + 1..];
    assert multiset(out)[e] >= multiset(out[..j])[e] + multiset([e])[e];
    assert out[..j][i] in multiset(out[..j]);
  }

  ghost function Finished(s: State, h: Held): State {
    s.(held := s.held - {h}, ended := s.ended + [End(h, s.now)])
  }

  /** The owner holds just the entries of `out` from position `i` on. */
  ghost predicate Hand(s: State, owner: Owner, out: seq<InFlight>, i: int, v: Verdict, takenAt: int) {
    forall h :: h in s.held && h.owner == owner
        <==> exists j :: 0 <= i <= j < |out| && h == Held(out[j], v, owner, takenAt)
  }

  lemma HandNext(s: State, owner: Owner, out: seq<InFlight>, i: nat, v: Verdict, takenAt: int)
    requires i < |out| && Hand(s, owner, out, i, v, takenAt) && forall e :: multiset(out)[e] <= 1
    ensures var h := Held(out[i], v, owner, takenAt);
            h in s.held && Hand(Finished(s, h), owner, out, i + 1, v, takenAt)
  {
    var h := Held(out[i], v, owner, takenAt);
    assert h in s.held && h.owner == owner;
    forall j | i < j < |out| ensures out[i] != out[j] {
      NoDuplicates(out, i, j);
    }
    var s' := Finished(s, h);
    forall g ensures g in s'.held && g.owner == owner
        <==> exists j :: i + 1 <= j < |out| && g == Held(out[j], v, owner, takenAt) {
      if g in s'.held && g.owner == owner {
        var j :| i <= j < |out| && g == Held(out[j], v, owner, takenAt);
        assert j != i;
      }
    }
  }

  /** What a thread that held nothing holds after taking the entries under `keys`. */
  lemma HandOfTaken(s: State, keys: set<string>, out: seq<InFlight>, v: Verdict, owner: Owner)
    requires Idle(s, owner) && Conserved(s) && keys <= s.reqs.Keys && multiset(out) == ValuesAt(s.reqs, keys)
    ensures Hand(TakeAll(s, keys, v, owner), owner, out, 0, v, s.now)
    ensures forall e :: multiset(out)[e] <= 1
  {
    forall e ensures e in out <==> exists k :: k in keys && s.reqs[k] == e {
      ValuesAtMembers(s.reqs, keys, e);
      assert e in out <==> e in multiset(out);
    }
    forall j, k | j in s.reqs && k in s.reqs && s.reqs[j] == s.reqs[k] ensures j == k {
      assert At(s, s.reqs[j].span, InMap(j)) && At(s, s.reqs[k].span, InMap(k));
    }
    forall e ensures multiset(out)[e] <= 1 {
      ValuesAtOnce(s.reqs, keys, e);
    }
    var s' := TakeAll(s, keys, v, owner);
    forall h ensures h in s'.held && h.owner == owner
        <==> exists j :: 0 <= j < |out| && h == Held(out[j], v, owner, s.now) {
      if h in s'.held && h.owner == owner {
        var k :| k in keys && k in s.reqs && h == Held(s.reqs[k], v, owner, s.now);
        assert s.reqs[k] in out;
      }
      if j :| 0 <= j < |out| && h == Held(out[j], v, owner, s.now) {
        assert out[j] in out;
        var k :| k in keys && s.reqs[k] == out[j];
      }
    }
  }

  lemma HandAfter(cfg: Config, s: State, a: Action, keys: set<string>, out: seq<InFlight>, v: Verdict, owner: Owner)
    requires Enabled(cfg, s, a) && Grabs(cfg, s, a) == Entries(keys, v, owner)
    requires SameEntries(s, Moves(cfg, s, a)) && Moves(cfg, s, a).now == s.now
    requires Hand(TakeAll(s, keys, v, owner), owner, out, 0, v, s.now)
    ensures Hand(Do(cfg, s, a), owner, out, 0, v, s.now)
  {
    assert Do(cfg, s, a).held == TakeAll(s, keys, v, owner).held;
  }

  /** `now` continues the run `was`, and the handlers' sections in between are `sections`. */
  ghost predicate Continues(was: seq<Action>, now: seq<Action>, sections: seq<Action>) {
    was <= now && Sections(now) == Sections(was) + sections
  }

  lemma ContinuesTwice(a: seq<Action>, b: seq<Action>, c: seq<Action>, first: seq<Action>, second: seq<Action>)
    requires Continues(a, b, first) && Continues(b, c, second)
    ensures Continues(a, c, first + second)
  {
    assert Sections(a) + first + second == Sections(a) + (first + second);
  }

  lemma ContinuesOne(history: seq<Action>, a: Action)
    ensures Continues(history, history + [a], if a.Finish? then [] else [a])
  {
    assert (history + [a])[..|history|] == history;
  }

  /** What the exporter gets of an end. */
  function ExportOf(e: End): (InFlight, Verdict) { (e.held.entry, e.held.verdict) }

  /** The sections that open a span, for a request that has one. */
  function Tracing(cfg: Config, p: nat, req: PostReq): seq<Action> {
    if Traced(cfg.filter, req.rpc) then [OpenSpan(p), TrackSpan(p)] else []
  }

  /** The entries, each ended with the verdict. */
  function Each(out: seq<InFlight>, v: Verdict): Exported {
    if out == [] then [] else Each(out[..|out| - 1], v) + [(out[|out| - 1], v)]
  }

  lemma EachSnoc(out: seq<InFlight>, i: nat, v: Verdict)
    requires i < |out|
    ensures Each(out[..i + 1], v) == Each(out[..i], v) + [(out[i], v)]
  {
    assert out[..i + 1][..i] == out[..i];
  }

  /** An action that takes the entry under one key. */
  lemma TakesOne(cfg: Config, s: State, a: Action, key: string, v: Verdict, owner: Owner)
    requires Enabled(cfg, s, a) && Grabs(cfg, s, a) == Entries({key}, v, owner)
    ensures Do(cfg, s, a).reqs == s.reqs - {key} && Do(cfg, s, a).ended == s.ended
    ensures Do(cfg, s, a).held == s.held + if key in s.reqs then {Held(s.reqs[key], v, owner, s.now)} else {}
    ensures key !in s.reqs ==> s.reqs - {key} == s.reqs
  {
    MovesKeepEntries(cfg, s, a);
    assert Taken(s.reqs, {key}, v, owner, s.now) == if key in s.reqs then {Held(s.reqs[key], v, owner, s.now)} else {};
  }

  lemma TickGrabs(cfg: Config, s: State)
    requires Enabled(cfg, s, Tick)
    ensures Grabs(cfg, s, Tick) == Entries(StaleKeys(s.reqs, s.now - cfg.timeout), TimedOut, ByEvictor)
    ensures Moves(cfg, s, Tick) == s.(lastTick := s.now)
  {
  }

  lemma StaleDrained(was: FlatMap, now: FlatMap, out: seq<InFlight>, cutoff: int)
    requires (now, Drained(multiset(out))) == FlatApply(was, Op.EvictStale(cutoff))
    ensures now == was - StaleKeys(was, cutoff) && multiset(out) == ValuesAt(was, StaleKeys(was, cutoff))
  {
  }

  class Proxy {
    const cfg: Config
    const reqMap: RequestMap
    var sessions: map<string, Session>
    var exported: Exported
    ghost var history: seq<Action>
    ghost var model: State

    /** The real fields are those of the state the history runs to, and the spans exported are its ends. */
    ghost predicate Valid()
      reads this, reqMap
    {
      && model == Run(cfg, history)
      && model.reqs == reqMap.reqs && model.sessions == sessions
      && exported == Mapped(ExportOf, model.ended)
    }

    constructor (cfg: Config)
      ensures Valid() && history == [] && fresh(reqMap)
      ensures this.cfg == cfg
    {
      this.cfg := cfg;
      reqMap := new RequestMap();
      sessions, exported := map[], [];
      history, model := [], INIT;
    }

    /** The system takes the step `a`. */
    ghost method Record(a: Action)
      requires model == Run(cfg, history) && Enabled(cfg, model, a)
      modifies this`model, this`history
      ensures model == Run(cfg, history) && model == Do(cfg, old(model), a)
      ensures Continues(old(history), history, if a.Finish? then [] else [a])
    {
      RunSnoc(cfg, history, a);
      ContinuesOne(history, a);
      history, model := history + [a], Step(cfg, model, a);
    }

    // ---------- Ending spans ----------

    method EndSpan(e: InFlight, v: Verdict, ghost h: Held)
      requires Valid() && h in model.held && h.entry == e && h.verdict == v
      modifies this`exported, this`model, this`history
      ensures Valid() && model == Finished(old(model), h) && exported == old(exported) + [(e, v)]
      ensures Continues(old(history), history, [])
    {
      exported := exported + [(e, v)];
      MappedSnoc(ExportOf, model.ended, End(h, model.now));
      Record(Finish(h));
    }

    /** Ends each of the entries a thread took in one critical section. */
    method EndAll(out: seq<InFlight>, v: Verdict, ghost owner: Owner, ghost takenAt: int)
      requires Valid() && Hand(model, owner, out, 0, v, takenAt) && forall e :: multiset(out)[e] <= 1
      modifies this`exported, this`model, this`history
      ensures Valid() && Idle(model, owner)
      ensures Continues(old(history), history, [])
      ensures model == old(model).(held := model.held, ended := model.ended)
      ensures exported == old(exported) + Each(out, v)
    {
      var i := 0;
      while i < |out|
        invariant 0 <= i <= |out| && Valid() && exported == old(exported) + Each(out[..i], v)
        invariant Continues(old(history), history, [])
        invariant model == old(model).(held := model.held, ended := model.ended)
        invariant Hand(model, owner, out, i, v, takenAt)
      {
        HandNext(model, owner, out, i, v, takenAt);
        EachSnoc(out, i, v);
        ghost var before := history;
        EndSpan(out[i], v, Held(out[i], v, owner, takenAt));
        ContinuesTwice(old(history), before, history, [], []);
        i := i + 1;
      }
      assert out[..i] == out;
    }

    // ---------- The session table ----------

    method RememberClient(sessionID: string, name: string, version: string)
      modifies this`sessions
      ensures sessions == if name == "" then old(sessions)
                          else old(sessions)[sessionID := SessionIn(old(sessions), sessionID)
                                                          .(clientName := name, clientVer := version)]
    {
      if name == "" {
        return;
      }
      var s := SessionIn(sessions, sessionID);
      sessions := sessions[sessionID := s.(clientName := name, clientVer := version)];
    }

    method RegisterEndpoint(sessionID: string, endpoint: string)
      modifies this`sessions
      ensures sessions == old(sessions)[sessionID := SessionIn(old(sessions), sessionID).(endpoint := endpoint)]
    {
      var s := SessionIn(sessions, sessionID);
      sessions := sessions[sessionID := s.(endpoint := endpoint)];
    }

    // ---------- The POST handler ----------

    method ReceivePost(p: nat, req: PostReq)
      requires Valid() && p !in model.posts
      modifies this`sessions, this`model, this`history
      ensures Valid() && Continues(old(history), history, [Arrive(p, req)])
      ensures p in model.posts && model.posts[p] == Post(req, Arrived, None) && model.now == old(model.now)
    {
      var sid := SessionOf(req);
      if req.rpc.Some? && req.rpc.value.rpcMethod == "initialize" && sid != "" {
        RememberClient(sid, req.rpc.value.clientName, req.rpc.value.clientVer);
      }
      Record(Arrive(p, req));
    }

    /** The attributes the span starts with. */
    method StartSpan(p: nat, req: PostReq) returns (start: Start)
      requires Valid() && p in model.posts && model.posts[p] == Post(req, Arrived, None) && Traced(cfg.filter, req.rpc)
      modifies this`model, this`history
      ensures Valid() && Continues(old(history), history, [OpenSpan(p)])
      ensures p in model.posts && model.posts[p] == Post(req, Opened, None) && model.now == old(model.now)
      ensures p in model.started && start == model.started[p]
    {
      var sid := SessionOf(req);
      var client := ("", "");
      if sid != "" && sid in sessions {
        client := (sessions[sid].clientName, sessions[sid].clientVer);
      }
      start := StartOf(req, client);
      Record(OpenSpan(p));
    }

    method Track(p: nat, req: PostReq, now: int)
      requires Valid() && p in model.posts && model.posts[p] == Post(req, Opened, None) && now == model.now
      modifies this`model, this`history, reqMap
      ensures Valid() && Continues(old(history), history, [TrackSpan(p)])
      ensures reqMap.reqs == old(reqMap.reqs)[ReqKey(req) := PostEntry(p, req, now)]
      ensures p in model.posts && model.posts[p] == Post(req, Tracked, None)
    {
      reqMap.Store(SessionOf(req), IdOf(req.rpc), PostEntry(p, req, now));
      Record(TrackSpan(p));
    }

    method ChooseUpstream(p: nat, req: PostReq) returns (dest: Dest)
      requires Valid() && p in model.posts
      requires model.posts[p] == Post(req, if Traced(cfg.filter, req.rpc) then Tracked else Arrived, None)
      modifies this`model, this`history
      ensures Valid() && Continues(old(history), history, [Route(p)])
      ensures p in model.posts && model.posts[p] == Post(req, Routed, Some(dest))
      ensures SessionOfDest(cfg, dest) == SessionOf(req)
      ensures GoesTo(cfg, SessionIn(sessions, SessionOf(req)).endpoint, req, dest)
    {
      NoCrossRouting(cfg, history);
      var sid := SessionOf(req);
      var endpoint := "";
      if sid != "" && sid in sessions {
        endpoint := sessions[sid].endpoint;
      }
      dest := Upstream(cfg, endpoint, req);
      UpstreamKeepsSession(cfg, endpoint, req);
      UpstreamGoesThere(cfg, endpoint, req);
      Record(Route(p));
    }

    /** Takes the one entry under the key, as a section of its own, and ends its span. */
    method TakeAndEnd(sessionID: string, id: string, v: Verdict, ghost a: Action)
      requires Valid() && Enabled(cfg, model, a)
      requires exists owner :: Grabs(cfg, model, a) == Entries({CorrelationKey(sessionID, id)}, v, owner)
      requires Moves(cfg, model, a).sessions == sessions
      modifies this`model, this`history, this`exported, reqMap
      ensures Valid() && Continues(old(history), history, [a])
      ensures model == Do(cfg, old(model), a).(held := model.held, ended := model.ended)
      ensures model.held <= old(model.held)
      ensures (reqMap.reqs, exported) == TakenOut(old(reqMap.reqs), old(exported), CorrelationKey(sessionID, id), v)
    {
      ghost var key, was := CorrelationKey(sessionID, id), model;
      ghost var owner :| Grabs(cfg, model, a) == Entries({key}, v, owner);
      TakesOne(cfg, model, a, key, v, owner);
      var r := reqMap.Take(sessionID, id);
      Record(a);
      if r.Some? {
        ghost var before := history;
        EndSpan(r.value, v, Held(r.value, v, owner, was.now));
        ContinuesTwice(old(history), before, history, [a], []);
      }
    }

    /** The reply of upstream. A failure takes the call's entry and ends its span before the handler returns. */
    method Settle(p: nat, req: PostReq, reply: Reply)
      requires Valid() && p in model.posts && model.posts[p].phase == Routed && model.posts[p].req == req
      modifies this`model, this`history, this`exported, reqMap
      ensures Valid() && Continues(old(history), history, [Conclude(p, reply)])
      ensures InPhase(model, p, Concluded) && Idle(model, ByPost(p))
      ensures !Traced(cfg.filter, req.rpc) || (reply.Status? && reply.code < 400) ==>
                reqMap.reqs == old(reqMap.reqs) && exported == old(exported)
      ensures Traced(cfg.filter, req.rpc) && !(reply.Status? && reply.code < 400) ==>
                exists msg :: Explains(reply, msg) && (reqMap.reqs, exported)
                  == TakenOut(old(reqMap.reqs), old(exported), ReqKey(req), Failed(msg))
    {
      FailsExactly(reply);
      if FailureOf(reply).Some? {
        FailureExplained(reply, FailureOf(reply).value);
      }
      RunHoldsLast(cfg, history);
      if Traced(cfg.filter, req.rpc) && FailureOf(reply).Some? {
        TakeAndEnd(SessionOf(req), IdOf(req.rpc), Failed(FailureOf(reply).value), Conclude(p, reply));
      } else {
        Record(Conclude(p, reply));
      }
    }

    /** A POST handler from arrival to reply. Between any two sections other handlers may run; here none does. */
    method HandlePost(p: nat, req: PostReq, reply: Reply, now: int) returns (dest: Dest)
      requires Valid() && p !in model.posts && now == model.now
      modifies this`sessions, this`model, this`history, this`exported, reqMap
      ensures Valid()
      ensures Continues(old(history), history, [Arrive(p, req)] + Tracing(cfg, p, req) + [Route(p), Conclude(p, reply)])
      ensures InPhase(model, p, Concluded) && Idle(model, ByPost(p))
      ensures !Traced(cfg.filter, req.rpc) ==> reqMap.reqs == old(reqMap.reqs) && exported == old(exported)
      ensures Traced(cfg.filter, req.rpc) && reply.Status? && reply.code < 400 ==>
                && reqMap.reqs == old(reqMap.reqs)[ReqKey(req) := PostEntry(p, req, now)]
                && exported == old(exported)
      ensures Traced(cfg.filter, req.rpc) && !(reply.Status? && reply.code < 400) ==>
                && reqMap.reqs == old(reqMap.reqs) - {ReqKey(req)}
                && exists msg :: Explains(reply, msg)
                                 && exported == old(exported) + [(PostEntry(p, req, now), Failed(msg))]
      ensures SessionOfDest(cfg, dest) == SessionOf(req)
    {
      ReceivePost(p, req);
      ghost var arrived := history;
      TraceIfAsked(p, req, now);
      ghost var tracked := history;
      dest := ChooseUpstream(p, req);
      ghost var routed := history;
      TakenOutOfStored(old(reqMap.reqs), exported, ReqKey(req), PostEntry(p, req, now));
      Settle(p, req, reply);
      var first, last := [Arrive(p, req)], [Conclude(p, reply)];
      ContinuesTwice(old(history), arrived, tracked, first, Tracing(cfg, p, req));
      ContinuesTwice(tracked, routed, history, [Route(p)], last);
      ContinuesTwice(old(history), tracked, history, first + Tracing(cfg, p, req), [Route(p)] + last);
    }

    method TraceIfAsked(p: nat, req: PostReq, now: int)
      requires Valid() && p in model.posts && model.posts[p] == Post(req, Arrived, None) && now == model.now
      modifies this`model, this`history, reqMap
      ensures Valid() && Continues(old(history), history, Tracing(cfg, p, req))
      ensures reqMap.reqs == if Traced(cfg.filter, req.rpc) then old(reqMap.reqs)[ReqKey(req) := PostEntry(p, req, now)]
                             else old(reqMap.reqs)
      ensures p in model.posts
          && model.posts[p] == Post(req, if Traced(cfg.filter, req.rpc) then Tracked else Arrived, None)
    {
      if Traced(cfg.filter, req.rpc) {
        var _ := StartSpan(p, req);
        ghost var started := history;
        Track(p, req, now);
        ContinuesTwice(old(history), started, history, [OpenSpan(p)], [TrackSpan(p)]);
      }
    }

    // ---------- The stream reader ----------

    /** An endpoint event. */
    method HandleEndpoint(data: string, ghost st: nat, ghost line: string) returns (sid: string)
      requires Valid() && Enabled(cfg, model, Line(st, line))
      requires CallAt(model.streams[st].eventType, line) == Some(Call("endpoint", data))
      modifies this`sessions, this`model, this`history
      ensures Valid() && Continues(old(history), history, [Line(st, line)])
      ensures sid == RegisteredAt(cfg, old(model).streams[st], line) && Names(cfg, data, sid)
      ensures sessions == if sid == "" then old(sessions)
                          else old(sessions)[sid := SessionIn(old(sessions), sid).(endpoint := data)]
      ensures model.streams == old(model).streams[st := StreamAfter(cfg, old(model).streams[st], line)]
      ensures Idle(model, ByStream(st))
    {
      assert Grabs(cfg, model, Line(st, line)) == Nothing;
      sid := SessionIDOf(cfg, data);
      SessionIsNamed(cfg, data, sid);
      if sid != "" {
        RegisterEndpoint(sid, data);
      }
      Record(Line(st, line));
    }

    /** A message event. */
    method HandleMessage(data: string, sessionID: string, ghost st: nat, ghost line: string)
      returns (ghost answer: Option<(string, Verdict)>)
      requires Valid() && Enabled(cfg, model, Line(st, line)) && model.streams[st].sessionID == sessionID
      requires exists t ::
                 (t == "" || t == "message") && CallAt(model.streams[st].eventType, line) == Some(Call(t, data))
      modifies this`model, this`history, this`exported, reqMap
      ensures Valid() && Continues(old(history), history, [Line(st, line)])
      ensures RegisteredAt(cfg, old(model).streams[st], line) == ""
      ensures model.streams == old(model).streams[st := StreamAfter(cfg, old(model).streams[st], line)]
      ensures Idle(model, ByStream(st))
      ensures forall id, v :: Says(cfg.decode, data, id, v) <==> answer == Some((id, v))
      ensures (reqMap.reqs, exported) == match answer
                                         case None => (old(reqMap.reqs), old(exported))
                                         case Some((id, v)) => TakenOut(old(reqMap.reqs), old(exported),
                                                                        CorrelationKey(sessionID, id), v)
    {
      answer := AnswerIn(cfg.decode, data);
      AnswerSays(cfg.decode, data);
      match AnswerIn(cfg.decode, data) {
        case None =>
          Record(Line(st, line));
        case Some((id, v)) =>
          assert Grabs(cfg, model, Line(st, line)) == Entries({CorrelationKey(sessionID, id)}, v, ByStream(st));
          TakeAndEnd(sessionID, id, v, Line(st, line));
      }
    }

    /** One data payload of stream `st`; returns the session id it registers, or "". */
    method HandleSSEData(eventType: string, data: string, sessionID: string, ghost st: nat, ghost line: string)
      returns (sid: string)
      requires Valid() && Enabled(cfg, model, Line(st, line)) && model.streams[st].sessionID == sessionID
      requires CallAt(model.streams[st].eventType, line) == Some(Call(eventType, data))
      modifies this`sessions, this`model, this`history, this`exported, reqMap
      ensures Valid() && Continues(old(history), history, [Line(st, line)])
      ensures sid == RegisteredAt(cfg, old(model).streams[st], line)
      ensures model.streams == old(model).streams[st := StreamAfter(cfg, old(model).streams[st], line)]
      ensures Idle(model, ByStream(st))
    {
      sid := "";
      if eventType == "endpoint" {
        sid := HandleEndpoint(data, st, line);
      } else if eventType == "message" || eventType == "" {
        ghost var _ := HandleMessage(data, sessionID, st, line);
      } else {
        Record(Line(st, line));
      }
    }

    /** One line of the stream, after it has been forwarded. */
    method ReadLine(st: nat, eventType: string, sessionID: string, line: string)
      returns (eventType': string, sessionID': string)
      requires Valid() && Enabled(cfg, model, Line(st, line))
          && model.streams[st] == Stream(eventType, sessionID, Reading)
      modifies this`sessions, this`model, this`history, this`exported, reqMap
      ensures Valid() && Continues(old(history), history, [Line(st, line)])
      ensures st in model.streams && model.streams[st] == Stream(eventType', sessionID', Reading)
      ensures Idle(model, ByStream(st))
    {
      eventType', sessionID' := eventType, sessionID;
      if line == "" {
        eventType' := "";
        Record(Line(st, line));
      } else if HasPrefix(line, "event:") {
        assert line[0] == "event:"[0] && !HasPrefix(line, "data:");
        eventType' := TrimSpace(line[6..]);
        Record(Line(st, line));
      } else if HasPrefix(line, "data:") {
        var sid := HandleSSEData(eventType, TrimSpace(line[5..]), sessionID, st, line);
        if sid != "" {
          sessionID' := sid;
        }
      } else {
        Record(Line(st, line));
      }
    }

    /** Several entries have just been taken out of the real map, in the section `a`; ends their spans. */
    method EndTaken(out: seq<InFlight>, v: Verdict, ghost a: Action, ghost owner: Owner, ghost keys: set<string>)
      requires Valid'(keys) && Enabled(cfg, model, a) && Idle(model, owner)
      requires keys <= model.reqs.Keys && Grabs(cfg, model, a) == Entries(keys, v, owner)
      requires Moves(cfg, model, a).sessions == model.sessions
      requires multiset(out) == ValuesAt(model.reqs, keys)
      modifies this`model, this`history, this`exported
      ensures Valid() && Continues(old(history), history, [a]) && Idle(model, owner)
      ensures exported == old(exported) + Each(out, v)
      ensures model == Moves(cfg, old(model), a).(reqs := model.reqs, held := model.held, ended := model.ended)
    {
      RunIsSound(cfg, history);
      MovesKeepEntries(cfg, model, a);
      HandOfTaken(model, keys, out, v, owner);
      ghost var now := model.now;
      HandAfter(cfg, model, a, keys, out, v, owner);
      DoMoves(cfg, model, a);
      Record(a);
      ghost var recorded := history;
      EndAll(out, v, owner, now);
      ContinuesTwice(old(history), recorded, history, [a], []);
    }

    /** Valid, but for the entries under `keys`, which the real map has already given up. */
    ghost predicate Valid'(keys: set<string>)
      reads this, reqMap
    {
      && model == Run(cfg, history)
      && reqMap.reqs == model.reqs - keys && model.sessions == sessions
      && exported == Mapped(ExportOf, model.ended)
    }

    /** The deferred teardown: forget the session, then close out its calls. */
    method Teardown(st: nat, sessionID: string, clientGone: bool, ghost eventType: string)
        returns (ghost out: seq<InFlight>)
      requires Valid() && Enabled(cfg, model, Hangup(st, clientGone))
          && model.streams[st] == Stream(eventType, sessionID, Reading)
      modifies this`sessions, this`model, this`history, this`exported, reqMap
      ensures Valid()
      ensures Continues(old(history), history, [Hangup(st, clientGone)] + (if sessionID == "" then [] else [Drain(st)]))
      ensures st in model.streams && model.streams[st] == Stream(eventType, sessionID, Closed)
          && Idle(model, ByStream(st))
      ensures sessionID == ""
          ==> reqMap.reqs == old(reqMap.reqs) && exported == old(exported) && sessions == old(sessions)
      ensures sessionID != "" ==>
                && sessions == old(sessions) - {sessionID}
                && (reqMap.reqs, Drained(multiset(out))) == FlatApply(old(reqMap.reqs), Op.TakeSession(sessionID))
                && exported == old(exported) + Each(out, Abandoned(clientGone))
    {
      if sessionID == "" {
        out := [];
        Record(Hangup(st, clientGone));
        return;
      }
      sessions := sessions - {sessionID};
      Record(Hangup(st, clientGone));
      ghost var hungUp := history;
      ghost var keys := SessionKeys(model.reqs, sessionID);
      var taken := reqMap.TakeSession(sessionID);
      out := taken;
      EndTaken(taken, Abandoned(clientGone), Drain(st), ByStream(st), keys);
      ContinuesTwice(old(history), hungUp, history, [Hangup(st, clientGone)], [Drain(st)]);
    }

    /** The scan loop: forwards each line and acts on it. */
    method ScanLoop(st: nat, lines: seq<string>) returns (forwarded: string, eventType: string, sessionID: string)
      requires Valid() && st in model.streams && model.streams[st] == Stream("", "", Reading)
          && Idle(model, ByStream(st))
      modifies this`sessions, this`model, this`history, this`exported, reqMap
      ensures Valid() && forwarded == Unlines(lines)
      ensures Continues(old(history), history, LineActions(st, lines))
      ensures st in model.streams && model.streams[st] == Stream(eventType, sessionID, Reading)
      ensures Idle(model, ByStream(st))
    {
      eventType, sessionID, forwarded := "", "", "";
      var i := 0;
      while i < |lines|
        invariant 0 <= i <= |lines| && Valid()
        invariant forwarded == Unlines(lines[..i])
        invariant Continues(old(history), history, LineActions(st, lines[..i]))
        invariant st in model.streams && model.streams[st] == Stream(eventType, sessionID, Reading)
        invariant Idle(model, ByStream(st))
      {
        ghost var before := history;
        forwarded := forwarded + lines[i] + [LF];
        eventType, sessionID := ReadLine(st, eventType, sessionID, lines[i]);
        EventStream.UnlinesSnoc(lines[..i], lines[i]);
        ContinuesTwice(old(history), before, history, LineActions(st, lines[..i]), [Line(st, lines[i])]);
        LineActionsSnoc(st, lines, i);
        i := i + 1;
      }
      assert lines[..i] == lines;
    }

    /** A whole stream. The client gets each scanned line, and the reader's own sections are its connection,
        each line in order, and the teardown. */
    method HandleSSE(st: nat, body: string, clientGone: bool) returns (forwarded: string, ghost drained: bool)
      requires Valid() && st !in model.streams && Idle(model, ByStream(st))
      modifies this`sessions, this`model, this`history, this`exported, reqMap
      ensures Valid()
      ensures forwarded == Relayed(body, 8 * 1024 * 1024)
      ensures Continues(old(history), history, [Connect(st)] + LineActions(st, Scan(body, MAX_SSE_LINE).lines)
                                               + ([Hangup(st, clientGone)] + (if drained then [Drain(st)] else [])))
      ensures st in model.streams && model.streams[st].phase == Closed && Idle(model, ByStream(st))
      ensures drained == (model.streams[st].sessionID != "")
    {
      var lines := Scan(body, MAX_SSE_LINE).lines;
      Record(Connect(st));
      ghost var connected := history;
      var eventType, sessionID;
      forwarded, eventType, sessionID := ScanLoop(st, lines);
      ghost var read := history;
      drained := sessionID != "";
      ghost var _ := Teardown(st, sessionID, clientGone, eventType);
      ghost var closing := [Hangup(st, clientGone)] + (if drained then [Drain(st)] else []);
      ContinuesTwice(old(history), connected, read, [Connect(st)], LineActions(st, lines));
      ContinuesTwice(old(history), read, history, [Connect(st)] + LineActions(st, lines), closing);
    }

    // ---------- The evictor ----------

    method TakeStale(now: int) returns (out: seq<InFlight>, ghost keys: set<string>)
      modifies reqMap
      ensures keys == StaleKeys(old(reqMap.reqs), now - cfg.timeout)
      ensures reqMap.reqs == old(reqMap.reqs) - keys && multiset(out) == ValuesAt(old(reqMap.reqs), keys)
      ensures (reqMap.reqs, Drained(multiset(out))) == FlatApply(old(reqMap.reqs), Op.EvictStale(now - cfg.timeout))
    {
      ghost var was := reqMap.reqs;
      keys := StaleKeys(was, now - cfg.timeout);
      out := reqMap.EvictStale(now - cfg.timeout);
      StaleDrained(was, reqMap.reqs, out, now - cfg.timeout);
    }

    method EvictOnce(now: int) returns (ghost out: seq<InFlight>)
      requires Valid() && now == model.now && Idle(model, ByEvictor)
      modifies this`model, this`history, this`exported, reqMap
      ensures Valid() && Continues(old(history), history, [Tick]) && Idle(model, ByEvictor)
      ensures model.now == model.lastTick == now
      ensures (reqMap.reqs, Drained(multiset(out))) == FlatApply(old(reqMap.reqs), Op.EvictStale(now - cfg.timeout))
      ensures exported == old(exported) + Each(out, TimedOut)
    {
      TickGrabs(cfg, model);
      var taken, keys := TakeStale(now);
      out := taken;
      EndTaken(taken, TimedOut, Tick, ByEvictor, keys);
    }

    /** One round of the loop: the ticker fires after `wait`. */
    method WaitAndEvict(wait: nat, now: int)
      requires Valid() && now == model.now + wait && Idle(model, ByEvictor)
      modifies this`model, this`history, this`exported, reqMap
      ensures Valid() && Continues(old(history), history, [Advance(wait)] + [Tick]) && Idle(model, ByEvictor)
      ensures model.now == now
    {
      Record(Advance(wait));
      ghost var waited := history;
      ghost var _ := EvictOnce(now);
      ContinuesTwice(old(history), waited, history, [Advance(wait)], [Tick]);
    }

    /** The eviction loop over a series of waits between ticks, until its context ends. */
    method EvictLoop(waits: seq<nat>, startNow: int)
      requires Valid() && startNow == model.now && Idle(model, ByEvictor)
      modifies this`model, this`history, this`exported, reqMap
      ensures Valid() && Continues(old(history), history, TickActions(waits)) && Idle(model, ByEvictor)
    {
      var now := startNow;
      var i := 0;
      while i < |waits|
        invariant 0 <= i <= |waits| && Valid()
        invariant now == model.now && Idle(model, ByEvictor)
        invariant Continues(old(history), history, TickActions(waits[..i]))
      {
        ghost var before := history;
        now := now + waits[i];
        WaitAndEvict(waits[i], now);
        TickActionsSnoc(waits, i);
        ContinuesTwice(old(history), before, history, TickActions(waits[..i]), [Advance(waits[i])] + [Tick]);
        i := i + 1;
      }
      assert waits[..i] == waits;
    }
  }

  lemma TickActionsSnoc(waits: seq<nat>, i: nat)
    requires i < |waits|
    ensures TickActions(waits[..i + 1]) == TickActions(waits[..i]) + ([Advance(waits[i])] + [Tick])
  {
    assert waits[..i + 1][..i] == waits[..i];
  }

  function TickActions(waits: seq<nat>): seq<Action> {
    if waits == [] then [] else TickActions(waits[..|waits| - 1]) + [Advance(waits[|waits| - 1]), Tick]
  }
}
