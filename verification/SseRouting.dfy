/** No cross-routing: a POST only ever goes to a URL of its own session. */
module SseRouting {
  import opened Text
  import opened SseReader
  import opened SseProtocol

  // ---------- Which session a URL carries ----------

  /** The value of the first pair with the name, or "" when there is none. */
  predicate FirstValue(q: Query, name: string, v: string) {
    || (v == "" && forall i :: 0 <= i < |q| ==> q[i].0 != name)
    || exists i :: 0 <= i < |q| && q[i] == (name, v) && forall j :: 0 <= j < i ==> q[j].0 != name
  }

  /** The first `session_id` counts if it has a value, and else the first `sessionId`. */
  ghost predicate Carries(query: Option<Query>, sid: string) {
    match query
    case None => sid == ""
    case Some(q) => (FirstValue(q, "session_id", sid) && sid != "")
                    || (FirstValue(q, "session_id", "") && FirstValue(q, "sessionId", sid))
  }

  lemma {:induction false} GetIsFirstValue(q: Query, name: string, v: string)
    ensures Get(q, name) == v <==> FirstValue(q, name, v)
    decreases |q|
  {
    if q == [] {
    } else if q[0].0 == name {
      if q[0].1 == v {
        assert q[0] == (name, v);
      }
    } else {
      var rest := q[1..];
      GetIsFirstValue(rest, name, v);
      if i :| 0 <= i < |rest| && rest[i] == (name, v) && forall j :: 0 <= j < i ==> rest[j].0 != name {
        assert q[i + 1] == (name, v);
        assert forall j :: 0 < j < i + 1 ==> q[j].0 == rest[j - 1].0;
      }
      if i :| 0 <= i < |q| && q[i] == (name, v) && forall j :: 0 <= j < i ==> q[j].0 != name {
        assert rest[i - 1] == (name, v) && forall j :: 0 <= j < i - 1 ==> rest[j].0 == q[j + 1].0;
      }
      assert (forall i :: 0 <= i < |q| ==> q[i].0 != name) <==> (forall i :: 0 <= i < |rest| ==> rest[i].0 != name) by {
        assert forall i :: 0 <= i < |rest| ==> rest[i] == q[i + 1];
        assert forall i :: 0 < i < |q| ==> q[i] == rest[i - 1];
      }
    }
  }

  /** For every query there is one such id, and it is the one the code reads. */
  lemma SessionIsCarried(query: Option<Query>, sid: string)
    ensures SessionOfQuery(query) == sid <==> Carries(query, sid)
  {
    match query
    case None =>
    case Some(q) =>
      GetIsFirstValue(q, "session_id", sid);
      GetIsFirstValue(q, "session_id", "");
      GetIsFirstValue(q, "sessionId", sid);
  }

  /** The session an endpoint text names; a text that does not parse names none. */
  ghost predicate Names(cfg: Config, raw: string, sid: string) {
    match cfg.parseUrl(raw)
    case None => sid == ""
    case Some(u) => Carries(u.query, sid)
  }

  lemma SessionIsNamed(cfg: Config, raw: string, sid: string)
    ensures SessionIDOf(cfg, raw) == sid <==> Names(cfg, raw, sid)
  {
    if cfg.parseUrl(raw).Some? {
      SessionIsCarried(cfg.parseUrl(raw).value.query, sid);
    }
  }

  /** The line is a data line of an endpoint event, and its trimmed data names the session. */
  ghost predicate Advertises(cfg: Config, eventType: string, line: string, sid: string, data: string) {
    && eventType == "endpoint" && sid != ""
    && |line| >= 5 && line[..5] == "data:" && IsTrimmed(line[5..], data) && Names(cfg, data, sid)
  }

  lemma AdvertisesExactly(cfg: Config, stream: Stream, line: string, sid: string, data: string)
    ensures Advertises(cfg, stream.eventType, line, sid, data)
       <==> sid != "" && RegisteredAt(cfg, stream, line) == sid && CallAt(stream.eventType, line).value.data == data
  {
    if |line| >= 5 && line[..5] == "data:" {
      TrimmedExactly(line[5..], data);
      SessionIsNamed(cfg, data, sid);
    }
  }

  // ---------- Where a POST may go ----------

  /** `dir` is the path up to its last slash; an empty path counts as the root. */
  predicate DirectoryOf(path: string, dir: string) {
    if path == "" then dir == "/"
    else && dir <= path && (dir != "" ==> dir[|dir| - 1] == '/')
         && forall i :: |dir| <= i < |path| ==> path[i] != '/'
  }

  /** The URL a reference without scheme and authority stands for, relative to the target. */
  ghost predicate RelativeTo(target: Url, ref: Url, url: Url) {
    && url.scheme == target.scheme && url.authority == target.authority
    && (ref.path != "" || ref.query.Some? ==> url.query == ref.query)
    && (ref.path == "" && ref.query.None? ==> url.query == target.query)
    && (ref.path == "" ==> url.path == target.path)
    && (ref.path != "" && ref.path[0] == '/' ==> url.path == ref.path)
    && (ref.path != "" && ref.path[0] != '/'
        ==> exists dir :: DirectoryOf(target.path, dir) && url.path == dir + ref.path)
  }

  /** Where a POST goes when its session advertises `endpoint`, "" for none: to an endpoint that starts with "http"
      as it stands; to any other that parses, resolved against the target; and else to its own path and query on
      the target. */
  ghost predicate GoesTo(cfg: Config, endpoint: string, req: PostReq, dest: Dest) {
    if endpoint != "" && endpoint[..if |endpoint| < 4 then |endpoint| else 4] == "http"
        then dest == Advertised(endpoint)
    else if endpoint != "" && cfg.parseUrl(endpoint).Some? then
      var ref := cfg.parseUrl(endpoint).value;
      && dest.Built?
      && (ref.scheme == "" && ref.authority == "" ==> RelativeTo(cfg.target, ref, dest.url))
      && (ref.scheme != "" ==> dest.url == ref)
      && (ref.scheme == "" && ref.authority != ""
          ==> dest.url == Url(cfg.target.scheme, ref.authority, ref.path, ref.query))
    else dest == Built(Url(cfg.target.scheme, cfg.target.authority, req.path, req.query))
  }

  lemma {:induction false} UpToLastSlashIsDirectory(path: string)
    requires path != ""
    ensures DirectoryOf(path, UpToLastSlash(path))
    decreases |path|
  {
    if path[|path| - 1] != '/' {
      var front := path[..|path| - 1];
      if front == "" {
        assert UpToLastSlash(path) == "";
      } else {
        UpToLastSlashIsDirectory(front);
        assert forall i :: 0 <= i < |front| ==> front[i] == path[i];
      }
    }
  }

  lemma UpstreamGoesThere(cfg: Config, endpoint: string, req: PostReq)
    ensures GoesTo(cfg, endpoint, req, Upstream(cfg, endpoint, req))
  {
    if cfg.target.path != "" {
      UpToLastSlashIsDirectory(cfg.target.path);
    }
    if endpoint != "" && !HasPrefix(endpoint, "http") && cfg.parseUrl(endpoint).Some? {
      var ref := cfg.parseUrl(endpoint).value;
      if ref.path != "" && ref.path[0] != '/' {
        var dir := if cfg.target.path == "" then "/" else UpToLastSlash(cfg.target.path);
        assert DirectoryOf(cfg.target.path, dir) && MergePath(cfg.target.path, ref.path) == dir + ref.path;
      }
    }
  }

  // ---------- Every POST keeps its session ----------

  /** Resolving a reference that carries a session id keeps that id, whatever the base. */
  lemma ResolveKeepsSession(base: Url, ref: Url)
    requires SessionOfQuery(ref.query) != ""
    ensures SessionOfQuery(Resolve(base, ref).query) == SessionOfQuery(ref.query)
  {
  }

  /** Each of the three ways to build the upstream URL keeps the request's session. */
  lemma UpstreamKeepsSession(cfg: Config, endpoint: string, req: PostReq)
    requires endpoint != "" ==> SessionIDOf(cfg, endpoint) == SessionOf(req) && SessionOf(req) != ""
    ensures SessionOfDest(cfg, Upstream(cfg, endpoint, req)) == SessionOf(req)
  {
    if endpoint != "" && !HasPrefix(endpoint, "http") {
      match cfg.parseUrl(endpoint)
      case None =>
      case Some(ref) => ResolveKeepsSession(cfg.target, ref);
    }
  }

  ghost predicate EndpointsMatch(cfg: Config, s: State) {
    forall sid :: sid in s.sessions ==>
      sid != "" && (s.sessions[sid].endpoint != "" ==> SessionIDOf(cfg, s.sessions[sid].endpoint) == sid)
  }

  ghost predicate RoutesMatch(cfg: Config, s: State) {
    forall p :: p in s.posts && s.posts[p].dest.Some? ==>
      SessionOfDest(cfg, s.posts[p].dest.value) == SessionOf(s.posts[p].req)
  }

  lemma MovesKeepEndpoints(cfg: Config, s: State, a: Action)
    requires EndpointsMatch(cfg, s) && Enabled(cfg, s, a)
    ensures EndpointsMatch(cfg, Moves(cfg, s, a))
  {
  }

  lemma MovesKeepRoutes(cfg: Config, s: State, a: Action)
    requires EndpointsMatch(cfg, s) && RoutesMatch(cfg, s) && Enabled(cfg, s, a)
    ensures RoutesMatch(cfg, Moves(cfg, s, a))
  {
    if a.Route? {
      var req := s.posts[a.p].req;
      UpstreamKeepsSession(cfg, EndpointOf(s.sessions, SessionOf(req)), req);
    }
  }

  lemma StepKeepsRoutes(cfg: Config, s: State, a: Action)
    requires EndpointsMatch(cfg, s) && RoutesMatch(cfg, s)
    ensures EndpointsMatch(cfg, Step(cfg, s, a)) && RoutesMatch(cfg, Step(cfg, s, a))
  {
    if Enabled(cfg, s, a) {
      MovesKeepEndpoints(cfg, s, a);
      MovesKeepRoutes(cfg, s, a);
      DoMoves(cfg, s, a);
    }
  }

  /** In every reachable state each registered endpoint is one of its own session, and every POST forwarded so
      far went to a URL carrying the session id of the request. */
  lemma {:induction false} NoCrossRouting(cfg: Config, acts: seq<Action>)
    ensures EndpointsMatch(cfg, Run(cfg, acts)) && RoutesMatch(cfg, Run(cfg, acts))
    decreases |acts|
  {
    if acts != [] {
      var n := |acts| - 1;
      NoCrossRouting(cfg, acts[..n]);
      StepKeepsRoutes(cfg, Run(cfg, acts[..n]), acts[n]);
    }
  }

  // ---------- Where exactly a POST goes ----------

  /** The endpoint of a session as the history tells it: the latest one advertised for that session, unless the
      stream of that session has ended since. */
  ghost function LatestEndpoint(cfg: Config, acts: seq<Action>, sid: string): string
    decreases |acts|
  {
    if acts == [] then ""
    else
      var n := |acts| - 1;
      var s, a := Run(cfg, acts[..n]), acts[n];
      if !Enabled(cfg, s, a) then LatestEndpoint(cfg, acts[..n], sid)
      else if a.Line? && RegisteredAt(cfg, s.streams[a.st], a.line) == sid != "" then
        CallAt(s.streams[a.st].eventType, a.line).value.data
      else if a.Hangup? && s.streams[a.st].sessionID == sid then ""
      else LatestEndpoint(cfg, acts[..n], sid)
  }

  /** Where the history says requests of a session go; a request of no session has no endpoint. */
  ghost function EndpointFor(cfg: Config, acts: seq<Action>, sid: string): string {
    if sid == "" then "" else LatestEndpoint(cfg, acts, sid)
  }

  lemma EndpointStep(cfg: Config, s: State, a: Action, sid: string)
    requires sid != "" && Enabled(cfg, s, a)
    ensures EndpointOf(Moves(cfg, s, a).sessions, sid)
         == if a.Line? && RegisteredAt(cfg, s.streams[a.st], a.line) == sid
             then CallAt(s.streams[a.st].eventType, a.line).value.data
            else if a.Hangup? && s.streams[a.st].sessionID == sid then ""
            else EndpointOf(s.sessions, sid)
  {
  }

  lemma {:induction false} SessionTableHasLatestEndpoint(cfg: Config, acts: seq<Action>, sid: string)
    ensures EndpointOf(Run(cfg, acts).sessions, sid) == EndpointFor(cfg, acts, sid)
    decreases |acts|
  {
    if acts != [] && sid != "" {
      var n := |acts| - 1;
      var s, a := Run(cfg, acts[..n]), acts[n];
      SessionTableHasLatestEndpoint(cfg, acts[..n], sid);
      if Enabled(cfg, s, a) {
        EndpointStep(cfg, s, a, sid);
        DoMoves(cfg, s, a);
      }
    }
  }

  /** It was routed to where the endpoint its session advertised at that moment sends it. */
  ghost predicate WentToLatest(cfg: Config, acts: seq<Action>, p: nat, post: Post) {
    exists n :: 0 <= n < |acts| && acts[n] == Route(p) && Enabled(cfg, Run(cfg, acts[..n]), acts[n])
      && post.dest.Some? && GoesTo(cfg, EndpointFor(cfg, acts[..n], SessionOf(post.req)), post.req, post.dest.value)
  }

  lemma DestStays(cfg: Config, s: State, a: Action, p: nat)
    requires p in Step(cfg, s, a).posts && Step(cfg, s, a).posts[p].dest.Some? && !(a == Route(p) && Enabled(cfg, s, a))
    ensures p in s.posts && s.posts[p].dest == Step(cfg, s, a).posts[p].dest
        && s.posts[p].req == Step(cfg, s, a).posts[p].req
  {
    if Enabled(cfg, s, a) {
      DoMoves(cfg, s, a);
    }
  }

  /** In every run each forwarded POST went where its own session's stream had last told clients to post, and
      to the path it came in on when there was no such endpoint. */
  lemma {:induction false} PostsFollowTheirEndpoint(cfg: Config, acts: seq<Action>, p: nat)
    requires p in Run(cfg, acts).posts && Run(cfg, acts).posts[p].dest.Some?
    ensures WentToLatest(cfg, acts, p, Run(cfg, acts).posts[p])
    decreases |acts|
  {
    if acts != [] {
      var m := |acts| - 1;
      var s, a := Run(cfg, acts[..m]), acts[m];
      if a == Route(p) && Enabled(cfg, s, a) {
        var req := s.posts[p].req;
        SessionTableHasLatestEndpoint(cfg, acts[..m], SessionOf(req));
        UpstreamGoesThere(cfg, EndpointOf(s.sessions, SessionOf(req)), req);
        assert acts[m] == Route(p);
      } else {
        DestStays(cfg, s, a, p);
        PostsFollowTheirEndpoint(cfg, acts[..m], p);
        WentEarlier(cfg, acts, p, s.posts[p]);
        assert WentToLatest(cfg, acts, p, s.posts[p]);
      }
    }
  }

  lemma WentEarlier(cfg: Config, acts: seq<Action>, p: nat, post: Post)
    requires acts != [] && WentToLatest(cfg, acts[..|acts| - 1], p, post)
    ensures WentToLatest(cfg, acts, p, post)
  {
    var before := acts[..|acts| - 1];
    var n :| 0 <= n < |before| && before[n] == Route(p) && Enabled(cfg, Run(cfg, before[..n]), before[n])
      && post.dest.Some? && GoesTo(cfg, EndpointFor(cfg, before[..n], SessionOf(post.req)), post.req, post.dest.value);
    assert before[..n] == acts[..n] && acts[n] == Route(p);
  }

  /** The session id a destination carries. */
  ghost predicate DestCarries(cfg: Config, d: Dest, sid: string) {
    match d
    case Advertised(raw) => Names(cfg, raw, sid)
    case Built(url) => Carries(url.query, sid)
  }

  /** In every run a forwarded POST carries upstream the session id it came with, by index over the queries. */
  lemma {:induction false} ForwardedWithItsSession(cfg: Config, acts: seq<Action>, p: nat, sid: string)
    requires var s := Run(cfg, acts); p in s.posts && s.posts[p].dest.Some? && Carries(s.posts[p].req.query, sid)
    ensures DestCarries(cfg, Run(cfg, acts).posts[p].dest.value, sid)
  {
    NoCrossRouting(cfg, acts);
    var post := Run(cfg, acts).posts[p];
    SessionIsCarried(post.req.query, sid);
    match post.dest.value
    case Advertised(raw) => SessionIsNamed(cfg, raw, sid);
    case Built(url) => SessionIsCarried(url.query, sid);
  }
}
