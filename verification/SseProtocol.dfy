/** The SSE proxy as a transition system (internal/proxy/sse.go). Each action is one critical section, or one
    step between two of them, of a POST handler, a stream reader or the evictor. A disabled action changes
    nothing, so every sequence of actions is a run, and the runs are all interleavings. */
module SseProtocol {
  import opened Text
  import opened Rpc
  import opened RequestMaps
  import opened Spans
  import opened SseReader

  // ---------- URLs ----------

  type Query = seq<(string, string)>

  /** `query` is None when the URL has no query text. */
  datatype Url = Url(scheme: string, authority: string, path: string, query: Option<Query>)

  function Get(q: Query, name: string): string {
    if q == [] then "" else if q[0].0 == name then q[0].1 else Get(q[1..], name)
  }

  function SessionOfQuery(query: Option<Query>): string {
    match query
    case None => ""
    case Some(q) =>
      var id := Get(q, "session_id");
      if id != "" then id else Get(q, "sessionId")
  }

  function MergePath(base: string, ref: string): string {
    if ref == "" then base
    else if ref[0] == '/' then ref
    else if base == "" then "/" + ref
    else UpToLastSlash(base) + ref
  }

  function UpToLastSlash(path: string): string {
    if path == "" || path[|path| - 1] == '/' then path else UpToLastSlash(path[..|path| - 1])
  }

  /** Reference resolution, section 5.2.2 of RFC 3986, without the removal of dot segments. */
  function Resolve(base: Url, ref: Url): Url {
    var scheme := if ref.scheme == "" then base.scheme else ref.scheme;
    if ref.scheme != "" || ref.authority != "" then ref.(scheme := scheme)
    else
      Url(scheme, base.authority, MergePath(base.path, ref.path),
          if ref.path == "" && ref.query.None? then base.query else ref.query)
  }

  datatype Config = Config(
    filter: Filter,
    decode: Decoder,
    parseUrl: string -> Option<Url>,
    target: Url,
    timeout: int)

  function SessionIDOf(cfg: Config, raw: string): string {
    match cfg.parseUrl(raw)
    case None => ""
    case Some(u) => SessionOfQuery(u.query)
  }

  /** Where a POST goes: the advertised text verbatim, or a URL built from the target. */
  datatype Dest = Advertised(raw: string) | Built(url: Url)

  function SessionOfDest(cfg: Config, d: Dest): string {
    match d
    case Advertised(raw) => SessionIDOf(cfg, raw)
    case Built(url) => SessionOfQuery(url.query)
  }

  // ---------- State ----------

  /** A POST request: the URL it was sent to and its body, when that parses. */
  datatype PostReq = PostReq(path: string, query: Option<Query>, rpc: Option<Request>)

  function SessionOf(req: PostReq): string { SessionOfQuery(req.query) }

  function ReqKey(req: PostReq): string { CorrelationKey(SessionOf(req), IdOf(req.rpc)) }

  predicate Announces(req: PostReq, sid: string) {
    && sid != "" && SessionOf(req) == sid
    && req.rpc.Some? && req.rpc.value.rpcMethod == "initialize" && req.rpc.value.clientName != ""
  }

  function Fallback(cfg: Config, req: PostReq): Dest {
    Built(Url(cfg.target.scheme, cfg.target.authority, req.path, req.query))
  }

  function Upstream(cfg: Config, endpoint: string, req: PostReq): Dest {
    if endpoint == "" then Fallback(cfg, req)
    else if HasPrefix(endpoint, "http") then Advertised(endpoint)
    else
      match cfg.parseUrl(endpoint)
      case None => Fallback(cfg, req)
      case Some(ref) => Built(Resolve(cfg.target, ref))
  }

  datatype Session = Session(endpoint: string, clientName: string, clientVer: string)

  const NO_SESSION := Session("", "", "")

  /** How far a POST handler has come. */
  datatype Phase = Arrived | Opened | Tracked | Routed | Concluded

  /** A POST handler: its request, and the upstream URL once it has chosen one. */
  datatype Post = Post(req: PostReq, phase: Phase, dest: Option<Dest>)

  datatype StreamPhase = Reading | Closing(clientGone: bool) | Closed

  datatype Stream = Stream(eventType: string, sessionID: string, phase: StreamPhase)

  datatype Owner = ByPost(p: nat) | ByStream(st: nat) | ByEvictor

  /** An entry taken out of the map by the one thread that will end its span. */
  datatype Held = Held(entry: InFlight, verdict: Verdict, owner: Owner, takenAt: int)

  datatype End = End(held: Held, endedAt: int)

  /** The attributes a span starts with. */
  datatype Start = Start(rpcMethod: string, toolName: string, requestID: string, sessionID: string,
                         clientName: string, clientVer: string)

  /** A post's span, if it opens one, is named by the post. `started`, `ended` and `displaced` are the log:
      nothing the proxy does depends on them. */
  datatype State = State(
    now: int,
    lastTick: int,
    reqs: FlatMap,
    sessions: map<string, Session>,
    posts: map<nat, Post>,
    streams: map<nat, Stream>,
    held: set<Held>,
    started: map<nat, Start>,
    ended: seq<End>,
    displaced: seq<InFlight>)

  const INIT := State(0, 0, map[], map[], map[], map[], {}, map[], [], [])

  datatype Reply = CreateFailed | Unreachable(msg: string) | Status(code: nat)

  datatype Action =
    | Arrive(p: nat, req: PostReq)
    | OpenSpan(p: nat)
    | TrackSpan(p: nat)
    | Route(p: nat)
    | Conclude(p: nat, reply: Reply)
    | Connect(st: nat)
    | Line(st: nat, line: string)
    | Hangup(st: nat, clientGone: bool)
    | Drain(st: nat)
    | Advance(d: nat)
    | Tick
    | Finish(h: Held)

  // ---------- Steps ----------

  ghost predicate Idle(s: State, owner: Owner) {
    forall h :: h in s.held ==> h.owner != owner
  }

  ghost predicate InPhase(s: State, p: nat, phase: Phase) {
    p in s.posts && s.posts[p].phase == phase
  }

  ghost predicate Enabled(cfg: Config, s: State, a: Action) {
    match a
    case Arrive(p, _) => p !in s.posts
    case OpenSpan(p) => InPhase(s, p, Arrived) && Traced(cfg.filter, s.posts[p].req.rpc)
    case TrackSpan(p) => InPhase(s, p, Opened)
    case Route(p) => InPhase(s, p, Tracked) || (InPhase(s, p, Arrived) && !Traced(cfg.filter, s.posts[p].req.rpc))
    case Conclude(p, _) => InPhase(s, p, Routed)
    case Connect(st) => st !in s.streams
    case Line(st, _) => st in s.streams && s.streams[st].phase == Reading && Idle(s, ByStream(st))
    case Hangup(st, _) => st in s.streams && s.streams[st].phase == Reading && Idle(s, ByStream(st))
    case Drain(st) => st in s.streams && s.streams[st].phase.Closing?
    case Advance(_) => true
    case Tick => Idle(s, ByEvictor)
    case Finish(h) => h in s.held
  }

  /** The session's record, or the fresh one the code puts in its place. */
  function SessionIn(sessions: map<string, Session>, sid: string): Session {
    if sid in sessions then sessions[sid] else NO_SESSION
  }

  /** `rememberClient` */
  function Remembered(sessions: map<string, Session>, req: PostReq): map<string, Session> {
    var sid := SessionOf(req);
    if Announces(req, sid) then
      var was := SessionIn(sessions, sid);
      sessions[sid := was.(clientName := req.rpc.value.clientName, clientVer := req.rpc.value.clientVer)]
    else sessions
  }

  /** The endpoint branch of `handleSSEData`. */
  function Registered(sessions: map<string, Session>, sid: string, endpoint: string): map<string, Session> {
    var was := SessionIn(sessions, sid);
    sessions[sid := was.(endpoint := endpoint)]
  }

  /** `clientOf` */
  function ClientOf(sessions: map<string, Session>, sid: string): (string, string) {
    if sid != "" && sid in sessions then (sessions[sid].clientName, sessions[sid].clientVer) else ("", "")
  }

  function EndpointOf(sessions: map<string, Session>, sid: string): string {
    if sid != "" && sid in sessions then sessions[sid].endpoint else ""
  }

  function StartOf(req: PostReq, client: (string, string)): Start
    requires req.rpc.Some?
  {
    Start(req.rpc.value.rpcMethod, ToolNameOf(req.rpc.value), IdOf(req.rpc), SessionOf(req), client.0, client.1)
  }

  /** The entry post `p` stores. */
  function PostEntry(p: nat, req: PostReq, now: int): InFlight {
    EntryOf(p, req.rpc, SessionOf(req), now)
  }

  /** A thread takes the entries under `keys` out of the map, if they are there. */
  ghost function TakeAll(s: State, keys: set<string>, verdict: Verdict, owner: Owner): State {
    s.(reqs := s.reqs - keys, held := s.held + Taken(s.reqs, keys, verdict, owner, s.now))
  }

  ghost function Taken(reqs: FlatMap, keys: set<string>, verdict: Verdict, owner: Owner, now: int): set<Held> {
    set k | k in keys && k in reqs :: Held(reqs[k], verdict, owner, now)
  }

  /** Why a POST settles its own call: the forwarding failed, or upstream rejected it. */
  function FailureOf(reply: Reply): Option<string> {
    match reply
    case CreateFailed => Some("upstream request creation failed")
    case Unreachable(msg) => Some(msg)
    case Status(code) => if code >= 400 then Some(RejectedMsg(code)) else None
  }

  /** The answer a stream line carries to a call, if any. */
  function AnswerAt(cfg: Config, stream: Stream, line: string): Option<(string, Verdict)> {
    match CallAt(stream.eventType, line)
    case None => None
    case Some(c) => if c.eventType == "message" || c.eventType == "" then AnswerIn(cfg.decode, c.data) else None
  }

  /** The session a stream line registers, if any. */
  function RegisteredAt(cfg: Config, stream: Stream, line: string): string {
    match CallAt(stream.eventType, line)
    case None => ""
    case Some(c) => Registers(raw => SessionIDOf(cfg, raw), c)
  }

  function StreamAfter(cfg: Config, stream: Stream, line: string): Stream {
    var sid := RegisteredAt(cfg, stream, line);
    Stream(TypeAfterLine(stream.eventType, line), if sid != "" then sid else stream.sessionID, stream.phase)
  }

  ghost function Stale(s: State, timeout: int): set<string> {
    StaleKeys(s.reqs, s.now - timeout)
  }

  /** What an action takes out of the map, as which verdict, and who then holds it. */
  datatype Grab = Nothing | Entries(keys: set<string>, verdict: Verdict, owner: Owner)

  ghost function Grabs(cfg: Config, s: State, a: Action): Grab
    requires Enabled(cfg, s, a)
  {
    match a
    case Line(st, line) =>
      (match AnswerAt(cfg, s.streams[st], line)
       case None => Nothing
       case Some((id, verdict)) => Entries({CorrelationKey(s.streams[st].sessionID, id)}, verdict, ByStream(st)))
    case Conclude(p, reply) =>
      if Traced(cfg.filter, s.posts[p].req.rpc) && FailureOf(reply).Some?
      then Entries({ReqKey(s.posts[p].req)}, Failed(FailureOf(reply).value), ByPost(p))
      else Nothing
    case Drain(st) =>
      Entries(SessionKeys(s.reqs, s.streams[st].sessionID), Abandoned(s.streams[st].phase.clientGone), ByStream(st))
    case Tick =>
      Entries(Stale(s, cfg.timeout), TimedOut, ByEvictor)
    case _ => Nothing
  }

  /** Everything else an action does. */
  ghost function Moves(cfg: Config, s: State, a: Action): State
    requires Enabled(cfg, s, a)
  {
    match a
    case Arrive(p, req) =>
      s.(posts := s.posts[p := Post(req, Arrived, None)], sessions := Remembered(s.sessions, req))
    case OpenSpan(p) =>
      var req := s.posts[p].req;
      s.(posts := s.posts[p := s.posts[p].(phase := Opened)],
         started := s.started[p := StartOf(req, ClientOf(s.sessions, SessionOf(req)))])
    case TrackSpan(p) =>
      var req := s.posts[p].req;
      var key := ReqKey(req);
      s.(posts := s.posts[p := s.posts[p].(phase := Tracked)],
         reqs := s.reqs[key := PostEntry(p, req, s.now)],
         displaced := s.displaced + if key in s.reqs then [s.reqs[key]] else [])
    case Route(p) =>
      var req := s.posts[p].req;
      s.(posts := s.posts[p := Post(req, Routed, Some(Upstream(cfg, EndpointOf(s.sessions, SessionOf(req)), req)))])
    case Conclude(p, reply) =>
      s.(posts := s.posts[p := s.posts[p].(phase := Concluded)])
    case Connect(st) =>
      s.(streams := s.streams[st := Stream("", "", Reading)])
    case Line(st, line) =>
      var sid := RegisteredAt(cfg, s.streams[st], line);
      s.(streams := s.streams[st := StreamAfter(cfg, s.streams[st], line)],
         sessions := if sid == "" then s.sessions
                     else Registered(s.sessions, sid, CallAt(s.streams[st].eventType, line).value.data))
    case Hangup(st, clientGone) =>
      var stream := s.streams[st];
      if stream.sessionID == "" then s.(streams := s.streams[st := stream.(phase := Closed)])
      else
        s.(streams := s.streams[st := stream.(phase := Closing(clientGone))],
           sessions := s.sessions - {stream.sessionID})
    case Drain(st) =>
      s.(streams := s.streams[st := s.streams[st].(phase := Closed)])
    case Advance(d) =>
      s.(now := s.now + d)
    case Tick =>
      s.(lastTick := s.now)
    case Finish(h) =>
      s.(held := s.held - {h}, ended := s.ended + [End(h, s.now)])
  }

  ghost function Do(cfg: Config, s: State, a: Action): State
    requires Enabled(cfg, s, a)
  {
    match Grabs(cfg, s, a)
    case Nothing => Moves(cfg, s, a)
    case Entries(keys, verdict, owner) => TakeAll(Moves(cfg, s, a), keys, verdict, owner)
  }

  /** Taking entries touches the map and the hands that hold them, nothing else. */
  lemma DoMoves(cfg: Config, s: State, a: Action)
    requires Enabled(cfg, s, a)
    ensures var d, m := Do(cfg, s, a), Moves(cfg, s, a);
            d == m.(reqs := d.reqs, held := d.held)
  {
  }

  ghost function Step(cfg: Config, s: State, a: Action): State {
    if Enabled(cfg, s, a) then Do(cfg, s, a) else s
  }

  /** The state a run reaches from the start. */
  ghost function Run(cfg: Config, acts: seq<Action>): State {
    if acts == [] then INIT else Step(cfg, Run(cfg, acts[..|acts| - 1]), acts[|acts| - 1])
  }

  lemma RunSnoc(cfg: Config, acts: seq<Action>, a: Action)
    ensures Run(cfg, acts + [a]) == Step(cfg, Run(cfg, acts), a)
  {
    assert (acts + [a])[..|acts|] == acts;
  }
}
