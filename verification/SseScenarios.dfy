/** Short runs of the SSE proxy, each the input behind something its documentation says otherwise. */
module SseScenarios {
  import opened Text
  import opened RequestMaps
  import opened Rpc
  import opened Spans
  import opened SseProtocol

  /** A first POST, up to the choice of its upstream URL. */
  function Posted(req: PostReq): seq<Action> {
    [] + [Arrive(0, req)] + [OpenSpan(0)] + [TrackSpan(0)] + [Route(0)]
  }

  lemma AfterPosted(cfg: Config, req: PostReq)
    requires Traced(cfg.filter, req.rpc)
    ensures var s := Run(cfg, Posted(req));
            && s.now == 0 && s.held == {} && s.ended == [] && s.streams == map[]
            && s.reqs == map[ReqKey(req) := PostEntry(0, req, 0)]
            && 0 in s.posts && s.posts[0].req == req && s.posts[0].phase == Routed
  {
    RunSnoc(cfg, [], Arrive(0, req));
    RunSnoc(cfg, [] + [Arrive(0, req)], OpenSpan(0));
    RunSnoc(cfg, [] + [Arrive(0, req)] + [OpenSpan(0)], TrackSpan(0));
    RunSnoc(cfg, [] + [Arrive(0, req)] + [OpenSpan(0)] + [TrackSpan(0)], Route(0));
  }

  /** The thread that took the one entry ends its span. */
  lemma Ends(cfg: Config, acts: seq<Action>, h: Held)
    requires h in Run(cfg, acts).held && Run(cfg, acts).ended == []
    ensures var s, s' := Run(cfg, acts), Run(cfg, acts + [Finish(h)]);
            s'.ended == [End(h, s.now)] && s'.streams == s.streams
  {
    RunSnoc(cfg, acts, Finish(h));
  }

  /** A rejected POST ends its span as an error, though the server answered with none: for any traced request and
      any status from 400 up. */
  lemma RejectionIsAnError(cfg: Config, req: PostReq, code: nat)
    requires Traced(cfg.filter, req.rpc) && code >= 400
    ensures var h := Held(PostEntry(0, req, 0), Failed(RejectedMsg(code)), ByPost(0), 0);
            var s := Run(cfg, Posted(req) + [Conclude(0, Status(code))] + [Finish(h)]);
            s.ended == [End(h, 0)] && s.streams == map[]
  {
    var h := Held(PostEntry(0, req, 0), Failed(RejectedMsg(code)), ByPost(0), 0);
    var acts := Posted(req);
    AfterPosted(cfg, req);
    RunSnoc(cfg, acts, Conclude(0, Status(code)));
    var s := Run(cfg, acts);
    assert Grabs(cfg, s, Conclude(0, Status(code))) == Entries({ReqKey(req)}, Failed(RejectedMsg(code)), ByPost(0));
    assert h in Taken(s.reqs, {ReqKey(req)}, Failed(RejectedMsg(code)), ByPost(0), 0);
    Ends(cfg, acts + [Conclude(0, Status(code))], h);
  }

  /** A call can time out without a stream ever having been open: for any traced request, of a session or not. */
  lemma TimeoutWithoutStream(cfg: Config, req: PostReq)
    requires Traced(cfg.filter, req.rpc) && cfg.timeout >= 0
    ensures var late := cfg.timeout + 1;
            var h := Held(PostEntry(0, req, 0), TimedOut, ByEvictor, late);
            var s := Run(cfg, Posted(req) + [Advance(late)] + [Tick] + [Finish(h)]);
            s.ended == [End(h, late)] && s.streams == map[]
  {
    var late := cfg.timeout + 1;
    var acts := Posted(req) + [Advance(late)];
    AfterPosted(cfg, req);
    RunSnoc(cfg, Posted(req), Advance(late));
    Evicts(cfg, acts, ReqKey(req));
    Ends(cfg, acts + [Tick], Held(PostEntry(0, req, 0), TimedOut, ByEvictor, late));
  }

  lemma Evicts(cfg: Config, acts: seq<Action>, key: string)
    requires var s := Run(cfg, acts); s.held == {} && key in s.reqs && s.now - s.reqs[key].start > cfg.timeout
    ensures var s, s' := Run(cfg, acts), Run(cfg, acts + [Tick]);
            && Held(s.reqs[key], TimedOut, ByEvictor, s.now) in s'.held
            && s'.ended == s.ended && s'.streams == s.streams && s'.now == s.now
  {
    var s := Run(cfg, acts);
    RunSnoc(cfg, acts, Tick);
    assert key in Stale(s, cfg.timeout);
  }
}
