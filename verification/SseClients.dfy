/** Client identity, and what a stream's state says about its own lines. */
module SseClients {
  import opened SseReader
  import opened SseProtocol

  // ---------- Streams ----------

  /** The line an action feeds to a stream, if it does. */
  ghost function Fed(cfg: Config, s: State, a: Action, st: nat): seq<string> {
    if a.Line? && a.st == st && Enabled(cfg, s, a) then [a.line] else []
  }

  /** The lines a run fed to a stream. */
  ghost function LinesOf(cfg: Config, acts: seq<Action>, st: nat): seq<string>
    decreases |acts|
  {
    if acts == [] then []
    else
      var before := acts[..|acts| - 1];
      LinesOf(cfg, before, st) + Fed(cfg, Run(cfg, before), acts[|acts| - 1], st)
  }

  lemma {:induction false} CallsSnoc(eventType: string, lines: seq<string>, line: string)
    ensures Calls(eventType, lines + [line])
         == Calls(eventType, lines) + CallsAt(TypeFrom(eventType, lines), line)
    decreases |lines|
  {
    if lines == [] {
      assert [line][1..] == [];
    } else {
      var type' := TypeAfterLine(eventType, lines[0]);
      assert (lines + [line])[1..] == lines[1..] + [line];
      CallsSnoc(type', lines[1..], line);
      var first, last := CallsAt(eventType, lines[0]), CallsAt(TypeFrom(eventType, lines), line);
      assert first + (Calls(type', lines[1..]) + last) == first + Calls(type', lines[1..]) + last;
    }
  }

  /** The event type after the lines, starting from any. */
  function TypeFrom(eventType: string, lines: seq<string>): string
    decreases |lines|
  {
    if lines == [] then eventType else TypeFrom(TypeAfterLine(eventType, lines[0]), lines[1..])
  }

  lemma {:induction false} TypeFromSnoc(eventType: string, lines: seq<string>, line: string)
    ensures TypeFrom(eventType, lines + [line]) == TypeAfterLine(TypeFrom(eventType, lines), line)
    decreases |lines|
  {
    if lines == [] {
      assert [line][1..] == [];
    } else {
      assert (lines + [line])[1..] == lines[1..] + [line];
      TypeFromSnoc(TypeAfterLine(eventType, lines[0]), lines[1..], line);
    }
  }

  lemma {:induction false} TypeFromStart(lines: seq<string>)
    ensures TypeFrom("", lines) == TypeAfter(lines)
    decreases |lines|
  {
    if lines != [] {
      var n := |lines| - 1;
      assert lines[..n] + [lines[n]] == lines;
      TypeFromSnoc("", lines[..n], lines[n]);
      TypeFromStart(lines[..n]);
    }
  }

  /** Whatever the other threads do, a stream's event type and session are those of its own lines alone. */
  ghost predicate StreamFollowsLines(cfg: Config, stream: Stream, lines: seq<string>) {
    && stream.eventType == TypeAfter(lines)
    && stream.sessionID == SessionAfter(raw => SessionIDOf(cfg, raw), Calls("", lines))
  }

  lemma LineFollowed(cfg: Config, stream: Stream, lines: seq<string>, line: string)
    requires StreamFollowsLines(cfg, stream, lines)
    ensures StreamFollowsLines(cfg, StreamAfter(cfg, stream, line), lines + [line])
  {
    var now := lines + [line];
    var of := raw => SessionIDOf(cfg, raw);
    assert now[..|now| - 1] == lines;
    CallsSnoc("", lines, line);
    TypeFromStart(lines);
    match CallAt(stream.eventType, line)
    case None =>
      assert Calls("", now) == Calls("", lines);
    case Some(c) =>
      var calls := Calls("", now);
      assert calls[..|calls| - 1] == Calls("", lines) && calls[|calls| - 1] == c;
  }

  lemma OtherActionsLeaveStream(cfg: Config, s: State, a: Action, st: nat)
    requires Enabled(cfg, s, a) && !(a.Line? && a.st == st)
    ensures var s' := Moves(cfg, s, a);
            if st in s.streams
            then st in s'.streams && s'.streams[st].eventType == s.streams[st].eventType
                 && s'.streams[st].sessionID == s.streams[st].sessionID
            else st in s'.streams ==> s'.streams[st] == Stream("", "", Reading)
  {
  }

  ghost predicate Follows(cfg: Config, s: State, st: nat, lines: seq<string>) {
    if st in s.streams then StreamFollowsLines(cfg, s.streams[st], lines) else lines == []
  }

  lemma FollowsStep(cfg: Config, s: State, a: Action, st: nat, lines: seq<string>)
    requires Follows(cfg, s, st, lines)
    ensures Follows(cfg, Step(cfg, s, a), st, lines + Fed(cfg, s, a, st))
  {
    assert lines + [] == lines;
    if Enabled(cfg, s, a) {
      DoMoves(cfg, s, a);
      if a.Line? && a.st == st {
        LineFollowed(cfg, s.streams[st], lines, a.line);
      } else {
        OtherActionsLeaveStream(cfg, s, a, st);
      }
    }
  }

  lemma {:induction false} StreamsFollowTheirLines(cfg: Config, acts: seq<Action>, st: nat)
    ensures Follows(cfg, Run(cfg, acts), st, LinesOf(cfg, acts, st))
    decreases |acts|
  {
    if acts != [] {
      var n := |acts| - 1;
      StreamsFollowTheirLines(cfg, acts[..n], st);
      FollowsStep(cfg, Run(cfg, acts[..n]), acts[n], st, LinesOf(cfg, acts[..n], st));
    }
  }

  // ---------- Clients ----------

  /** The client of a session as the history tells it: the latest initialize with a name on that session,
      unless the stream of that session has ended since. */
  ghost function LatestClient(cfg: Config, acts: seq<Action>, sid: string): (string, string)
    decreases |acts|
  {
    if acts == [] then ("", "")
    else
      var n := |acts| - 1;
      var s, a := Run(cfg, acts[..n]), acts[n];
      if !Enabled(cfg, s, a) then LatestClient(cfg, acts[..n], sid)
      else if a.Arrive? && Announces(a.req, sid) then (a.req.rpc.value.clientName, a.req.rpc.value.clientVer)
      else if a.Hangup? && s.streams[a.st].sessionID == sid then ("", "")
      else LatestClient(cfg, acts[..n], sid)
  }

  lemma ClientStep(cfg: Config, s: State, a: Action, sid: string)
    requires sid != "" && Enabled(cfg, s, a)
    ensures ClientOf(Moves(cfg, s, a).sessions, sid)
         == if a.Arrive? && Announces(a.req, sid) then (a.req.rpc.value.clientName, a.req.rpc.value.clientVer)
            else if a.Hangup? && s.streams[a.st].sessionID == sid then ("", "")
            else ClientOf(s.sessions, sid)
  {
  }

  lemma {:induction false} SessionTableHasLatestClient(cfg: Config, acts: seq<Action>, sid: string)
    requires sid != ""
    ensures ClientOf(Run(cfg, acts).sessions, sid) == LatestClient(cfg, acts, sid)
    decreases |acts|
  {
    if acts != [] {
      var n := |acts| - 1;
      var s, a := Run(cfg, acts[..n]), acts[n];
      SessionTableHasLatestClient(cfg, acts[..n], sid);
      if Enabled(cfg, s, a) {
        ClientStep(cfg, s, a, sid);
        DoMoves(cfg, s, a);
      }
    }
  }

  /** The span started with the client of its own session at the moment it was opened. */
  ghost predicate ClientIsLatest(cfg: Config, acts: seq<Action>, p: nat, start: Start) {
    exists n :: 0 <= n < |acts| && acts[n] == OpenSpan(p) && Enabled(cfg, Run(cfg, acts[..n]), acts[n])
      && (start.clientName, start.clientVer)
         == if start.sessionID == "" then ("", "") else LatestClient(cfg, acts[..n], start.sessionID)
  }

  lemma OpenedWithLatest(cfg: Config, acts: seq<Action>)
    requires acts != []
    requires var n := |acts| - 1; acts[n].OpenSpan? && Enabled(cfg, Run(cfg, acts[..n]), acts[n])
    ensures var p := acts[|acts| - 1].p;
            p in Run(cfg, acts).started && ClientIsLatest(cfg, acts, p, Run(cfg, acts).started[p])
  {
    var n := |acts| - 1;
    var s, p := Run(cfg, acts[..n]), acts[n].p;
    var sid := SessionOf(s.posts[p].req);
    if sid != "" {
      SessionTableHasLatestClient(cfg, acts[..n], sid);
    }
    assert Run(cfg, acts).started[p] == StartOf(s.posts[p].req, ClientOf(s.sessions, sid));
  }

  /** For any history over any number of sessions, every span carries exactly its own session's client. */
  lemma {:induction false} SpansCarryTheirClient(cfg: Config, acts: seq<Action>, p: nat)
    requires p in Run(cfg, acts).started
    ensures ClientIsLatest(cfg, acts, p, Run(cfg, acts).started[p])
    decreases |acts|
  {
    if acts != [] {
      var m := |acts| - 1;
      var s, a := Run(cfg, acts[..m]), acts[m];
      if a == OpenSpan(p) && Enabled(cfg, s, a) {
        OpenedWithLatest(cfg, acts);
      } else {
        StartedStays(cfg, s, a, p);
        SpansCarryTheirClient(cfg, acts[..m], p);
        var start := s.started[p];
        var n :| 0 <= n < m && acts[..m][n] == OpenSpan(p) && Enabled(cfg, Run(cfg, acts[..m][..n]), acts[..m][n])
                 && (start.clientName, start.clientVer)
                    == if start.sessionID == "" then ("", "") else LatestClient(cfg, acts[..m][..n], start.sessionID);
        assert acts[..m][..n] == acts[..n] && acts[n] == OpenSpan(p);
      }
    }
  }

  lemma StartedStays(cfg: Config, s: State, a: Action, p: nat)
    requires p in Step(cfg, s, a).started && !(a == OpenSpan(p) && Enabled(cfg, s, a))
    ensures p in s.started && Step(cfg, s, a).started[p] == s.started[p]
  {
    if Enabled(cfg, s, a) {
      DoMoves(cfg, s, a);
    }
  }
}
