/** The in-flight request map (internal/proxy/request_map.go): one flat string-keyed map that has to behave
    like a map keyed by (session id, request id). */
module RequestMaps {
  import opened Text

  datatype InFlight = InFlight(span: nat, rpcMethod: string, toolName: string, requestID: string, sessionID: string,
                               start: int)

  function CorrelationKey(sessionID: string, id: string): string {
    if sessionID == "" then id else sessionID + [NUL] + id
  }

  type Pair = (string, string)
  type FlatMap = map<string, InFlight>
  type PairMap = map<Pair, InFlight>

  function KeyOf(p: Pair): string { CorrelationKey(p.0, p.1) }

  /** The hypothesis under which the key says which session it belongs to. */
  predicate Plain(p: Pair) {
    NUL !in p.0 && (p.0 == "" ==> NUL !in p.1)
  }

  /** Reads a key back: everything before the first NUL is the session. */
  function Unkey(key: string): Pair {
    var i := IndexOf(key, NUL);
    if i == |key| then ("", key) else (key[..i], key[i + 1..])
  }

  lemma UnkeyOfKey(p: Pair)
    requires Plain(p)
    ensures Unkey(KeyOf(p)) == p
  {
    var key := KeyOf(p);
    var i := IndexOf(key, NUL);
    if p.0 == "" {
      assert forall k :: 0 <= k < |key| ==> key[k] in p.1;
      IndexOfUnique(key, NUL, |key|);
    } else {
      assert key[|p.0|] == NUL;
      assert forall k :: 0 <= k < |p.0| ==> key[k] == p.0[k] && key[k] in p.0;
      IndexOfUnique(key, NUL, |p.0|);
      assert key[..i] == p.0 && key[i + 1..] == p.1;
    }
  }

  /** Every pair a key can come from, with no hypothesis: the whole key as a sessionless id, or the key cut at
      any of its NULs but a leading one. */
  lemma KeySplits(p: Pair, key: string)
    ensures KeyOf(p) == key <==>
            (p == ("", key) || (0 < |p.0| < |key| && key[|p.0|] == NUL && p == (key[..|p.0|], key[|p.0| + 1..])))
  {
    var n := |p.0|;
    assert 0 < n < |key| && key[n] == NUL ==> key == key[..n] + [NUL] + key[n + 1..];
    if n > 0 && KeyOf(p) == key {
      assert key[..n] == p.0 && key[n + 1..] == p.1;
    }
  }

  /** What the hypothesis buys: a pair is the only reading of its key among plain pairs just when it is plain
      itself, unless its key starts with a NUL, which no plain pair can produce. */
  lemma PlainIsExact(p: Pair)
    ensures (forall q: Pair :: Plain(q) && KeyOf(q) == KeyOf(p) ==> q == p)
            <==> (Plain(p) || HasPrefix(KeyOf(p), [NUL]))
  {
    var key := KeyOf(p);
    forall q: Pair | Plain(q) && KeyOf(q) == key ensures q == Unkey(key) && !HasPrefix(key, [NUL]) {
      UnkeyOfKey(q);
    }
    if Plain(p) {
      UnkeyOfKey(p);
    } else if !HasPrefix(key, [NUL]) {
      IndexOfFirst(key, NUL);
      assert Plain(Unkey(key)) && KeyOf(Unkey(key)) == key;
    }
  }

  // ---------- What each operation does, on either kind of key ----------

  datatype Op<K> =
    | Store(key: K, entry: InFlight)
    | Take(key: K)
    | TakeSession(sessionID: string)
    | EvictStale(cutoff: int)

  datatype Outcome = Stored | Took(entry: Option<InFlight>) | Drained(entries: multiset<InFlight>)

  /** The values held under `keys`, one for each key. */
  ghost function ValuesAt<K>(m: map<K, InFlight>, keys: set<K>): multiset<InFlight>
    requires keys <= m.Keys
  {
    if keys == {} then multiset{}
    else
      var k :| k in keys;
      multiset{m[k]} + ValuesAt(m, keys - {k})
  }

  lemma {:induction false} ValuesAtPick<K>(m: map<K, InFlight>, keys: set<K>, k: K)
    requires k in keys && keys <= m.Keys
    ensures ValuesAt(m, keys) == multiset{m[k]} + ValuesAt(m, keys - {k})
    decreases keys
  {
    var j :| j in keys && ValuesAt(m, keys) == multiset{m[j]} + ValuesAt(m, keys - {j});
    if j != k {
      ValuesAtPick(m, keys - {j}, k);
      ValuesAtPick(m, keys - {k}, j);
      assert keys - {j} - {k} == keys - {k} - {j};
    }
  }

  /** Taking the entries under `keys` out of the map. */
  ghost function Drain<K>(m: map<K, InFlight>, keys: set<K>): (map<K, InFlight>, Outcome)
    requires keys <= m.Keys
  {
    (m - keys, Drained(ValuesAt(m, keys)))
  }

  ghost function StaleKeys<K>(m: map<K, InFlight>, cutoff: int): set<K> {
    set k | k in m && m[k].start < cutoff
  }

  /** An operation, where `mine` are the keys its session owns. */
  ghost function Apply<K>(m: map<K, InFlight>, op: Op<K>, mine: set<K>): (map<K, InFlight>, Outcome)
    requires mine <= m.Keys
  {
    match op
    case Store(key, entry) => (m[key := entry], Stored)
    case Take(key) => (m - {key}, Took(if key in m then Some(m[key]) else None))
    case TakeSession(_) => Drain(m, mine)
    case EvictStale(cutoff) => Drain(m, StaleKeys(m, cutoff))
  }

  /** The flat map's notion of ownership: the key starts with the session id and a NUL. */
  predicate KeyHasSession(sessionID: string, key: string) {
    sessionID != "" && HasPrefix(key, sessionID + [NUL])
  }

  /** The intended notion. */
  predicate PairHasSession(sessionID: string, p: Pair) {
    sessionID != "" && p.0 == sessionID
  }

  ghost function SessionKeys(m: FlatMap, sessionID: string): set<string> {
    set k | k in m && KeyHasSession(sessionID, k)
  }

  ghost function FlatApply(m: FlatMap, op: Op<string>): (FlatMap, Outcome) {
    Apply(m, op, if op.TakeSession? then SessionKeys(m, op.sessionID) else {})
  }

  ghost function PairApply(m: PairMap, op: Op<Pair>): (PairMap, Outcome) {
    Apply(m, op, if op.TakeSession? then set p | p in m && PairHasSession(op.sessionID, p) else {})
  }

  /** The prefix scan selects a plain pair's key exactly when the pair belongs to the session. */
  lemma OwnershipAgrees(sessionID: string, p: Pair)
    requires Plain(p) && NUL !in sessionID
    ensures KeyHasSession(sessionID, KeyOf(p)) == PairHasSession(sessionID, p)
  {
    var key := KeyOf(p);
    var n := |sessionID|;
    if KeyHasSession(sessionID, key) {
      assert key[n] == (sessionID + [NUL])[n] == NUL;
      assert key == sessionID + [NUL] + key[n + 1..];
      UnkeyOfKey(p);
      UnkeyOfKey((sessionID, key[n + 1..]));
    }
  }

  // ---------- Refinement ----------

  /** Which pairs calls are stored and taken under, and which sessions are drained. */
  datatype Usage = Usage(pairs: iset<Pair>, sessions: iset<string>)

  /** What the joined keys have to tell apart: the pairs in use from each other, and those of a drained session
      from the rest. */
  ghost predicate Separates(u: Usage) {
    && (forall p, q :: p in u.pairs && q in u.pairs && KeyOf(p) == KeyOf(q) ==> p == q)
    && (forall sessionID, p :: sessionID in u.sessions && p in u.pairs ==>
          KeyHasSession(sessionID, KeyOf(p)) == PairHasSession(sessionID, p))
  }

  ghost predicate InUse(u: Usage, op: Op<Pair>) {
    match op
    case Store(p, _) => p in u.pairs
    case Take(p) => p in u.pairs
    case TakeSession(sessionID) => sessionID in u.sessions
    case EvictStale(_) => true
  }

  ghost predicate AllInUse(u: Usage, ops: seq<Op<Pair>>) {
    forall i :: 0 <= i < |ops| ==> InUse(u, ops[i])
  }

  /** `flat` is `pairs` under the joined keys. */
  ghost predicate Represents(u: Usage, flat: FlatMap, pairs: PairMap) {
    && (forall p :: p in pairs ==> p in u.pairs && KeyOf(p) in flat && flat[KeyOf(p)] == pairs[p])
    && (forall k :: k in flat ==> exists p :: p in pairs && KeyOf(p) == k)
  }

  function FlatOp(op: Op<Pair>): Op<string> {
    match op
    case Store(p, entry) => Store(KeyOf(p), entry)
    case Take(p) => Take(KeyOf(p))
    case TakeSession(sessionID) => TakeSession(sessionID)
    case EvictStale(cutoff) => EvictStale(cutoff)
  }

  lemma {:induction false} SameValues(u: Usage, flat: FlatMap, pairs: PairMap, keys: set<string>, ps: set<Pair>)
    requires Separates(u) && Represents(u, flat, pairs) && keys <= flat.Keys && ps <= pairs.Keys
    requires forall p :: p in pairs ==> (p in ps <==> KeyOf(p) in keys)
    ensures ValuesAt(flat, keys) == ValuesAt(pairs, ps)
    decreases ps
  {
    if ps == {} {
      forall k | k in flat ensures k !in keys {
        var p :| p in pairs && KeyOf(p) == k;
      }
    } else {
      var p :| p in ps;
      ValuesAtPick(pairs, ps, p);
      ValuesAtPick(flat, keys, KeyOf(p));
      SameValues(u, flat, pairs, keys - {KeyOf(p)}, ps - {p});
    }
  }

  lemma DrainRefines(u: Usage, flat: FlatMap, pairs: PairMap, keys: set<string>, ps: set<Pair>)
    requires Separates(u) && Represents(u, flat, pairs) && keys <= flat.Keys && ps <= pairs.Keys
    requires forall p :: p in pairs ==> (p in ps <==> KeyOf(p) in keys)
    ensures Represents(u, flat - keys, pairs - ps)
    ensures Drain(flat, keys).1 == Drain(pairs, ps).1
  {
    SameValues(u, flat, pairs, keys, ps);
    forall k | k in flat - keys ensures exists p :: p in pairs - ps && KeyOf(p) == k {
      var p :| p in pairs && KeyOf(p) == k;
      assert p in pairs - ps;
    }
  }

  lemma StoreRefines(u: Usage, flat: FlatMap, pairs: PairMap, p: Pair, entry: InFlight)
    requires Separates(u) && Represents(u, flat, pairs) && p in u.pairs
    ensures Represents(u, flat[KeyOf(p) := entry], pairs[p := entry])
  {
    var flat', pairs' := flat[KeyOf(p) := entry], pairs[p := entry];
    assert p in pairs';
    forall k | k in flat' ensures exists q :: q in pairs' && KeyOf(q) == k {
      if k != KeyOf(p) {
        var q :| q in pairs && KeyOf(q) == k;
        assert q in pairs';
      }
    }
  }

  lemma TakeRefines(u: Usage, flat: FlatMap, pairs: PairMap, p: Pair)
    requires Separates(u) && Represents(u, flat, pairs) && p in u.pairs
    ensures Represents(u, flat - {KeyOf(p)}, pairs - {p})
    ensures KeyOf(p) in flat <==> p in pairs
    ensures p in pairs ==> flat[KeyOf(p)] == pairs[p]
  {
    var flat', pairs' := flat - {KeyOf(p)}, pairs - {p};
    forall k | k in flat' ensures exists q :: q in pairs' && KeyOf(q) == k {
      var q :| q in pairs && KeyOf(q) == k;
      assert q in pairs';
    }
  }

  lemma TakeSessionRefines(u: Usage, flat: FlatMap, pairs: PairMap, sessionID: string)
    requires Separates(u) && Represents(u, flat, pairs) && sessionID in u.sessions
    ensures var keys, ps := SessionKeys(flat, sessionID), set p | p in pairs && PairHasSession(sessionID, p);
            Represents(u, flat - keys, pairs - ps) && Drain(flat, keys).1 == Drain(pairs, ps).1
  {
    DrainRefines(u, flat, pairs, SessionKeys(flat, sessionID), set p | p in pairs && PairHasSession(sessionID, p));
  }

  lemma EvictStaleRefines(u: Usage, flat: FlatMap, pairs: PairMap, cutoff: int)
    requires Separates(u) && Represents(u, flat, pairs)
    ensures var keys, ps := StaleKeys(flat, cutoff), StaleKeys(pairs, cutoff);
            Represents(u, flat - keys, pairs - ps) && Drain(flat, keys).1 == Drain(pairs, ps).1
  {
    DrainRefines(u, flat, pairs, StaleKeys(flat, cutoff), StaleKeys(pairs, cutoff));
  }

  lemma StepRefines(u: Usage, flat: FlatMap, pairs: PairMap, op: Op<Pair>)
    requires Separates(u) && Represents(u, flat, pairs) && InUse(u, op)
    ensures Represents(u, FlatApply(flat, FlatOp(op)).0, PairApply(pairs, op).0)
    ensures FlatApply(flat, FlatOp(op)).1 == PairApply(pairs, op).1
  {
    match op
    case Store(p, entry) => StoreRefines(u, flat, pairs, p, entry);
    case Take(p) => TakeRefines(u, flat, pairs, p);
    case TakeSession(sessionID) => TakeSessionRefines(u, flat, pairs, sessionID);
    case EvictStale(cutoff) => EvictStaleRefines(u, flat, pairs, cutoff);
  }

  ghost function FlatRun(m: FlatMap, ops: seq<Op<Pair>>): seq<Outcome>
    decreases |ops|
  {
    if ops == [] then []
    else
      var (m', out) := FlatApply(m, FlatOp(ops[0]));
      [out] + FlatRun(m', ops[1..])
  }

  ghost function PairRun(m: PairMap, ops: seq<Op<Pair>>): seq<Outcome>
    decreases |ops|
  {
    if ops == [] then []
    else
      var (m', out) := PairApply(m, ops[0]);
      [out] + PairRun(m', ops[1..])
  }

  /** The operations give the same answers on the flat map as on the pair map, both empty at the start. */
  ghost predicate SameAnswers(ops: seq<Op<Pair>>) {
    FlatRun(map[], ops) == PairRun(map[], ops)
  }

  lemma {:induction false} RunRefines(u: Usage, flat: FlatMap, pairs: PairMap, ops: seq<Op<Pair>>)
    requires Separates(u) && Represents(u, flat, pairs) && AllInUse(u, ops)
    ensures FlatRun(flat, ops) == PairRun(pairs, ops)
    decreases |ops|
  {
    if ops != [] {
      assert InUse(u, ops[0]) && AllInUse(u, ops[1..]);
      StepRefines(u, flat, pairs, ops[0]);
      RunRefines(u, FlatApply(flat, FlatOp(ops[0])).0, PairApply(pairs, ops[0]).0, ops[1..]);
    }
  }

  lemma FlatRunCons(m: FlatMap, op: Op<Pair>, rest: seq<Op<Pair>>)
    ensures var (m', out) := FlatApply(m, FlatOp(op));
            FlatRun(m, [op] + rest) == [out] + FlatRun(m', rest)
  {
    assert ([op] + rest)[1..] == rest;
  }

  lemma PairRunCons(m: PairMap, op: Op<Pair>, rest: seq<Op<Pair>>)
    ensures var (m', out) := PairApply(m, op);
            PairRun(m, [op] + rest) == [out] + PairRun(m', rest)
  {
    assert ([op] + rest)[1..] == rest;
  }

  /** Two runs of two operations differ when the second answers do. */
  lemma SecondAnswers(first: Op<Pair>, second: Op<Pair>)
    requires var flat, pairs := FlatApply(map[], FlatOp(first)).0, PairApply(map[], first).0;
             FlatApply(flat, FlatOp(second)).1 != PairApply(pairs, second).1
    ensures !SameAnswers([first, second])
  {
    var flat, pairs := FlatApply(map[], FlatOp(first)).0, PairApply(map[], first).0;
    assert [first, second] == [first] + [second] && [second] == [second] + [];
    FlatRunCons(map[], first, [second]);
    FlatRunCons(flat, second, []);
    PairRunCons(map[], first, [second]);
    PairRunCons(pairs, second, []);
    assert FlatRun(map[], [first, second])[1] == FlatApply(flat, FlatOp(second)).1;
    assert PairRun(map[], [first, second])[1] == PairApply(pairs, second).1;
  }

  /** A call stored under one pair is found under any other that shares its key. */
  lemma SharedKeyDisagrees(p: Pair, q: Pair, entry: InFlight)
    requires KeyOf(p) == KeyOf(q) && p != q
    ensures !SameAnswers([Store(p, entry), Take(q)])
  {
    SecondAnswers(Store(p, entry), Take(q));
  }

  /** A session's own pairs are always selected; only the others can be mistaken. */
  lemma OwnKeysSelected(sessionID: string, p: Pair)
    ensures PairHasSession(sessionID, p) ==> KeyHasSession(sessionID, KeyOf(p))
  {
  }

  /** A call of another session that the prefix scan selects is drained against the intention. */
  lemma WrongSessionDisagrees(sessionID: string, p: Pair, entry: InFlight)
    requires KeyHasSession(sessionID, KeyOf(p)) != PairHasSession(sessionID, p)
    ensures !SameAnswers([Store(p, entry), TakeSession(sessionID)])
  {
    OwnKeysSelected(sessionID, p);
    var flat: FlatMap := map[][KeyOf(p) := entry];
    var pairs: PairMap := map[][p := entry];
    var keys, ps := SessionKeys(flat, sessionID), set q | q in pairs && PairHasSession(sessionID, q);
    ValuesAtPick(flat, keys, KeyOf(p));
    assert entry in ValuesAt(flat, keys) && ps == {};
    assert FlatApply(flat, TakeSession(sessionID)).1 == Drained(ValuesAt(flat, keys));
    assert PairApply(pairs, TakeSession(sessionID)).1 == Drained(ValuesAt(pairs, ps));
    SecondAnswers(Store(p, entry), TakeSession(sessionID));
  }

  /** When the flat map behaves like the pair map: for any pairs and sessions in use, every sequence of operations
      on them gives the same answers if and only if the joined keys tell the pairs apart and each drained session's
      prefix selects that session's pairs. */
  lemma {:induction false} FlatMapRefinesExactly(u: Usage, entry: InFlight)
    ensures (forall ops :: AllInUse(u, ops) ==> SameAnswers(ops)) <==> Separates(u)
  {
    if Separates(u) {
      forall ops | AllInUse(u, ops) ensures SameAnswers(ops) {
        RunRefines(u, map[], map[], ops);
      }
    } else if p, q :| p in u.pairs && q in u.pairs && KeyOf(p) == KeyOf(q) && p != q {
      SharedKeyDisagrees(p, q, entry);
      assert AllInUse(u, [Store(p, entry), Take(q)]);
    } else {
      var sessionID, p :| sessionID in u.sessions && p in u.pairs
                          && KeyHasSession(sessionID, KeyOf(p)) != PairHasSession(sessionID, p);
      WrongSessionDisagrees(sessionID, p, entry);
      assert AllInUse(u, [Store(p, entry), TakeSession(sessionID)]);
    }
  }

  // ---------- NUL-free ids ----------

  /** Sessions free of NUL, all plain pairs, and `p`. */
  ghost function PlainAnd(p: Pair): Usage {
    Usage(iset q: Pair | Plain(q) || q == p, iset sessionID: string | NUL !in sessionID)
  }

  /** The prefix scan leaves a pair whose key starts with a NUL alone, whichever session is drained. */
  lemma LeadingNulIsNobodys(sessionID: string, p: Pair)
    requires NUL !in sessionID && HasPrefix(KeyOf(p), [NUL])
    ensures !KeyHasSession(sessionID, KeyOf(p)) && !PairHasSession(sessionID, p)
  {
    var key, prefix := KeyOf(p), sessionID + [NUL];
    assert key[0] == NUL && (sessionID != "" ==> prefix[0] == sessionID[0]);
    assert |prefix| <= |key| ==> key[..|prefix|][0] == key[0];
  }

  lemma PlainAndSeparates(p: Pair)
    ensures Separates(PlainAnd(p)) <==> Plain(p) || HasPrefix(KeyOf(p), [NUL])
  {
    var u := PlainAnd(p);
    PlainIsExact(p);
    if Plain(p) || HasPrefix(KeyOf(p), [NUL]) {
      forall q, r | q in u.pairs && r in u.pairs && KeyOf(q) == KeyOf(r) ensures q == r {
        if Plain(q) && Plain(r) {
          UnkeyOfKey(q);
          UnkeyOfKey(r);
        }
      }
      forall sessionID, q | sessionID in u.sessions && q in u.pairs
        ensures KeyHasSession(sessionID, KeyOf(q)) == PairHasSession(sessionID, q)
      {
        if Plain(q) {
          OwnershipAgrees(sessionID, q);
        } else {
          LeadingNulIsNobodys(sessionID, q);
        }
      }
    } else {
      var q: Pair :| Plain(q) && KeyOf(q) == KeyOf(p) && q != p;
      assert q in u.pairs && p in u.pairs;
    }
  }

  /** How far the NUL-free hypothesis can be dropped: with one more pair beside the plain ones, every sequence of
      operations still gives the answers of the pair map if and only if that pair is plain too, or its key starts
      with a NUL. */
  lemma {:induction false} OnePairMoreExactly(p: Pair, entry: InFlight)
    ensures (forall ops :: AllInUse(PlainAnd(p), ops) ==> SameAnswers(ops)) <==> Plain(p) || HasPrefix(KeyOf(p), [NUL])
  {
    FlatMapRefinesExactly(PlainAnd(p), entry);
    PlainAndSeparates(p);
  }

  predicate PlainOp(op: Op<Pair>) {
    match op
    case Store(p, _) => Plain(p)
    case Take(p) => Plain(p)
    case TakeSession(sessionID) => NUL !in sessionID
    case EvictStale(_) => true
  }

  /** In particular every sequence of operations on plain pairs gives the answers of the pair map. */
  lemma {:induction false} FlatMapRefinesPairMap(ops: seq<Op<Pair>>)
    requires forall i :: 0 <= i < |ops| ==> PlainOp(ops[i])
    ensures SameAnswers(ops)
  {
    var p: Pair := ("", "");
    PlainAndSeparates(p);
    RunRefines(PlainAnd(p), map[], map[], ops);
  }

  /** Closing session "a" also drains a call of "a NUL b". */
  lemma PrefixScanCrossesNul(id: string, entry: InFlight)
    ensures var p: Pair := ("a" + [NUL] + "b", id);
            !SameAnswers([Store(p, entry), TakeSession("a")])
  {
    var p: Pair := ("a" + [NUL] + "b", id);
    assert KeyOf(p)[..2] == "a" + [NUL] && |p.0| == 3;
    WrongSessionDisagrees("a", p, entry);
  }

  // ---------- The map itself ----------

  /** The entries under `taken` have moved from the map to the result. */
  ghost predicate Moved(was: FlatMap, taken: set<string>, reqs: FlatMap, out: seq<InFlight>) {
    taken <= was.Keys && reqs == was - taken && multiset(out) == ValuesAt(was, taken)
  }

  lemma MoveOne(was: FlatMap, taken: set<string>, reqs: FlatMap, out: seq<InFlight>, key: string)
    requires Moved(was, taken, reqs, out) && key in was && key !in taken
    ensures key in reqs && reqs[key] == was[key]
    ensures Moved(was, taken + {key}, reqs - {key}, out + [was[key]])
  {
    ValuesAtPick(was, taken + {key}, key);
    assert taken + {key} - {key} == taken;
    assert was - taken - {key} == was - (taken + {key});
  }

  class RequestMap {
    var reqs: FlatMap

    constructor ()
      ensures reqs == map[]
    {
      reqs := map[];
    }

    method Store(sessionID: string, id: string, r: InFlight)
      modifies this
      ensures reqs == old(reqs)[CorrelationKey(sessionID, id) := r]
    {
      reqs := reqs[CorrelationKey(sessionID, id) := r];
    }

    method Take(sessionID: string, id: string) returns (r: Option<InFlight>)
      modifies this
      ensures (reqs, Took(r)) == FlatApply(old(reqs), Op.Take(CorrelationKey(sessionID, id)))
    {
      var key := CorrelationKey(sessionID, id);
      if key !in reqs {
        assert reqs - {key} == reqs;
        return None;
      }
      r := Some(reqs[key]);
      reqs := reqs - {key};
    }

    /** The keys are visited in any order. */
    method TakeSession(sessionID: string) returns (out: seq<InFlight>)
      modifies this
      ensures (reqs, Drained(multiset(out))) == FlatApply(old(reqs), Op.TakeSession(sessionID))
    {
      out := [];
      if sessionID == "" {
        assert reqs - {} == reqs;
        return;
      }
      var prefix := sessionID + [NUL];
      var todo := reqs.Keys;
      ghost var was, taken := reqs, {};
      while todo != {}
        invariant todo <= was.Keys && taken == SessionKeys(was, sessionID) - todo
        invariant Moved(was, taken, reqs, out)
        decreases todo
      {
        var key :| key in todo;
        todo := todo - {key};
        MoveOne(was, taken, reqs, out, key);
        if HasPrefix(key, prefix) {
          taken := taken + {key};
          out := out + [reqs[key]];
          reqs := reqs - {key};
        }
      }
      assert taken == SessionKeys(was, sessionID);
    }

    /** Removes what started before `cutoff`, which the caller computes as the current time less the timeout. */
    method EvictStale(cutoff: int) returns (out: seq<InFlight>)
      modifies this
      ensures (reqs, Drained(multiset(out))) == FlatApply(old(reqs), Op.EvictStale(cutoff))
    {
      out := [];
      var todo := reqs.Keys;
      ghost var was, taken := reqs, {};
      ghost var stale := StaleKeys(was, cutoff);
      while todo != {}
        invariant todo <= was.Keys && taken == stale - todo
        invariant Moved(was, taken, reqs, out)
        decreases todo
      {
        var key :| key in todo;
        todo := todo - {key};
        MoveOne(was, taken, reqs, out, key);
        if reqs[key].start < cutoff {
          taken := taken + {key};
          out := out + [reqs[key]];
          reqs := reqs - {key};
        }
      }
      assert taken == stale;
    }
  }
}
