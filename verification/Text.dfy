/** Byte strings, one `char` per byte, with the few operations of Go's `strings` package the proxy uses. */
module Text {

  datatype Option<+T> = None | Some(value: T)

  const NUL := '\0'
  const LF := '\n'
  const CR := '\r'

  predicate HasPrefix(s: string, prefix: string) {
    |prefix| <= |s| && s[..|prefix|] == prefix
  }

  function TrimPrefix(s: string, prefix: string): string {
    if HasPrefix(s, prefix) then s[|prefix|..] else s
  }

  predicate IsSpace(c: char) {
    c == ' ' || c == '\t' || c == '\n' || c == '\U{0B}' || c == '\U{0C}' || c == '\r'
  }

  function TrimLeft(s: string): string {
    if s != "" && IsSpace(s[0]) then TrimLeft(s[1..]) else s
  }

  function TrimRight(s: string): string {
    if s != "" && IsSpace(s[|s| - 1]) then TrimRight(s[..|s| - 1]) else s
  }

  function TrimSpace(s: string): string {
    TrimRight(TrimLeft(s))
  }

  /** Index of the first `c`, or `|s|` when there is none. */
  function IndexOf(s: string, c: char): (i: nat)
    ensures i <= |s|
    ensures i < |s| ==> s[i] == c
  {
    IndexFrom(s, c, 0)
  }

  function IndexFrom(s: string, c: char, k: nat): (i: nat)
    requires k <= |s|
    ensures k <= i <= |s|
    ensures i < |s| ==> s[i] == c
    decreases |s| - k
  {
    if k == |s| || s[k] == c then k else IndexFrom(s, c, k + 1)
  }

  lemma {:induction false} IndexFromFirst(s: string, c: char, k: nat)
    requires k <= |s|
    ensures forall j :: k <= j < IndexFrom(s, c, k) ==> s[j] != c
    decreases |s| - k
  {
    if k < |s| && s[k] != c {
      IndexFromFirst(s, c, k + 1);
    }
  }

  lemma IndexOfFirst(s: string, c: char)
    ensures forall j :: 0 <= j < IndexOf(s, c) ==> s[j] != c
  {
    IndexFromFirst(s, c, 0);
  }

  lemma IndexOfUnique(s: string, c: char, i: nat)
    requires i <= |s| && (forall k :: 0 <= k < i ==> s[k] != c) && (i < |s| ==> s[i] == c)
    ensures IndexOf(s, c) == i
  {
    IndexOfFirst(s, c);
  }

  lemma CutAt(s: string, n: nat)
    requires n < |s|
    ensures s == s[..n] + [s[n]] + s[n + 1..]
  {
  }

  /** The lines, each followed by a line feed. */
  function Unlines(lines: seq<string>): string {
    if lines == [] then "" else lines[0] + [LF] + Unlines(lines[1..])
  }

  lemma {:induction false} UnlinesConcat(a: seq<string>, b: seq<string>)
    ensures Unlines(a + b) == Unlines(a) + Unlines(b)
  {
    if a == [] {
      assert a + b == b;
    } else {
      assert (a + b)[1..] == a[1..] + b;
      UnlinesConcat(a[1..], b);
    }
  }

  /** `strings.Join(lines, "\n")` */
  function JoinLines(lines: seq<string>): string {
    if lines == [] then ""
    else if |lines| == 1 then lines[0]
    else lines[0] + [LF] + JoinLines(lines[1..])
  }

  lemma JoinCons(line: string, rest: seq<string>)
    requires rest != []
    ensures JoinLines([line] + rest) == line + [LF] + JoinLines(rest)
  {
    assert ([line] + rest)[1..] == rest;
  }

  lemma {:induction false} JoinThenLineFeed(lines: seq<string>)
    requires lines != []
    ensures JoinLines(lines) + [LF] == Unlines(lines)
  {
    if |lines| > 1 {
      JoinThenLineFeed(lines[1..]);
    } else {
      assert Unlines(lines[1..]) == "";
    }
  }

  function Mapped<A, B>(f: A -> B, s: seq<A>): seq<B> {
    if s == [] then [] else Mapped(f, s[..|s| - 1]) + [f(s[|s| - 1])]
  }

  lemma MappedSnoc<A, B>(f: A -> B, s: seq<A>, a: A)
    ensures Mapped(f, s + [a]) == Mapped(f, s) + [f(a)]
  {
    assert (s + [a])[..|s|] == s;
  }

  // ---------- What trimming keeps ----------

  predicate SpaceFromTo(s: string, a: int, b: int) {
    forall i :: 0 <= i < |s| && a <= i < b ==> IsSpace(s[i])
  }

  /** `t` is what lies between the white space at the two ends of `s`. */
  predicate Inner(s: string, t: string, i: nat, j: nat) {
    && i <= j <= |s| && t == s[i..j] && SpaceFromTo(s, 0, i) && SpaceFromTo(s, j, |s|)
    && (i < j ==> !IsSpace(s[i]) && !IsSpace(s[j - 1]))
  }

  lemma {:induction false} TrimLeftAt(s: string) returns (i: nat)
    ensures i <= |s| && TrimLeft(s) == s[i..] && SpaceFromTo(s, 0, i) && (i < |s| ==> !IsSpace(s[i]))
    decreases |s|
  {
    if s != "" && IsSpace(s[0]) {
      var j := TrimLeftAt(s[1..]);
      i := j + 1;
      forall k | 0 <= k < i ensures IsSpace(s[k]) {
        assert k > 0 ==> s[1..][k - 1] == s[k];
      }
    } else {
      i := 0;
    }
  }

  lemma {:induction false} TrimRightAt(s: string) returns (j: nat)
    ensures j <= |s| && TrimRight(s) == s[..j] && SpaceFromTo(s, j, |s|) && (j > 0 ==> !IsSpace(s[j - 1]))
    decreases |s|
  {
    if s != "" && IsSpace(s[|s| - 1]) {
      j := TrimRightAt(s[..|s| - 1]);
      forall k | j <= k < |s| ensures IsSpace(s[k]) {
        assert k < |s| - 1 ==> s[..|s| - 1][k] == s[k];
      }
    } else {
      j := |s|;
    }
  }

  /** Trimming keeps exactly the inner part. */
  lemma TrimIsInner(s: string) returns (i: nat, j: nat)
    ensures Inner(s, TrimSpace(s), i, j)
  {
    i := TrimLeftAt(s);
    var k := TrimRightAt(s[i..]);
    j := i + k;
    forall n | j <= n < |s| ensures IsSpace(s[n]) {
      assert s[i..][n - i] == s[n];
    }
  }

  /** And there is only one inner part. */
  lemma OneInner(s: string, t: string, i: nat, j: nat, u: string, k: nat, l: nat)
    requires Inner(s, t, i, j) && Inner(s, u, k, l)
    ensures t == u
  {
  }

  ghost predicate IsTrimmed(s: string, t: string) {
    exists i: nat, j: nat :: Inner(s, t, i, j)
  }

  lemma TrimmedExactly(s: string, t: string)
    ensures IsTrimmed(s, t) <==> t == TrimSpace(s)
  {
    var i, j := TrimIsInner(s);
    if k: nat, l: nat :| Inner(s, t, k, l) {
      OneInner(s, TrimSpace(s), i, j, t, k, l);
    }
  }
}
