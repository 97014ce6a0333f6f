/** Line scanning as `bufio.Scanner` with a line cap does it, and the relay of scanned lines to the client
    (internal/proxy/sse.go, the forwarding half of the scan loop). */
module Scanner {
  import opened Text

  /** The cap of all three transports. What is said about scanning holds for any cap. */
  const MAX_SSE_LINE := 0x80_0000

  /** The lines found, and whether scanning stopped at a line that does not fit the buffer. */
  datatype Scanned = Scanned(lines: seq<string>, tooLong: bool)

  function DropCR(line: string): string {
    if EndsInCR(line) then line[..|line| - 1] else line
  }

  predicate EndsInCR(line: string) {
    line != "" && line[|line| - 1] == CR
  }

  /** A buffer of `cap` bytes that fills up without a line feed in it ends the scan. The last line may be
      unterminated. */
  function Scan(data: string, cap: nat): Scanned {
    if data == "" then Scanned([], false)
    else
      var n := IndexOf(data, LF);
      if n >= cap then Scanned([], true)
      else if n == |data| then Scanned([DropCR(data)], false)
      else
        var rest := Scan(data[n + 1..], cap);
        Scanned([DropCR(data[..n])] + rest.lines, rest.tooLong)
  }

  predicate LineFeedEnded(data: string) {
    data == "" || data[|data| - 1] == LF
  }

  predicate HasCRLF(data: string) {
    exists i :: 0 < i < |data| && data[i - 1] == CR && data[i] == LF
  }

  /** What the relay writes for the scanned input. */
  function Relayed(data: string, cap: nat): string {
    Unlines(Scan(data, cap).lines)
  }

  lemma UnlinesEndsInLineFeed(lines: seq<string>)
    ensures LineFeedEnded(Unlines(lines))
  {
  }

  lemma UnlinesCons(line: string, rest: seq<string>)
    ensures Unlines([line] + rest) == line + [LF] + Unlines(rest)
  {
    assert ([line] + rest)[1..] == rest;
  }

  lemma DropCRShortens(line: string)
    ensures |line| - 1 <= |DropCR(line)| <= |line|
    ensures EndsInCR(line) <==> |DropCR(line)| < |line|
  {
  }

  /** One complete line is scanned off. */
  lemma ScanStep(data: string, cap: nat)
    requires IndexOf(data, LF) < |data| && IndexOf(data, LF) < cap
    ensures var n := IndexOf(data, LF);
            var rest := Scan(data[n + 1..], cap);
            Scan(data, cap) == Scanned([DropCR(data[..n])] + rest.lines, rest.tooLong)
  {
    assert data != "";
  }

  /** And relayed. */
  lemma RelayStep(data: string, cap: nat)
    requires IndexOf(data, LF) < |data| && IndexOf(data, LF) < cap
    ensures var n := IndexOf(data, LF);
            Relayed(data, cap) == DropCR(data[..n]) + [LF] + Relayed(data[n + 1..], cap)
  {
    var n := IndexOf(data, LF);
    ScanStep(data, cap);
    UnlinesCons(DropCR(data[..n]), Scan(data[n + 1..], cap).lines);
  }

  lemma RelayStepLength(data: string, cap: nat)
    requires IndexOf(data, LF) < |data| && IndexOf(data, LF) < cap
    ensures var n := IndexOf(data, LF);
            && |Relayed(data, cap)| == |DropCR(data[..n])| + 1 + |Relayed(data[n + 1..], cap)|
            && |DropCR(data[..n])| <= n
            && Scan(data, cap).tooLong == Scan(data[n + 1..], cap).tooLong
  {
    var n := IndexOf(data, LF);
    ScanStep(data, cap);
    RelayStep(data, cap);
    DropCRShortens(data[..n]);
  }

  lemma TailEnds(data: string, n: nat)
    requires n < |data| && data[n] == LF
    ensures LineFeedEnded(data) <==> LineFeedEnded(data[n + 1..])
  {
  }

  /** The part of the data after a complete line. */
  lemma SplitAtLineFeed(data: string, n: nat)
    requires n < |data| && data[n] == LF
    ensures !HasCRLF(data) ==> !HasCRLF(data[n + 1..]) && !EndsInCR(data[..n])
    ensures HasCRLF(data) && (forall k :: 0 <= k < n ==> data[k] != LF)
        ==> HasCRLF(data[n + 1..]) || EndsInCR(data[..n])
  {
    var tail := data[n + 1..];
    if i :| 0 < i < |tail| && tail[i - 1] == CR && tail[i] == LF {
      assert data[n + 1 + i - 1] == CR && data[n + 1 + i] == LF;
    }
    if i :| 0 < i < |data| && data[i - 1] == CR && data[i] == LF && i > n {
      assert i > n + 1 && tail[i - n - 1] == LF && tail[i - n - 2] == CR;
    }
  }

  /** Nothing is left, or no line feed within the buffer. */
  lemma NothingScanned(data: string, cap: nat)
    requires data == "" || IndexOf(data, LF) >= cap
    ensures Relayed(data, cap) == "" && (Scan(data, cap).tooLong ==> data != "")
  {
  }

  lemma UnterminatedLine(data: string, cap: nat)
    requires data != "" && IndexOf(data, LF) == |data| < cap
    ensures |Relayed(data, cap)| <= |data| + 1 && !LineFeedEnded(data) && !Scan(data, cap).tooLong
  {
    IndexOfFirst(data, LF);
    DropCRShortens(data);
    UnlinesCons(DropCR(data), []);
    assert [DropCR(data)] + [] == [DropCR(data)];
  }

  /** The relay never adds a byte beyond the line feed of an unterminated last line. */
  lemma {:induction false} RelayNotLonger(data: string, cap: nat)
    ensures |Relayed(data, cap)| <= |data| + 1
    ensures LineFeedEnded(data) ==> |Relayed(data, cap)| <= |data|
    ensures Scan(data, cap).tooLong ==> |Relayed(data, cap)| < |data|
    decreases |data|
  {
    var n := IndexOf(data, LF);
    if data == "" || n >= cap {
      NothingScanned(data, cap);
    } else if n == |data| {
      UnterminatedLine(data, cap);
    } else {
      RelayNotLonger(data[n + 1..], cap);
      RelayStepLength(data, cap);
      TailEnds(data, n);
    }
  }

  /** It drops a byte for a carriage return before a line feed. */
  lemma {:induction false} RelayShorter(data: string, cap: nat)
    requires LineFeedEnded(data) && HasCRLF(data)
    ensures |Relayed(data, cap)| < |data|
    decreases |data|
  {
    var n := IndexOf(data, LF);
    IndexOfFirst(data, LF);
    if n >= cap {
      NothingScanned(data, cap);
    } else {
      TailEnds(data, n);
      SplitAtLineFeed(data, n);
      RelayStepLength(data, cap);
      DropCRShortens(data[..n]);
      RelayNotLonger(data[n + 1..], cap);
      if HasCRLF(data[n + 1..]) {
        RelayShorter(data[n + 1..], cap);
      }
    }
  }

  /** The buffer, filled from byte `i` on, holds no line feed. */
  predicate FillsBuffer(data: string, cap: nat, i: nat) {
    i < |data| && i + cap <= |data| && forall k :: i <= k < i + cap ==> data[k] != LF
  }

  /** Some line of the data does not fit the buffer. */
  ghost predicate Overflows(data: string, cap: nat) {
    exists i: nat :: FillsBuffer(data, cap, i)
  }

  /** A buffer filled anywhere in the data after its first line is one filled in the rest, and conversely. */
  lemma OverflowOfRest(data: string, cap: nat)
    requires IndexOf(data, LF) < |data| && IndexOf(data, LF) < cap
    ensures Overflows(data, cap) <==> Overflows(data[IndexOf(data, LF) + 1..], cap)
  {
    var n := IndexOf(data, LF);
    var rest := data[n + 1..];
    if i: nat :| FillsBuffer(data, cap, i) {
      assert i > n;
      assert FillsBuffer(rest, cap, i - n - 1);
    }
    if j: nat :| FillsBuffer(rest, cap, j) {
      forall k | n + 1 + j <= k < n + 1 + j + cap ensures data[k] != LF {
        assert rest[k - n - 1] == data[k];
      }
      assert FillsBuffer(data, cap, n + 1 + j);
    }
  }

  /** The scan stops short exactly when some stretch of `cap` bytes of the data holds no line feed. */
  lemma {:induction false} StopsShortExactly(data: string, cap: nat)
    ensures Scan(data, cap).tooLong <==> Overflows(data, cap)
    decreases |data|
  {
    var n := IndexOf(data, LF);
    IndexOfFirst(data, LF);
    if data == "" {
    } else if n >= cap {
      assert FillsBuffer(data, cap, 0);
    } else if n < |data| {
      ScanStep(data, cap);
      StopsShortExactly(data[n + 1..], cap);
      OverflowOfRest(data, cap);
    }
  }

  lemma {:induction false} RelayOfPlainData(data: string, cap: nat)
    requires LineFeedEnded(data) && !HasCRLF(data) && !Scan(data, cap).tooLong
    ensures Relayed(data, cap) == data
    decreases |data|
  {
    if data != "" {
      var n := IndexOf(data, LF);
      IndexOfFirst(data, LF);
      TailEnds(data, n);
      SplitAtLineFeed(data, n);
      ScanStep(data, cap);
      RelayStep(data, cap);
      RelayOfPlainData(data[n + 1..], cap);
      CutAt(data, n);
    }
  }

  lemma LineFeedLater(data: string)
    ensures IndexOf(data + [LF], LF) == IndexOf(data, LF)
  {
    IndexOfFirst(data, LF);
    IndexOfUnique(data + [LF], LF, IndexOf(data, LF));
  }

  /** The last line of the data needs no line feed to be found: with or without one the scan is the same. */
  lemma {:induction false} LastLineNeedsNoLineFeed(data: string, cap: nat)
    requires data != "" && !LineFeedEnded(data) && !Overflows(data, cap)
    ensures Scan(data, cap) == Scan(data + [LF], cap)
    decreases |data|
  {
    var n, whole := IndexOf(data, LF), data + [LF];
    LineFeedLater(data);
    IndexOfFirst(data, LF);
    assert !FillsBuffer(data, cap, 0);
    ScanStep(whole, cap);
    if n == |data| {
      assert whole[..n] == data && whole[n + 1..] == "";
      assert [DropCR(data)] + [] == [DropCR(data)];
    } else {
      ScanStep(data, cap);
      TailEnds(data, n);
      OverflowOfRest(data, cap);
      LastLineNeedsNoLineFeed(data[n + 1..], cap);
      assert whole[..n] == data[..n] && whole[n + 1..] == data[n + 1..] + [LF];
    }
  }

  /** The client receives the upstream bytes unchanged exactly when they end in a line feed, hold no carriage
      return before a line feed, and nowhere go on for `cap` bytes without a line feed. */
  lemma RelayIsTransparentExactly(data: string, cap: nat)
    ensures Relayed(data, cap) == data <==> (LineFeedEnded(data) && !HasCRLF(data) && !Overflows(data, cap))
  {
    StopsShortExactly(data, cap);
    UnlinesEndsInLineFeed(Scan(data, cap).lines);
    RelayNotLonger(data, cap);
    if LineFeedEnded(data) && HasCRLF(data) {
      RelayShorter(data, cap);
    }
    if LineFeedEnded(data) && !HasCRLF(data) && !Scan(data, cap).tooLong {
      RelayOfPlainData(data, cap);
    }
  }

  predicate Scannable(line: string, cap: nat) {
    LF !in line && |line| < cap
  }

  lemma {:induction false} ScannedLinesFit(data: string, cap: nat)
    ensures forall i :: 0 <= i < |Scan(data, cap).lines| ==> Scannable(Scan(data, cap).lines[i], cap)
    decreases |data|
  {
    var n := IndexOf(data, LF);
    IndexOfFirst(data, LF);
    if data != "" && n < cap && n < |data| {
      ScannedLinesFit(data[n + 1..], cap);
    }
  }

  lemma FirstLine(line: string, rest: string)
    requires LF !in line
    ensures var text := line + [LF] + rest;
            IndexOf(text, LF) == |line| && text[..|line|] == line && text[|line| + 1..] == rest
  {
    var text := line + [LF] + rest;
    assert forall k :: 0 <= k < |line| ==> text[k] == line[k] && line[k] in line;
    IndexOfUnique(text, LF, |line|);
  }

  /** Scanning printed lines gives each line back, less one trailing carriage return. */
  lemma {:induction false} ScanUnlines(lines: seq<string>, cap: nat)
    requires forall i :: 0 <= i < |lines| ==> Scannable(lines[i], cap)
    ensures Scan(Unlines(lines), cap) == Scanned(seq(|lines|, i requires 0 <= i < |lines| => DropCR(lines[i])), false)
  {
    if lines != [] {
      assert Scannable(lines[0], cap);
      FirstLine(lines[0], Unlines(lines[1..]));
      ScanUnlines(lines[1..], cap);
    }
  }

  /** A client that scans the relayed bytes as the proxy did sees the same lines exactly when none of them
      ends in a carriage return. */
  lemma RescanAgreesExactly(data: string, cap: nat)
    ensures Scan(Relayed(data, cap), cap).lines == Scan(data, cap).lines
            <==> (forall i :: 0 <= i < |Scan(data, cap).lines| ==> !EndsInCR(Scan(data, cap).lines[i]))
  {
    var lines := Scan(data, cap).lines;
    ScannedLinesFit(data, cap);
    ScanUnlines(lines, cap);
    var again := Scan(Relayed(data, cap), cap).lines;
    assert forall i :: 0 <= i < |lines| ==> again[i] == DropCR(lines[i]);
    if i :| 0 <= i < |lines| && EndsInCR(lines[i]) {
      assert |again[i]| < |lines[i]|;
    }
  }
}
