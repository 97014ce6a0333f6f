/** The buffered event-stream parser of the streamable transport (internal/proxy/streamable.go), measured
    against the standard and against an event printer. */
module EventStream {
  import opened Text
  import opened Scanner
  import Spec = EventStreamSpec

  /** `sseFieldValue` on a data line; other lines carry no data. */
  function DataValue(line: string): Option<string> {
    if HasPrefix(line, "data:") then Some(TrimPrefix(line[5..], " ")) else None
  }

  predicate Blank(payload: string) {
    TrimSpace(payload) == ""
  }

  /** The payload handed to the JSON decoder when an event ends; blank ones are skipped. */
  function Flush(dataLines: seq<string>): seq<string> {
    var payload := JoinLines(dataLines);
    if Blank(payload) then [] else [payload]
  }

  /** The payloads of the remaining lines, given the data lines of the event being read. Data left at the end
      of the input is flushed too. */
  function Payloads(dataLines: seq<string>, lines: seq<string>): seq<string>
    decreases |lines|
  {
    if lines == [] then Flush(dataLines)
    else if lines[0] == "" then Flush(dataLines) + Payloads([], lines[1..])
    else
      match DataValue(lines[0])
      case Some(v) => Payloads(dataLines + [v], lines[1..])
      case None => Payloads(dataLines, lines[1..])
  }

  /** The payloads of a whole body. */
  function BodyPayloads(body: string, cap: nat): seq<string> {
    Payloads([], Scan(body, cap).lines)
  }

  // ---------- Agreement with the standard, on every input ----------

  function NotBlank(payloads: seq<string>): seq<string> {
    if payloads == [] then []
    else (if Blank(payloads[0]) then [] else [payloads[0]]) + NotBlank(payloads[1..])
  }

  /** A tab, line feed, vertical tab, form feed, carriage return or space. */
  predicate IsSpaceCode(code: int) {
    9 <= code <= 13 || code == 32
  }

  /** The payloads that are skipped are those of white space alone. */
  lemma BlankIsAllSpace(payload: string)
    ensures Blank(payload) <==> forall i :: 0 <= i < |payload| ==> IsSpaceCode(payload[i] as int)
  {
    var i, j := TrimIsInner(payload);
  }

  lemma DataValueIsDataField(line: string)
    requires line != "data"
    ensures DataValue(line) == if Spec.FieldOf(line).0 == "data" then Some(Spec.FieldOf(line).1) else None
  {
    Spec.FieldWithName(line, "data");
    assert "data" + ":" == "data:";
  }

  lemma UnlinesSnoc(lines: seq<string>, line: string)
    ensures Unlines(lines + [line]) == Unlines(lines) + line + [LF]
  {
    UnlinesConcat(lines, [line]);
    assert Unlines([line]) == line + [LF] + Unlines([]);
  }

  lemma FlushIsDispatch(dataLines: seq<string>, b: Spec.Buffers)
    requires b.data == Unlines(dataLines)
    ensures Flush(dataLines) == NotBlank(Spec.DataOf(Spec.Dispatch(b)))
  {
    if dataLines == [] {
      assert Blank("");
    } else {
      JoinThenLineFeed(dataLines);
      assert b.data[..|b.data| - 1] == JoinLines(dataLines);
    }
  }

  lemma NotBlankDataOfConcat(a: seq<Spec.Event>, b: seq<Spec.Event>)
    ensures NotBlank(Spec.DataOf(a + b)) == NotBlank(Spec.DataOf(a)) + NotBlank(Spec.DataOf(b))
  {
    if a == [] {
      assert a + b == b;
    } else {
      assert (a + b)[1..] == a[1..] + b;
      NotBlankDataOfConcat(a[1..], b);
    }
  }

  lemma {:induction false} PayloadsFrom(dataLines: seq<string>, b: Spec.Buffers, lines: seq<string>)
    requires b.data == Unlines(dataLines)
    ensures Payloads(dataLines, lines) == NotBlank(Spec.DataOf(Spec.Events(b, Spec.WithoutBareData(lines) + [""])))
    decreases |lines|
  {
    var seen := Spec.WithoutBareData(lines) + [""];
    if lines == [] {
      FlushIsDispatch(dataLines, b);
      assert seen == [""] && Spec.Events(b, seen) == Spec.Dispatch(b) + [];
    } else if lines[0] == "data" {
      assert seen == Spec.WithoutBareData(lines[1..]) + [""];
      PayloadsFrom(dataLines, b, lines[1..]);
    } else {
      assert seen[0] == lines[0] && seen[1..] == Spec.WithoutBareData(lines[1..]) + [""];
      if lines[0] == "" {
        var after := Spec.Buffers("", "", b.lastId);
        FlushIsDispatch(dataLines, b);
        PayloadsFrom([], after, lines[1..]);
        NotBlankDataOfConcat(Spec.Dispatch(b), Spec.Events(after, seen[1..]));
      } else {
        DataValueIsDataField(lines[0]);
        var v := DataValue(lines[0]);
        if v.Some? {
          UnlinesSnoc(dataLines, v.value);
        }
        PayloadsFrom(if v.Some? then dataLines + [v.value] else dataLines, Spec.Interpret(b, lines[0]), lines[1..]);
      }
    }
  }

  /** On every list of lines the parser finds exactly the non-blank data of the events the standard dispatches,
      once the input is closed with a blank line and lines that are just "data" are taken out. */
  lemma {:induction false} PayloadsAreDispatchedData(lines: seq<string>)
    ensures Payloads([], lines) == NotBlank(Spec.DataOf(Spec.Events(Spec.EMPTY, Spec.WithoutBareData(lines) + [""])))
  {
    PayloadsFrom([], Spec.EMPTY, lines);
  }

  /** Every carriage return is followed by a line feed or is the last byte. */
  predicate CRsEndLines(s: string) {
    forall i :: 0 <= i < |s| - 1 && s[i] == CR ==> s[i + 1] == LF
  }

  /** The standard's lines, and at most one more. */
  predicate SpecLinesAnd(data: string, lines: seq<string>) {
    Spec.Lines(data) <= lines && |lines| <= |Spec.Lines(data)| + 1
  }

  lemma SpecLineAt(data: string, next: nat)
    requires var e := Spec.EndOfLine(data);
             e < |data| && next == if data[e] == CR && e + 1 < |data| && data[e + 1] == LF then e + 2 else e + 1
    ensures Spec.Lines(data) == [data[..Spec.EndOfLine(data)]] + Spec.Lines(data[next..])
  {
  }

  lemma DropCRAt(data: string, n: nat)
    requires n <= |data|
    ensures DropCR(data[..n]) == if n > 0 && data[n - 1] == CR then data[..n - 1] else data[..n]
  {
    if n > 0 {
      assert data[..n][n - 1] == data[n - 1] && data[..n][..n - 1] == data[..n - 1];
    }
  }

  /** The standard ends the first line where the scanner does, less the carriage return. */
  lemma EndsAlike(data: string)
    requires var n := IndexOf(data, LF); n < |data| && n <= IndexOf(data, CR) + 1
    ensures var n, e := IndexOf(data, LF), Spec.EndOfLine(data);
            && e < |data| && data[..e] == DropCR(data[..n])
            && n + 1 == if data[e] == CR && e + 1 < |data| && data[e + 1] == LF then e + 2 else e + 1
  {
    var n, c := IndexOf(data, LF), IndexOf(data, CR);
    DropCRAt(data, n);
    if c > n && n > 0 {
      IndexOfFirst(data, CR);
      assert data[n - 1] != CR;
    }
  }

  lemma CRsOfRest(data: string)
    requires var n := IndexOf(data, LF); n < |data| && n <= IndexOf(data, CR) + 1
    ensures CRsEndLines(data) <==> CRsEndLines(data[IndexOf(data, LF) + 1..])
  {
    var n := IndexOf(data, LF);
    var rest := data[n + 1..];
    IndexOfFirst(data, CR);
    if CRsEndLines(rest) {
      forall i | 0 <= i < |data| - 1 && data[i] == CR ensures data[i + 1] == LF {
        assert i > n ==> rest[i - n - 1] == CR && rest[i - n] == data[i + 1];
      }
    }
  }

  /** The first line, where it ends in a line feed with or without a carriage return. */
  lemma EndedLine(data: string, cap: nat)
    requires var n := IndexOf(data, LF); n < |data| && n < cap && n <= IndexOf(data, CR) + 1
    ensures var rest := data[IndexOf(data, LF) + 1..];
            && (SpecLinesAnd(data, Scan(data, cap).lines) <==> SpecLinesAnd(rest, Scan(rest, cap).lines))
            && (Spec.Lines(rest) == Scan(rest, cap).lines ==> Spec.Lines(data) == Scan(data, cap).lines)
  {
    var n := IndexOf(data, LF);
    var rest := data[n + 1..];
    EndsAlike(data);
    SpecLineAt(data, n + 1);
    ScanStep(data, cap);
    SameHead(DropCR(data[..n]), Spec.Lines(rest), Scan(rest, cap).lines);
  }

  lemma SameHead(line: string, a: seq<string>, b: seq<string>)
    ensures [line] + a <= [line] + b <==> a <= b
  {
    assert ([line] + a)[1..] == a && ([line] + b)[1..] == b;
    if [line] + a <= [line] + b {
      assert forall i :: 0 <= i < |a| ==> a[i] == ([line] + a)[i + 1] == ([line] + b)[i + 1] == b[i];
    }
  }

  /** A carriage return that ends no line cuts the standard's line short of the scanned one. */
  lemma StrayCR(data: string, cap: nat)
    requires var n, c := IndexOf(data, LF), IndexOf(data, CR); n < cap && c + 1 < n
    ensures !CRsEndLines(data) && !(Spec.Lines(data) <= Scan(data, cap).lines)
  {
    var n, c := IndexOf(data, LF), IndexOf(data, CR);
    IndexOfFirst(data, LF);
    assert data[c] == CR && data[c + 1] != LF;
    assert Spec.Lines(data) != [] && Spec.Lines(data)[0] == data[..c];
    assert Scan(data, cap).lines[0] == DropCR(data[..n]);
    DropCRShortens(data[..n]);
  }

  /** A last line with no line feed, and with no carriage return but as its last byte. */
  lemma LastLine(data: string, cap: nat)
    requires data != "" && IndexOf(data, LF) == |data| < cap && |data| <= IndexOf(data, CR) + 1
    ensures CRsEndLines(data) && SpecLinesAnd(data, Scan(data, cap).lines) && !LineFeedEnded(data)
  {
    var c := IndexOf(data, CR);
    IndexOfFirst(data, LF);
    IndexOfFirst(data, CR);
    if c < |data| {
      assert data[c + 1..] == "" && Spec.Lines("") == [];
      assert Spec.Lines(data) == [data[..c]] + Spec.Lines(data[c + 1..]);
      assert DropCR(data) == data[..c];
    }
  }

  lemma FirstLineFits(data: string, cap: nat)
    requires !Overflows(data, cap) && data != ""
    ensures IndexOf(data, LF) < cap
  {
    IndexOfFirst(data, LF);
    assert !FillsBuffer(data, cap, 0);
  }

  /** On data that fits the buffer the scanned lines are the standard's, with at most one more, if and only if
      every carriage return is followed by a line feed or is the last byte. They are the same lines when the data
      then ends in a line feed. */
  lemma {:induction false} ScanIsSpecLinesExactly(data: string, cap: nat)
    requires !Overflows(data, cap)
    ensures SpecLinesAnd(data, Scan(data, cap).lines) <==> CRsEndLines(data)
    ensures CRsEndLines(data) && LineFeedEnded(data) ==> Spec.Lines(data) == Scan(data, cap).lines
    decreases |data|
  {
    var n, c := IndexOf(data, LF), IndexOf(data, CR);
    if data == "" {
      assert Spec.Lines(data) == [] == Scan(data, cap).lines;
      return;
    }
    FirstLineFits(data, cap);
    if c + 1 < n {
      StrayCR(data, cap);
    } else if n == |data| {
      LastLine(data, cap);
    } else {
      OverflowOfRest(data, cap);
      ScanIsSpecLinesExactly(data[n + 1..], cap);
      EndedLine(data, cap);
      CRsOfRest(data);
      TailEnds(data, n);
    }
  }

  // ---------- Round trip ----------

  /** `strings.Split(payload, "\n")` */
  function SplitLines(payload: string): seq<string> {
    var n := IndexOf(payload, LF);
    if n == |payload| then [payload] else [payload[..n]] + SplitLines(payload[n + 1..])
  }

  lemma {:induction false} JoinSplit(payload: string)
    ensures SplitLines(payload) != [] && JoinLines(SplitLines(payload)) == payload
    decreases |payload|
  {
    var n := IndexOf(payload, LF);
    if n < |payload| {
      JoinSplit(payload[n + 1..]);
      JoinCons(payload[..n], SplitLines(payload[n + 1..]));
      CutAt(payload, n);
    }
  }

  /** Lines a printer may put anywhere in an event without changing its data. */
  predicate Interspersed(line: string) {
    HasPrefix(line, ":") || HasPrefix(line, "id:") || HasPrefix(line, "retry:") || HasPrefix(line, "event:")
  }

  lemma InterspersedIsNotData(line: string)
    requires Interspersed(line)
    ensures line != "" && line[0] != 'd'
  {
    assert forall p :: HasPrefix(line, p) && p != "" ==> line[0] == p[0];
  }

  function DataPart(block: seq<string>): seq<string> {
    if block == [] then []
    else
      match DataValue(block[0])
      case Some(v) => [v] + DataPart(block[1..])
      case None => DataPart(block[1..])
  }

  /** `block` is a way to print `payload`: its data lines carry the payload's lines in order, and every other
      line is an interspersed one. */
  ghost predicate Prints(block: seq<string>, payload: string, cap: nat) {
    && (forall i :: 0 <= i < |block| ==>
          CR !in block[i] && Scannable(block[i], cap) && (HasPrefix(block[i], "data: ") || Interspersed(block[i])))
    && DataPart(block) == SplitLines(payload)
  }

  function Flat(blocks: seq<seq<string>>): seq<string> {
    if blocks == [] then [] else blocks[0] + [""] + Flat(blocks[1..])
  }

  ghost predicate PrintsAll(blocks: seq<seq<string>>, payloads: seq<string>, cap: nat) {
    && |blocks| == |payloads|
    && forall i :: 0 <= i < |blocks| ==> Prints(blocks[i], payloads[i], cap) && !Blank(payloads[i])
  }

  lemma {:induction false} PayloadsOfBlock(dataLines: seq<string>, block: seq<string>, rest: seq<string>)
    requires "" !in block
    ensures Payloads(dataLines, block + [""] + rest) == Flush(dataLines + DataPart(block)) + Payloads([], rest)
    decreases |block|
  {
    var lines := block + [""] + rest;
    if block == [] {
      assert lines[1..] == rest && dataLines + [] == dataLines;
    } else {
      assert lines[1..] == block[1..] + [""] + rest;
      match DataValue(block[0])
      case Some(v) =>
        PayloadsOfBlock(dataLines + [v], block[1..], rest);
        assert dataLines + [v] + DataPart(block[1..]) == dataLines + DataPart(block);
      case None =>
        PayloadsOfBlock(dataLines, block[1..], rest);
    }
  }

  lemma {:induction false} PayloadsOfFlat(blocks: seq<seq<string>>, payloads: seq<string>, cap: nat)
    requires PrintsAll(blocks, payloads, cap)
    ensures Payloads([], Flat(blocks)) == payloads
    decreases |blocks|
  {
    if blocks != [] {
      PayloadsOfBlock([], blocks[0], Flat(blocks[1..]));
      JoinSplit(payloads[0]);
      assert [] + DataPart(blocks[0]) == SplitLines(payloads[0]);
      PayloadsOfFlat(blocks[1..], payloads[1..], cap);
    }
  }

  lemma DataLineInterpreted(dataLines: seq<string>, b: Spec.Buffers, line: string, more: seq<string>)
    requires b.data == Unlines(dataLines) && line != "data"
    ensures var v := DataValue(line);
            var now := if v.Some? then dataLines + [v.value] else dataLines;
            && Spec.Interpret(b, line).data == Unlines(now)
            && dataLines + DataPart([line] + more) == now + DataPart(more)
  {
    DataValueIsDataField(line);
    var v := DataValue(line);
    assert ([line] + more)[1..] == more;
    if v.Some? {
      UnlinesSnoc(dataLines, v.value);
      assert dataLines + ([v.value] + DataPart(more)) == dataLines + [v.value] + DataPart(more);
    }
  }

  lemma HeadFirst(block: seq<string>, rest: seq<string>)
    requires block != []
    ensures block == [block[0]] + block[1..]
    ensures block + rest == [block[0]] + (block[1..] + rest)
  {
  }

  lemma {:induction false} EventsOfBlock(b: Spec.Buffers, dataLines: seq<string>, block: seq<string>, rest: seq<string>)
    returns (after: Spec.Buffers)
    requires "" !in block && "data" !in block
    requires b.data == Unlines(dataLines)
    ensures after.data == Unlines(dataLines + DataPart(block))
    ensures Spec.Events(b, block + ([""] + rest))
         == Spec.Dispatch(after) + Spec.Events(Spec.Buffers("", "", after.lastId), rest)
    decreases |block|
  {
    if block == [] {
      Spec.EventsCons(b, "", rest);
      assert block + ([""] + rest) == [""] + rest && dataLines + [] == dataLines;
      after := b;
    } else {
      var line, more := block[0], block[1..];
      var v := DataValue(line);
      var now := if v.Some? then dataLines + [v.value] else dataLines;
      HeadFirst(block, [""] + rest);
      DataLineInterpreted(dataLines, b, line, more);
      Spec.EventsCons(b, line, more + ([""] + rest));
      after := EventsOfBlock(Spec.Interpret(b, line), now, more, rest);
    }
  }

  /** A printed event dispatches its payload, whatever follows. */
  lemma {:induction false} EventOfBlock(b: Spec.Buffers, block: seq<string>, payload: string, cap: nat,
      rest: seq<string>)
    returns (lastId: string)
    requires Prints(block, payload, cap) && b.data == ""
    ensures Spec.DataOf(Spec.Events(b, block + ([""] + rest)))
         == [payload] + Spec.DataOf(Spec.Events(Spec.Buffers("", "", lastId), rest))
  {
    forall i | 0 <= i < |block| ensures block[i] != "" && block[i] != "data" {
      if Interspersed(block[i]) {
        InterspersedIsNotData(block[i]);
      }
    }
    var after := EventsOfBlock(b, [], block, rest);
    lastId := after.lastId;
    assert [] + DataPart(block) == SplitLines(payload);
    JoinSplit(payload);
    JoinThenLineFeed(SplitLines(payload));
    assert after.data[..|after.data| - 1] == payload;
    var later := Spec.Events(Spec.Buffers("", "", lastId), rest);
    assert (Spec.Dispatch(after) + later)[1..] == later;
  }

  lemma FlatStep(blocks: seq<seq<string>>)
    requires blocks != []
    ensures Flat(blocks) == blocks[0] + ([""] + Flat(blocks[1..]))
  {
  }

  lemma {:induction false} EventsOfFlat(b: Spec.Buffers, blocks: seq<seq<string>>, payloads: seq<string>, cap: nat)
    requires PrintsAll(blocks, payloads, cap) && b.data == ""
    ensures Spec.DataOf(Spec.Events(b, Flat(blocks))) == payloads
    decreases |blocks|
  {
    if blocks == [] {
      assert Spec.Events(b, []) == [];
    } else {
      var rest := Flat(blocks[1..]);
      assert Prints(blocks[0], payloads[0], cap) && PrintsAll(blocks[1..], payloads[1..], cap);
      FlatStep(blocks);
      var lastId := EventOfBlock(b, blocks[0], payloads[0], cap, rest);
      EventsOfFlat(Spec.Buffers("", "", lastId), blocks[1..], payloads[1..], cap);
    }
  }

  lemma {:induction false} FlatIsScannable(blocks: seq<seq<string>>, payloads: seq<string>, cap: nat)
    requires cap > 0 && PrintsAll(blocks, payloads, cap)
    ensures forall i :: 0 <= i < |Flat(blocks)| ==> CR !in Flat(blocks)[i] && Scannable(Flat(blocks)[i], cap)
    decreases |blocks|
  {
    if blocks != [] {
      FlatIsScannable(blocks[1..], payloads[1..], cap);
    }
  }

  lemma ScanOfFlat(blocks: seq<seq<string>>, payloads: seq<string>, cap: nat)
    requires cap > 0 && PrintsAll(blocks, payloads, cap)
    ensures Scan(Unlines(Flat(blocks)), cap) == Scanned(Flat(blocks), false)
  {
    var lines := Flat(blocks);
    FlatIsScannable(blocks, payloads, cap);
    ScanUnlines(lines, cap);
    assert forall i :: 0 <= i < |lines| ==> DropCR(lines[i]) == lines[i];
  }

  lemma {:induction false} ParsedBack(blocks: seq<seq<string>>, payloads: seq<string>, cap: nat)
    requires cap > 0 && PrintsAll(blocks, payloads, cap)
    ensures BodyPayloads(Unlines(Flat(blocks)), cap) == payloads
  {
    ScanOfFlat(blocks, payloads, cap);
    PayloadsOfFlat(blocks, payloads, cap);
  }

  /** Any printing of any list of non-blank payloads, scanned and parsed, gives back those payloads in order,
      and they are also the data of the events the standard dispatches. */
  lemma {:induction false} RoundTrip(blocks: seq<seq<string>>, payloads: seq<string>, cap: nat)
    requires cap > 0 && PrintsAll(blocks, payloads, cap)
    ensures BodyPayloads(Unlines(Flat(blocks)), cap) == payloads
    ensures Spec.DataOf(Spec.Events(Spec.EMPTY, Spec.StreamLines(Unlines(Flat(blocks))))) == payloads
  {
    var lines := Flat(blocks);
    ParsedBack(blocks, payloads, cap);
    ScanOfFlat(blocks, payloads, cap);
    FlatIsScannable(blocks, payloads, cap);
    UnlinesHasNoCR(lines);
    UnlinesEndsInLineFeed(lines);
    StopsShortExactly(Unlines(lines), cap);
    ScanIsSpecLinesExactly(Unlines(lines), cap);
    EventsOfFlat(Spec.EMPTY, blocks, payloads, cap);
    PrintedHasNoBOM(blocks, payloads, cap);
  }

  lemma PrintedHasNoBOM(blocks: seq<seq<string>>, payloads: seq<string>, cap: nat)
    requires PrintsAll(blocks, payloads, cap)
    ensures !HasPrefix(Unlines(Flat(blocks)), Spec.BOM)
  {
    if blocks != [] {
      JoinSplit(payloads[0]);
      var line := Flat(blocks)[0];
      assert line == blocks[0][0] && line != "";
      assert Unlines(Flat(blocks))[0] == line[0];
    }
  }

  // ---------- Printed bodies that are cut short ----------

  /** A blank line at the end adds nothing: what is left is flushed anyway. */
  lemma {:induction false} PayloadsAtEnd(dataLines: seq<string>, lines: seq<string>)
    ensures Payloads(dataLines, lines + [""]) == Payloads(dataLines, lines)
    decreases |lines|
  {
    var whole := lines + [""];
    if lines == [] {
      assert whole[0] == "" && whole[1..] == [] && Flush([]) == [];
    } else {
      assert whole[0] == lines[0] && whole[1..] == lines[1..] + [""];
      if lines[0] == "" {
        PayloadsAtEnd([], lines[1..]);
      } else {
        var v := DataValue(lines[0]);
        PayloadsAtEnd(if v.Some? then dataLines + [v.value] else dataLines, lines[1..]);
      }
    }
  }

  lemma {:induction false} FlatEnds(blocks: seq<seq<string>>, payloads: seq<string>, cap: nat)
      returns (front: seq<string>)
    requires blocks != [] && PrintsAll(blocks, payloads, cap)
    ensures Flat(blocks) == front + [""] && front != [] && front[|front| - 1] != ""
    decreases |blocks|
  {
    var last := |blocks| - 1;
    if last == 0 {
      front := blocks[0];
      assert Flat(blocks) == blocks[0] + [""] + [];
      JoinSplit(payloads[0]);
      assert blocks[0] != [];
      var line := front[|front| - 1];
      if Interspersed(line) {
        InterspersedIsNotData(line);
      }
    } else {
      var rest := FlatEnds(blocks[1..], payloads[1..], cap);
      front := blocks[0] + [""] + rest;
      assert Flat(blocks) == blocks[0] + [""] + (rest + [""]) == front + [""];
    }
  }

  /** The body, short of its last `cut` bytes, gives the payloads. */
  ghost predicate GivesBack(text: string, cut: nat, payloads: seq<string>, cap: nat) {
    cut <= |text| && BodyPayloads(CutShort(text, cut), cap) == payloads
  }

  lemma GivesBackScanned(text: string, cut: nat, lines: seq<string>, payloads: seq<string>, cap: nat)
    requires cut <= |text| && Scan(CutShort(text, cut), cap).lines == lines && Payloads([], lines) == payloads
    ensures GivesBack(text, cut, payloads, cap)
  {
  }

  lemma CutOne(text: string, body: string)
    requires text == body + [LF]
    ensures CutShort(text, 1) == body
  {
  }

  lemma CutTwo(text: string, body: string)
    requires text == body + [LF] && body != ""
    ensures CutShort(text, 2) == body[..|body| - 1]
  {
  }

  lemma FrontScanned(front: seq<string>, cap: nat)
    requires forall i :: 0 <= i < |front| ==> Scannable(front[i], cap) && !EndsInCR(front[i])
    ensures Scan(Unlines(front), cap) == Scanned(front, false)
  {
    ScanUnlines(front, cap);
    assert forall i :: 0 <= i < |front| ==> DropCR(front[i]) == front[i];
  }

  /** Lines that a scan gives back as they are, the last of them not blank. */
  ghost predicate CleanLines(front: seq<string>, cap: nat) {
    && front != [] && front[|front| - 1] != ""
    && forall i :: 0 <= i < |front| ==> Scannable(front[i], cap) && !EndsInCR(front[i])
  }

  /** Printed, the lines are the body, which scans back to them with or without its last line feed. */
  ghost predicate IsBody(body: string, front: seq<string>, cap: nat) {
    body != "" && Scan(body, cap).lines == front && Scan(body[..|body| - 1], cap).lines == front
  }

  lemma CutBodyScanned(front: seq<string>, cap: nat)
    requires CleanLines(front, cap)
    ensures IsBody(Unlines(front), front, cap)
  {
    FrontScanned(front, cap);
    CutBody(front, cap);
  }

  /** One of the line feeds that end the text can be missing, or both. */
  lemma CutScans(text: string, body: string, cap: nat, cut: nat, lines: seq<string>)
    requires text == body + [LF] && (cut == 1 || cut == 2) && IsBody(body, lines, cap)
    ensures cut <= |text| && Scan(CutShort(text, cut), cap).lines == lines
  {
    if cut == 1 {
      CutOne(text, body);
    } else {
      CutTwo(text, body);
    }
  }

  /** A body that ends right after its last data line, with the line feed or without it, still gives every payload
      back, the last one included. */
  lemma {:induction false} CutPayloads(blocks: seq<seq<string>>, payloads: seq<string>, cap: nat, text: string,
      cut: nat)
    requires cap > 0 && blocks != [] && PrintsAll(blocks, payloads, cap) && text == Unlines(Flat(blocks)) && cut <= 2
    ensures GivesBack(text, cut, payloads, cap)
  {
    if cut == 0 {
      ScanOfFlat(blocks, payloads, cap);
      PayloadsOfFlat(blocks, payloads, cap);
      CutNothing(text);
      GivesBackScanned(text, cut, Flat(blocks), payloads, cap);
    } else {
      var front, body := FrontAndBody(blocks, payloads, cap, text);
      CutScans(text, body, cap, cut, front);
      GivesBackScanned(text, cut, front, payloads, cap);
    }
  }

  /** The lines but the closing blank one, and the body they print. */
  lemma FrontAndBody(blocks: seq<seq<string>>, payloads: seq<string>, cap: nat, text: string)
      returns (front: seq<string>, body: string)
    requires cap > 0 && blocks != [] && PrintsAll(blocks, payloads, cap) && text == Unlines(Flat(blocks))
    ensures text == body + [LF] && Payloads([], front) == payloads && IsBody(body, front, cap)
  {
    front := FrontOf(blocks, payloads, cap, text);
    body := Unlines(front);
    CutBodyScanned(front, cap);
  }

  lemma FrontOf(blocks: seq<seq<string>>, payloads: seq<string>, cap: nat, text: string) returns (front: seq<string>)
    requires cap > 0 && blocks != [] && PrintsAll(blocks, payloads, cap) && text == Unlines(Flat(blocks))
    ensures CleanLines(front, cap) && text == Unlines(front) + [LF] && Payloads([], front) == payloads
  {
    front := FlatEnds(blocks, payloads, cap);
    FlatIsScannable(blocks, payloads, cap);
    forall i | 0 <= i < |front| ensures Scannable(front[i], cap) && !EndsInCR(front[i]) {
      assert Flat(blocks)[i] == front[i];
    }
    UnlinesSnoc(front, "");
    PayloadsOfFlat(blocks, payloads, cap);
    PayloadsAtEnd([], front);
  }

  lemma CutNothing(text: string)
    ensures CutShort(text, 0) == text
  {
  }

  function CutShort(text: string, cut: nat): string
    requires cut <= |text|
  {
    text[..|text| - cut]
  }

  /** Printed lines without the last line feed scan as they do with it. */
  lemma CutBody(front: seq<string>, cap: nat)
    requires front != [] && front[|front| - 1] != ""
    requires forall i :: 0 <= i < |front| ==> Scannable(front[i], cap)
    ensures var body := Unlines(front);
            body != "" && Scan(body[..|body| - 1], cap) == Scan(body, cap)
  {
    var n := |front| - 1;
    var last, body := front[n], Unlines(front);
    assert front[..n] + [last] == front;
    UnlinesSnoc(front[..n], last);
    var cut := body[..|body| - 1];
    assert body == cut + [LF] && cut == Unlines(front[..n]) + last && cut[|cut| - 1] == last[|last| - 1];
    assert LF !in last;
    ScanUnlines(front, cap);
    StopsShortExactly(body, cap);
    if i: nat :| FillsBuffer(cut, cap, i) {
      assert FillsBuffer(body, cap, i);
    }
    LastLineNeedsNoLineFeed(cut, cap);
  }

  lemma {:induction false} UnlinesHasNoCR(lines: seq<string>)
    requires forall i :: 0 <= i < |lines| ==> CR !in lines[i]
    ensures forall i :: 0 <= i < |Unlines(lines)| ==> Unlines(lines)[i] != CR
    decreases |lines|
  {
    if lines != [] {
      UnlinesHasNoCR(lines[1..]);
    }
  }

  /** One printer: the interspersed lines first, then the data lines. */
  function PrintEvent(payload: string, extra: seq<string>): seq<string> {
    var parts := SplitLines(payload);
    extra + seq(|parts|, i requires 0 <= i < |parts| => "data: " + parts[i])
  }

  /** It is a printing in the sense above exactly when the payload has no carriage return and each of its lines
      fits the buffer behind its field name; the round trip then holds for it. */
  lemma {:induction false} PrintEventPrintsExactly(payload: string, extra: seq<string>, cap: nat)
    requires forall i :: 0 <= i < |extra| ==> CR !in extra[i] && Scannable(extra[i], cap) && Interspersed(extra[i])
    ensures Prints(PrintEvent(payload, extra), payload, cap)
       <==> CR !in payload && forall i :: 0 <= i < |SplitLines(payload)| ==> |SplitLines(payload)[i]| + 6 < cap
  {
    var parts, block := SplitLines(payload), PrintEvent(payload, extra);
    PartsAreLines(payload);
    PartsKeepCRs(payload);
    var data := seq(|parts|, i requires 0 <= i < |parts| => "data: " + parts[i]);
    DataPartOfData(parts, data);
    DataPartSkips(extra, data);
    forall i | 0 <= i < |parts|
      ensures block[|extra| + i] == "data: " + parts[i] && HasPrefix(block[|extra| + i], "data: ")
      ensures CR !in parts[i] <==> CR !in block[|extra| + i]
    {
      assert data[i] == "data: " + parts[i];
    }
  }

  lemma {:induction false} PartsAreLines(payload: string)
    ensures forall i :: 0 <= i < |SplitLines(payload)| ==> LF !in SplitLines(payload)[i]
    decreases |payload|
  {
    var n := IndexOf(payload, LF);
    IndexOfFirst(payload, LF);
    if n < |payload| {
      PartsAreLines(payload[n + 1..]);
    }
  }

  predicate CRFree(lines: seq<string>) {
    forall i :: 0 <= i < |lines| ==> CR !in lines[i]
  }

  lemma {:induction false} PartsKeepCRs(payload: string)
    ensures CRFree(SplitLines(payload)) <==> CR !in payload
    decreases |payload|
  {
    var n := IndexOf(payload, LF);
    if n == |payload| {
      assert SplitLines(payload) == [payload] + [];
      CRFreeCons(payload, []);
    } else {
      var rest := payload[n + 1..];
      PartsKeepCRs(rest);
      CutAt(payload, n);
      assert CR in payload <==> CR in payload[..n] || CR in rest;
      CRFreeCons(payload[..n], SplitLines(rest));
    }
  }

  lemma CRFreeCons(line: string, rest: seq<string>)
    ensures CRFree([line] + rest) <==> CR !in line && CRFree(rest)
  {
    var all := [line] + rest;
    assert all[0] == line && forall i :: 0 <= i < |rest| ==> all[i + 1] == rest[i];
  }

  lemma {:induction false} DataPartOfData(parts: seq<string>, data: seq<string>)
    requires |data| == |parts| && forall i :: 0 <= i < |data| ==> data[i] == "data: " + parts[i]
    ensures DataPart(data) == parts
    decreases |parts|
  {
    if parts != [] {
      var line := data[0];
      assert line[..5] == "data:" && line[5..] == " " + parts[0] && line[5..][..1] == " ";
      assert DataValue(line) == Some(parts[0]);
      DataPartOfData(parts[1..], data[1..]);
    }
  }

  lemma {:induction false} DataPartSkips(extra: seq<string>, data: seq<string>)
    requires forall i :: 0 <= i < |extra| ==> Interspersed(extra[i])
    ensures DataPart(extra + data) == DataPart(data)
    decreases |extra|
  {
    if extra == [] {
      assert extra + data == data;
    } else {
      assert (extra + data)[1..] == extra[1..] + data;
      InterspersedIsNotData(extra[0]);
      DataPartSkips(extra[1..], data);
    }
  }
}
