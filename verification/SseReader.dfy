/** The streaming line machine of the SSE transport (internal/proxy/sse.go, the parsing half of the scan loop):
    it acts on each data line at once instead of waiting for the event to end. */
module SseReader {
  import opened Text
  import Spec = EventStreamSpec

  /** A call of `handleSSEData`. */
  datatype Call = Call(eventType: string, data: string)

  predicate IsEventLine(line: string) { HasPrefix(line, "event:") }

  predicate IsDataLine(line: string) { HasPrefix(line, "data:") }

  function TypeAfterLine(eventType: string, line: string): string {
    if line == "" then ""
    else if IsEventLine(line) then TrimSpace(line[6..])
    else eventType
  }

  function CallAt(eventType: string, line: string): Option<Call> {
    if IsDataLine(line) then Some(Call(eventType, TrimSpace(line[5..]))) else None
  }

  function TypeAfter(lines: seq<string>): string {
    if lines == [] then "" else TypeAfterLine(TypeAfter(lines[..|lines| - 1]), lines[|lines| - 1])
  }

  function Calls(eventType: string, lines: seq<string>): seq<Call>
    decreases |lines|
  {
    if lines == [] then []
    else CallsAt(eventType, lines[0]) + Calls(TypeAfterLine(eventType, lines[0]), lines[1..])
  }

  function CallsAt(eventType: string, line: string): seq<Call> {
    match CallAt(eventType, line)
    case Some(c) => [c]
    case None => []
  }

  /** Neither a blank line nor an event line from line `from` on. */
  predicate QuietSince(lines: seq<string>, from: int) {
    forall k :: 0 <= k < |lines| && from <= k ==> lines[k] != "" && !IsEventLine(lines[k])
  }

  /** After any lines the event type is the trimmed value of the last event line since the last blank line, or
      "" when there is none: `k` is that event line, or the blank line, or -1 at the start of the stream. */
  lemma {:induction false} TypeIsLastEventLine(lines: seq<string>) returns (k: int)
    ensures -1 <= k < |lines| && QuietSince(lines, k + 1)
    ensures k >= 0 ==> lines[k] == "" || IsEventLine(lines[k])
    ensures TypeAfter(lines) == if k >= 0 && IsEventLine(lines[k]) then TrimSpace(lines[k][6..]) else ""
  {
    k := -1;
    if lines != [] {
      var n := |lines| - 1;
      if lines[n] == "" || IsEventLine(lines[n]) {
        k := n;
      } else {
        k := TypeIsLastEventLine(lines[..n]);
      }
    }
  }

  // ---------- The session the stream belongs to ----------

  /** The session id a call registers, given how ids are read from endpoint URLs; "" for none. */
  function Registers(sessionOf: string -> string, c: Call): string {
    if c.eventType == "endpoint" then sessionOf(c.data) else ""
  }

  function SessionAfterCall(sessionOf: string -> string, sessionID: string, c: Call): string {
    var sid := Registers(sessionOf, c);
    if sid != "" then sid else sessionID
  }

  function SessionAfter(sessionOf: string -> string, calls: seq<Call>): string {
    if calls == [] then ""
    else SessionAfterCall(sessionOf, SessionAfter(sessionOf, calls[..|calls| - 1]), calls[|calls| - 1])
  }

  /** The stream's session is the one the last registering call `k` gave it, or "" when none registered. */
  lemma {:induction false} SessionIsLastRegistered(sessionOf: string -> string, calls: seq<Call>) returns (k: int)
    ensures -1 <= k < |calls| && forall j :: k < j < |calls| ==> Registers(sessionOf, calls[j]) == ""
    ensures k >= 0 ==> Registers(sessionOf, calls[k]) != ""
    ensures SessionAfter(sessionOf, calls) == if k >= 0 then Registers(sessionOf, calls[k]) else ""
  {
    k := -1;
    if calls != [] {
      var n := |calls| - 1;
      if Registers(sessionOf, calls[n]) != "" {
        k := n;
      } else {
        k := SessionIsLastRegistered(sessionOf, calls[..n]);
      }
    }
  }

  // ---------- Agreement with the standard ----------

  /** A missing type means "message"; the code treats both alike. */
  function TypeName(eventType: string): string {
    if TrimSpace(eventType) == "" then "message" else TrimSpace(eventType)
  }

  function Normal(eventType: string, data: string): Call {
    Call(TypeName(eventType), TrimSpace(data))
  }

  function NormalCalls(calls: seq<Call>): seq<Call> {
    if calls == [] then []
    else [Normal(calls[0].eventType, calls[0].data)] + NormalCalls(calls[1..])
  }

  function NormalEvents(events: seq<Spec.Event>): seq<Call> {
    if events == [] then []
    else [Normal(events[0].eventType, events[0].data)] + NormalEvents(events[1..])
  }

  /** The value the standard keeps as the event type after a line of an event; the reader takes no notice of a
      line that is just "event". */
  function SpecTypeAfter(eventType: string, line: string): string {
    if IsEventLine(line) then TrimPrefix(line[6..], " ") else if line == "event" then "" else eventType
  }

  /** Every event of the stream has at most one data line, its type is the same where that line is read as where
      the event ends, and no data line is left in an event without an end. `called` is the type the reader gave
      the data line of the event being read, once it has seen one; `specType` is the standard's type so far. */
  predicate OneCallPerEvent(eventType: string, specType: string, called: Option<string>, lines: seq<string>)
    decreases |lines|
  {
    if lines == [] then called.None?
    else if lines[0] == "" then
      (called.Some? ==> TypeName(called.value) == TypeName(specType)) && OneCallPerEvent("", "", None, lines[1..])
    else if IsDataLine(lines[0]) then called.None? && OneCallPerEvent(eventType, specType, Some(eventType), lines[1..])
    else OneCallPerEvent(TypeAfterLine(eventType, lines[0]), SpecTypeAfter(specType, lines[0]), called, lines[1..])
  }

  lemma {:induction false} TrimRightTwice(s: string)
    ensures TrimRight(TrimRight(s)) == TrimRight(s)
    ensures TrimRight(s) <= s
    decreases |s|
  {
    if s != "" && IsSpace(s[|s| - 1]) {
      TrimRightTwice(s[..|s| - 1]);
    }
  }

  lemma {:induction false} TrimLeftStops(s: string)
    ensures TrimLeft(s) != "" ==> !IsSpace(TrimLeft(s)[0])
    decreases |s|
  {
    if s != "" && IsSpace(s[0]) {
      TrimLeftStops(s[1..]);
    }
  }

  lemma TrimTwice(s: string)
    ensures TrimSpace(TrimSpace(s)) == TrimSpace(s)
  {
    var l := TrimLeft(s);
    TrimLeftStops(s);
    TrimRightTwice(l);
    assert TrimLeft(TrimRight(l)) == TrimRight(l);
  }

  /** Dropping the one optional space first makes no difference to a trimmed value. */
  lemma TrimAfterSpace(s: string)
    ensures TrimSpace(TrimPrefix(s, " ")) == TrimSpace(s)
  {
    if HasPrefix(s, " ") {
      assert s[0] == ' ' && s[1..] == TrimPrefix(s, " ");
    }
  }

  lemma FieldsOfLine(b: Spec.Buffers, line: string)
    requires line != "data" && line != ""
    ensures IsEventLine(line) ==> !IsDataLine(line)
    ensures Spec.Interpret(b, line).eventType == SpecTypeAfter(b.eventType, line)
    ensures Spec.Interpret(b, line).data
         == if IsDataLine(line) then b.data + TrimPrefix(line[5..], " ") + [LF] else b.data
  {
    assert "data" + ":" == "data:" && "event" + ":" == "event:";
    Spec.FieldWithName(line, "data");
    Spec.FieldWithName(line, "event");
    if IsEventLine(line) {
      assert line[0] == "event:"[0];
    }
    if IsDataLine(line) {
      assert line[0] == "data:"[0];
    }
  }

  predicate NoBareData(lines: seq<string>) {
    forall i :: 0 <= i < |lines| ==> lines[i] != "data"
  }

  lemma NoBareDataTail(lines: seq<string>)
    requires NoBareData(lines) && lines != []
    ensures lines[0] != "data" && NoBareData(lines[1..])
  {
  }

  /** The call already made for the event being read is the one its dispatch would make. */
  ghost predicate Owes(b: Spec.Buffers, called: Option<string>, owed: seq<Call>) {
    match called
    case None => b.data == "" && owed == []
    case Some(type') =>
      && b.data != "" && b.data[|b.data| - 1] == LF
      && owed == [Normal(type', b.data[..|b.data| - 1])]
  }

  /** From here on the dispatches are the call already made for the current event and the calls to come. */
  ghost predicate Agree(eventType: string, b: Spec.Buffers, owed: seq<Call>, lines: seq<string>) {
    NormalEvents(Spec.Events(b, lines)) == owed + NormalCalls(Calls(eventType, lines))
  }

  lemma NormalLengths(calls: seq<Call>, events: seq<Spec.Event>)
    ensures |NormalCalls(calls)| == |calls| && |NormalEvents(events)| == |events|
  {
  }

  lemma EventsStep(b: Spec.Buffers, lines: seq<string>)
    requires lines != []
    ensures Spec.Events(b, lines)
         == if lines[0] == "" then Spec.Dispatch(b) + Spec.Events(Spec.Buffers("", "", b.lastId), lines[1..])
            else Spec.Events(Spec.Interpret(b, lines[0]), lines[1..])
  {
    assert lines == [lines[0]] + lines[1..];
    Spec.EventsCons(b, lines[0], lines[1..]);
  }

  /** Each event needs a data line of its own, so there are never more dispatches than calls. */
  lemma {:induction false} NoMoreEventsThanCalls(eventType: string, b: Spec.Buffers, lines: seq<string>)
    requires NoBareData(lines)
    ensures |Spec.Events(b, lines)| <= |Calls(eventType, lines)| + if b.data == "" then 0 else 1
    decreases |lines|
  {
    if lines != [] {
      var line, type' := lines[0], TypeAfterLine(eventType, lines[0]);
      NoBareDataTail(lines);
      EventsStep(b, lines);
      if line == "" {
        NoMoreEventsThanCalls(type', Spec.Buffers("", "", b.lastId), lines[1..]);
      } else {
        FieldsOfLine(b, line);
        NoMoreEventsThanCalls(type', Spec.Interpret(b, line), lines[1..]);
      }
    }
  }

  lemma NormalCallsStep(eventType: string, lines: seq<string>)
    requires lines != []
    ensures var later := NormalCalls(Calls(TypeAfterLine(eventType, lines[0]), lines[1..]));
            NormalCalls(Calls(eventType, lines))
            == if IsDataLine(lines[0]) then [Normal(eventType, TrimSpace(lines[0][5..]))] + later else later
  {
    var later := Calls(TypeAfterLine(eventType, lines[0]), lines[1..]);
    if IsDataLine(lines[0]) {
      assert Calls(eventType, lines)[1..] == later;
    } else {
      assert Calls(eventType, lines) == later;
    }
  }

  lemma {:induction false} NormalEventsConcat(a: seq<Spec.Event>, b: seq<Spec.Event>)
    ensures NormalEvents(a + b) == NormalEvents(a) + NormalEvents(b)
    decreases |a|
  {
    if a == [] {
      assert a + b == b;
    } else {
      assert (a + b)[1..] == a[1..] + b;
      NormalEventsConcat(a[1..], b);
    }
  }

  /** An event with a data line is dispatched with the data of the call made for it, under its own type. */
  lemma DispatchIsOwed(b: Spec.Buffers, called: Option<string>, owed: seq<Call>)
    requires Owes(b, called, owed)
    ensures |NormalEvents(Spec.Dispatch(b))| == |owed|
    ensures NormalEvents(Spec.Dispatch(b)) == owed
       <==> (called.Some? ==> TypeName(called.value) == TypeName(b.eventType))
  {
    if called.Some? {
      assert Spec.Dispatch(b)[1..] == [];
      assert NormalEvents(Spec.Dispatch(b)) == [Normal(b.eventType, b.data[..|b.data| - 1])];
    }
  }

  lemma SameHeads<T>(a: seq<T>, b: seq<T>, c: seq<T>, d: seq<T>)
    requires |a| == |c|
    ensures a + b == c + d <==> a == c && b == d
  {
    if a + b == c + d {
      assert a == (a + b)[..|a|] && b == (a + b)[|a|..];
      assert c == (c + d)[..|c|] && d == (c + d)[|c|..];
    }
  }

  /** An event ends: the call made for it must be its dispatch, and the rest must agree. */
  lemma BlankStep(eventType: string, b: Spec.Buffers, called: Option<string>, owed: seq<Call>, lines: seq<string>)
    requires lines != [] && lines[0] == "" && Owes(b, called, owed)
    ensures Agree(eventType, b, owed, lines)
       <==> (called.Some? ==> TypeName(called.value) == TypeName(b.eventType))
            && Agree("", Spec.Buffers("", "", b.lastId), [], lines[1..])
  {
    var rest := Spec.Events(Spec.Buffers("", "", b.lastId), lines[1..]);
    var later := NormalCalls(Calls("", lines[1..]));
    EventsStep(b, lines);
    NormalCallsStep(eventType, lines);
    NormalEventsConcat(Spec.Dispatch(b), rest);
    DispatchIsOwed(b, called, owed);
    SameHeads(NormalEvents(Spec.Dispatch(b)), NormalEvents(rest), owed, later);
    assert [] + later == later;
  }

  /** The call a data line makes, as its event would be dispatched. */
  function CallOfData(eventType: string, line: string): Call
    requires IsDataLine(line)
  {
    Normal(eventType, TrimPrefix(line[5..], " "))
  }

  lemma DataIsOwed(eventType: string, b: Spec.Buffers, line: string)
    requires line != "data" && IsDataLine(line) && b.data == ""
    ensures Owes(Spec.Interpret(b, line), Some(eventType), [CallOfData(eventType, line)])
    ensures Spec.Interpret(b, line).eventType == b.eventType
    ensures CallOfData(eventType, line) == Normal(eventType, TrimSpace(line[5..]))
  {
    var next := Spec.Interpret(b, line);
    FieldsOfLine(b, line);
    assert next.data[..|next.data| - 1] == TrimPrefix(line[5..], " ");
    TrimAfterSpace(line[5..]);
    TrimTwice(line[5..]);
  }

  /** The first data line of an event moves its call from those to come to the one already made. */
  lemma DataStep(eventType: string, b: Spec.Buffers, lines: seq<string>)
    requires lines != [] && lines[0] != "data" && IsDataLine(lines[0]) && b.data == ""
    ensures Agree(eventType, b, [], lines)
       <==> Agree(eventType, Spec.Interpret(b, lines[0]), [CallOfData(eventType, lines[0])], lines[1..])
  {
    DataIsOwed(eventType, b, lines[0]);
    EventsStep(b, lines);
    NormalCallsStep(eventType, lines);
    assert TypeAfterLine(eventType, lines[0]) == eventType by {
      FieldsOfLine(b, lines[0]);
    }
    assert [] + NormalCalls(Calls(eventType, lines)) == NormalCalls(Calls(eventType, lines));
  }

  /** A second data line in one event: one call too many, for good. */
  lemma SecondDataDisagrees(eventType: string, b: Spec.Buffers, called: Option<string>, owed: seq<Call>,
      lines: seq<string>)
    requires lines != [] && NoBareData(lines) && IsDataLine(lines[0]) && called.Some? && Owes(b, called, owed)
    ensures !Agree(eventType, b, owed, lines)
  {
    NoBareDataTail(lines);
    FieldsOfLine(b, lines[0]);
    EventsStep(b, lines);
    NormalCallsStep(eventType, lines);
    var next, type' := Spec.Interpret(b, lines[0]), TypeAfterLine(eventType, lines[0]);
    NoMoreEventsThanCalls(type', next, lines[1..]);
    NormalLengths(Calls(type', lines[1..]), Spec.Events(next, lines[1..]));
  }

  /** Any other line leaves the calls as they are. */
  lemma OtherStep(eventType: string, b: Spec.Buffers, called: Option<string>, owed: seq<Call>, lines: seq<string>)
    requires lines != [] && lines[0] != "" && lines[0] != "data" && !IsDataLine(lines[0]) && Owes(b, called, owed)
    ensures var next := Spec.Interpret(b, lines[0]);
            && Owes(next, called, owed) && next.eventType == SpecTypeAfter(b.eventType, lines[0])
            && (Agree(eventType, b, owed, lines) <==> Agree(TypeAfterLine(eventType, lines[0]), next, owed, lines[1..]))
  {
    FieldsOfLine(b, lines[0]);
    EventsStep(b, lines);
    NormalCallsStep(eventType, lines);
  }

  lemma {:induction false} AgreeExactly(eventType: string, b: Spec.Buffers, called: Option<string>, owed: seq<Call>,
                                        lines: seq<string>)
    requires NoBareData(lines) && Owes(b, called, owed)
    ensures Agree(eventType, b, owed, lines) <==> OneCallPerEvent(eventType, b.eventType, called, lines)
    decreases |lines|
  {
    if lines != [] {
      var line := lines[0];
      NoBareDataTail(lines);
      if line == "" {
        BlankStep(eventType, b, called, owed, lines);
        AgreeExactly("", Spec.Buffers("", "", b.lastId), None, [], lines[1..]);
      } else if IsDataLine(line) {
        if called.Some? {
          SecondDataDisagrees(eventType, b, called, owed, lines);
        } else {
          DataIsOwed(eventType, b, line);
          DataStep(eventType, b, lines);
          AgreeExactly(eventType, Spec.Interpret(b, line), Some(eventType), [CallOfData(eventType, line)], lines[1..]);
        }
      } else {
        OtherStep(eventType, b, called, owed, lines);
        AgreeExactly(TypeAfterLine(eventType, line), Spec.Interpret(b, line), called, owed, lines[1..]);
      }
    }
  }

  /** The calls are the dispatched events, in order, up to white space around type and data, on exactly the
      streams with one data line to an event, read under the type the event ends with. */
  lemma {:induction false} CallsAreDispatchesExactly(lines: seq<string>)
    requires NoBareData(lines)
    ensures NormalCalls(Calls("", lines)) == NormalEvents(Spec.Events(Spec.EMPTY, lines))
       <==> OneCallPerEvent("", "", None, lines)
  {
    AgreeExactly("", Spec.EMPTY, None, [], lines);
    assert [] + NormalCalls(Calls("", lines)) == NormalCalls(Calls("", lines));
  }

  /** A data line of the event that has had one already. */
  lemma {:induction false} SecondDataFails(eventType: string, specType: string, called: Option<string>,
      lines: seq<string>, j: nat)
    requires called.Some? && j < |lines| && IsDataLine(lines[j]) && forall k :: 0 <= k < j ==> lines[k] != ""
    ensures !OneCallPerEvent(eventType, specType, called, lines)
    decreases j
  {
    if j > 0 && !IsDataLine(lines[0]) {
      SecondDataFails(TypeAfterLine(eventType, lines[0]), SpecTypeAfter(specType, lines[0]), called, lines[1..], j - 1);
    }
  }

  lemma {:induction false} SplitDataFails(eventType: string, specType: string, called: Option<string>,
                                          lines: seq<string>,
                                          i: nat, j: nat)
    requires i < j < |lines| && IsDataLine(lines[i]) && IsDataLine(lines[j]) && forall k :: i < k < j ==> lines[k] != ""
    ensures !OneCallPerEvent(eventType, specType, called, lines)
    decreases i
  {
    var line := lines[0];
    if i == 0 {
      SecondDataFails(eventType, specType, Some(eventType), lines[1..], j - 1);
    } else if line == "" {
      SplitDataFails("", "", None, lines[1..], i - 1, j - 1);
    } else if IsDataLine(line) {
      SplitDataFails(eventType, specType, Some(eventType), lines[1..], i - 1, j - 1);
    } else {
      SplitDataFails(TypeAfterLine(eventType, line), SpecTypeAfter(specType, line), called, lines[1..], i - 1, j - 1);
    }
  }

  /** An event whose data spans two lines, anywhere in any stream, breaks the agreement: it is one event to the
      standard and two calls to the reader, and no other event makes up for it. */
  lemma {:induction false} SplitDataDisagrees(lines: seq<string>, i: nat, j: nat)
    requires NoBareData(lines)
    requires i < j < |lines| && IsDataLine(lines[i]) && IsDataLine(lines[j]) && forall k :: i < k < j ==> lines[k] != ""
    ensures NormalCalls(Calls("", lines)) != NormalEvents(Spec.Events(Spec.EMPTY, lines))
  {
    SplitDataFails("", "", None, lines, i, j);
    CallsAreDispatchesExactly(lines);
  }

  lemma WithoutBareDataStep(lines: seq<string>)
    requires lines != []
    ensures var w := Spec.WithoutBareData(lines);
            if lines[0] == "data" then w == Spec.WithoutBareData(lines[1..])
            else w != [] && w[0] == lines[0] && w[1..] == Spec.WithoutBareData(lines[1..])
  {
  }

  lemma {:induction false} WithoutBareDataHasNone(lines: seq<string>)
    ensures NoBareData(Spec.WithoutBareData(lines))
    decreases |lines|
  {
    if lines != [] {
      WithoutBareDataHasNone(lines[1..]);
    }
  }

  lemma {:induction false} BareDataMakesNoCall(eventType: string, lines: seq<string>)
    ensures Calls(eventType, Spec.WithoutBareData(lines)) == Calls(eventType, lines)
    decreases |lines|
  {
    if lines != [] {
      WithoutBareDataStep(lines);
      BareDataMakesNoCall(TypeAfterLine(eventType, lines[0]), lines[1..]);
    }
  }

  lemma {:induction false} BareDataIsNoMatter(eventType: string, specType: string, called: Option<string>,
      lines: seq<string>)
    ensures OneCallPerEvent(eventType, specType, called, Spec.WithoutBareData(lines))
        <==> OneCallPerEvent(eventType, specType, called, lines)
    decreases |lines|
  {
    if lines != [] {
      var line := lines[0];
      WithoutBareDataStep(lines);
      if line == "" {
        BareDataIsNoMatter("", "", None, lines[1..]);
      } else if IsDataLine(line) {
        BareDataIsNoMatter(eventType, specType, Some(eventType), lines[1..]);
      } else {
        BareDataIsNoMatter(TypeAfterLine(eventType, line), SpecTypeAfter(specType, line), called, lines[1..]);
      }
    }
  }

  /** The same for every stream whatever, with lines that are just "data" taken out: the standard reads such a
      line as a data field with an empty value, and the reader takes no notice of it. */
  lemma {:induction false} CallsAreDispatchesOfRest(lines: seq<string>)
    ensures NormalCalls(Calls("", lines)) == NormalEvents(Spec.Events(Spec.EMPTY, Spec.WithoutBareData(lines)))
       <==> OneCallPerEvent("", "", None, lines)
  {
    WithoutBareDataHasNone(lines);
    BareDataMakesNoCall("", lines);
    BareDataIsNoMatter("", "", None, lines);
    CallsAreDispatchesExactly(Spec.WithoutBareData(lines));
  }
}
