/** Server-sent events as sections 9.2.5 (parsing) and 9.2.6 (interpreting) of the HTML Living Standard define
    them, on byte strings. This is the reference the two readers of the proxy are measured against. */
module EventStreamSpec {
  import opened Text

  datatype Event = Event(eventType: string, data: string, lastId: string)

  datatype Buffers = Buffers(data: string, eventType: string, lastId: string)

  const EMPTY := Buffers("", "", "")

  const BOM := "\U{EF}\U{BB}\U{BF}"

  function EndOfLine(s: string): (i: nat)
    ensures i <= |s|
  {
    var lf, cr := IndexOf(s, LF), IndexOf(s, CR);
    if lf < cr then lf else cr
  }

  /** Section 9.2.5: lines end in CR LF, LF or CR. An incomplete line at the end of the stream is pending data. */
  function Lines(s: string): seq<string> {
    var n := EndOfLine(s);
    if n == |s| then []
    else
      var next := if s[n] == CR && n + 1 < |s| && s[n + 1] == LF then n + 2 else n + 1;
      [s[..n]] + Lines(s[next..])
  }

  function StreamLines(s: string): seq<string> {
    Lines(TrimPrefix(s, BOM))
  }

  function FieldOf(line: string): (string, string) {
    var i := IndexOf(line, ':');
    if i == |line| then (line, "") else (line[..i], TrimPrefix(line[i + 1..], " "))
  }

  /** Section 9.2.6, a non-empty line. A comment has an empty field name. */
  function Interpret(b: Buffers, line: string): Buffers {
    var (name, value) := FieldOf(line);
    if name == "event" then b.(eventType := value)
    else if name == "data" then b.(data := b.data + value + [LF])
    else if name == "id" && NUL !in value then b.(lastId := value)
    else b
  }

  /** Section 9.2.6, a blank line. The data buffer loses its last line feed. */
  function Dispatch(b: Buffers): seq<Event> {
    if b.data == "" then []
    else
      var last := |b.data| - 1;
      var data := if b.data[last] == LF then b.data[..last] else b.data;
      [Event(if b.eventType == "" then "message" else b.eventType, data, b.lastId)]
  }

  function Events(b: Buffers, lines: seq<string>): seq<Event>
    decreases |lines|
  {
    if lines == [] then []
    else if lines[0] == "" then Dispatch(b) + Events(Buffers("", "", b.lastId), lines[1..])
    else Events(Interpret(b, lines[0]), lines[1..])
  }

  lemma EventsCons(b: Buffers, line: string, rest: seq<string>)
    ensures Events(b, [line] + rest)
         == if line == "" then Dispatch(b) + Events(Buffers("", "", b.lastId), rest)
             else Events(Interpret(b, line), rest)
  {
    assert ([line] + rest)[1..] == rest;
  }

  /** Neither reader of the proxy knows a line that is just a field name, which the standard reads as that field with
      an empty value. */
  function WithoutBareData(lines: seq<string>): seq<string> {
    if lines == [] then []
    else (if lines[0] == "data" then [] else [lines[0]]) + WithoutBareData(lines[1..])
  }

  function DataOf(events: seq<Event>): seq<string> {
    if events == [] then [] else [events[0].data] + DataOf(events[1..])
  }

  /** The field a line with the given name and a colon holds. */
  lemma FieldWithName(line: string, name: string)
    requires ':' !in name
    ensures HasPrefix(line, name + ":") ==> FieldOf(line) == (name, TrimPrefix(line[|name| + 1..], " "))
    ensures FieldOf(line).0 == name ==> HasPrefix(line, name + ":") || line == name
  {
    var i := IndexOf(line, ':');
    if HasPrefix(line, name + ":") {
      assert line[|name|] == (name + ":")[|name|];
      assert forall k :: 0 <= k < |name| ==> line[k] == (name + ":")[k] && name[k] in name;
      assert line[..|name|] == name;
      IndexOfUnique(line, ':', |name|);
    }
    assert i < |line| ==> line[..i + 1] == line[..i] + ":";
  }
}
