/** The reader of the subprocess's output and the response channel it feeds (internal/proxy/stdio.go). */
module StdioChannel {
  import opened Text

  /** A value on the channel: an output line, or the reader's last error. */
  datatype Item = Data(line: string) | Failure(err: string)

  const CHANNEL_CAPACITY := 16

  /** Where the reader is: reading lines; holding an item it is offering to the channel, `last` when it is the
      error after the final line; about to close; returned after closing; returned without closing. */
  datatype Reader = Reading | Offering(item: Item, last: bool) | Closing | Closed | GaveUp

  /** `lines` is the subprocess's output so far and `sent` everything ever put on the channel. */
  datatype Chan = Chan(
    reader: Reader,
    lines: seq<string>,
    cancelled: bool,
    queue: seq<Item>,
    closes: nat,
    sent: seq<Item>,
    received: seq<Item>)

  const NEW_CHAN := Chan(Reading, [], false, [], 0, [], [])

  datatype ReaderAction =
    | ScanLine(line: string)
    | ScanEnd(err: Option<string>)
    | Send
    | GiveUp
    | CloseChannel
    | Cancel

  predicate CanMove(c: Chan, a: ReaderAction) {
    match a
    case ScanLine(_) => c.reader == Reading
    case ScanEnd(_) => c.reader == Reading
    case Send => c.reader.Offering? && |c.queue| < CHANNEL_CAPACITY
    case GiveUp => c.reader.Offering? && c.cancelled
    case CloseChannel => c.reader == Closing
    case Cancel => true
  }

  function Move(c: Chan, a: ReaderAction): Chan
    requires CanMove(c, a)
  {
    match a
    case ScanLine(line) =>
      var c1 := c.(lines := c.lines + [line]);
      if line == "" then c1 else c1.(reader := Offering(Data(line), false))
    case ScanEnd(err) =>
      c.(reader := match err case None => Closing case Some(e) => Offering(Failure(e), true))
    case Send =>
      var item := c.reader.item;
      c.(queue := c.queue + [item], sent := c.sent + [item], reader := if c.reader.last then Closing else Reading)
    case GiveUp =>
      // Cancelled with a line in hand the reader returns at once; with the error in hand it still closes.
      c.(reader := if c.reader.last then Closing else GaveUp)
    case CloseChannel => c.(closes := c.closes + 1, reader := Closed)
    case Cancel => c.(cancelled := true)
  }

  /** A handler takes the oldest item. */
  function Pop(c: Chan): Chan
    requires c.queue != []
  {
    c.(queue := c.queue[1..], received := c.received + [c.queue[0]])
  }

  predicate ClosedAndEmpty(c: Chan) {
    c.queue == [] && c.closes > 0
  }

  /** The non-empty lines, as items. */
  function DataItems(lines: seq<string>): seq<Item> {
    if lines == [] then []
    else
      var n := |lines| - 1;
      DataItems(lines[..n]) + if lines[n] == "" then [] else [Data(lines[n])]
  }

  /** What was sent, with what the reader still holds, is the output; an error comes last. */
  ghost predicate Faithful(c: Chan) {
    && c.received + c.queue == c.sent && |c.queue| <= 16
    && c.closes == (if c.reader == Closed then 1 else 0)
    && match c.reader
       case Reading => c.sent == DataItems(c.lines)
       case Offering(item, last) =>
         if last then c.sent == DataItems(c.lines) && item.Failure? else c.sent + [item] == DataItems(c.lines)
       case GaveUp => exists item :: c.sent + [item] == DataItems(c.lines)
       case _ => c.sent == DataItems(c.lines) || exists e :: c.sent == DataItems(c.lines) + [Failure(e)]
  }

  lemma DataItemsSnoc(lines: seq<string>, line: string)
    ensures DataItems(lines + [line]) == DataItems(lines) + if line == "" then [] else [Data(line)]
  {
    assert (lines + [line])[..|lines|] == lines;
  }

  lemma ReaderKeepsFaithful(c: Chan, a: ReaderAction)
    requires Faithful(c) && CanMove(c, a)
    ensures Faithful(Move(c, a))
  {
    match a
    case ScanLine(line) =>
      DataItemsSnoc(c.lines, line);
      assert c.sent + [] == c.sent;
    case Send =>
      assert c.received + (c.queue + [c.reader.item]) == c.received + c.queue + [c.reader.item];
    case _ =>
  }

  lemma PopKeepsFaithful(c: Chan)
    requires Faithful(c) && c.queue != []
    ensures Faithful(Pop(c))
  {
    assert c.received + [c.queue[0]] + c.queue[1..] == c.received + c.queue;
  }

  lemma QueueIsRest(c: Chan)
    requires Faithful(c)
    ensures |c.received| <= |c.sent| && c.queue == c.sent[|c.received|..]
  {
  }

  /** A prefix of the output lines, then at most one error. */
  ghost predicate PrefixThenError(sent: seq<Item>, lines: seq<string>) {
    || sent <= DataItems(lines)
    || (sent != [] && sent[|sent| - 1].Failure? && sent[..|sent| - 1] == DataItems(lines))
  }

  /** The promises of the channel in any faithful state: what was sent is a prefix of the non-empty lines in
      order, followed by at most one error, which is last; at most 16 items wait; it is closed at most once. */
  lemma ChannelCarriesOutput(c: Chan)
    requires Faithful(c)
    ensures PrefixThenError(c.sent, c.lines) && |c.sent| - |c.received| <= 16 && c.closes <= 1
  {
    match c.reader
    case Reading =>
    case Offering(item, last) =>
      assert !last ==> c.sent == DataItems(c.lines)[..|c.sent|];
    case GaveUp =>
      var item :| c.sent + [item] == DataItems(c.lines);
      assert c.sent == DataItems(c.lines)[..|c.sent|];
    case _ =>
      if e :| c.sent == DataItems(c.lines) + [Failure(e)] {
        assert c.sent[..|c.sent| - 1] == DataItems(c.lines);
      }
  }

  /** Nothing is sent after the close. */
  lemma NothingAfterClose(c: Chan, a: ReaderAction)
    requires Faithful(c) && c.closes > 0 && CanMove(c, a)
    ensures Move(c, a).sent == c.sent && Move(c, a).closes == 1
  {
  }

  /** A reader that gave up with a line in hand leaves the channel open. */
  lemma GivenUpStaysOpen(c: Chan, a: ReaderAction)
    requires Faithful(c) && c.reader == GaveUp && CanMove(c, a)
    ensures Move(c, a).reader == GaveUp && Move(c, a).closes == 0
  {
  }

  // ---------- The reader itself ----------

  /** The channel as the reader sees it. */
  class ResponseChannel {
    var items: seq<Item>
    var closed: bool

    constructor ()
      ensures items == [] && !closed
    {
      items, closed := [], false;
    }

    method Put(item: Item)
      requires !closed
      modifies this`items
      ensures items == old(items) + [item]
    {
      items := items + [item];
    }

    /** `readResponses` over the scanned lines and the scanner's final error, where the context is cancelled
        before the offer number `patience`. It closes the channel unless it gave up on a line. */
    method ReadResponses(lines: seq<string>, err: Option<string>, patience: nat) returns (offered: nat)
      requires items == [] && !closed
      modifies this
      ensures offered <= patience
      ensures var all := DataItems(lines);
              if offered < |all| then items == all[..offered] && offered == patience && !closed
              else closed && items == all + (if err.Some? && |all| < patience then [Failure(err.value)] else [])
    {
      offered := 0;
      var i := 0;
      while i < |lines|
        invariant 0 <= i <= |lines| && offered <= patience && !closed
        invariant items == DataItems(lines[..i]) && |items| == offered
        invariant DataItems(lines[..i]) <= DataItems(lines)
      {
        DataItemsPrefix(lines, i);
        DataItemsPrefix(lines, i + 1);
        if lines[i] != "" {
          if offered == patience {
            return;
          }
          Put(Data(lines[i]));
          offered := offered + 1;
        }
        i := i + 1;
      }
      assert lines[..i] == lines;
      if err.Some? && offered < patience {
        Put(Failure(err.value));
      }
      closed := true;
    }
  }

  lemma {:induction false} DataItemsPrefix(lines: seq<string>, i: nat)
    requires i <= |lines|
    ensures DataItems(lines[..i]) <= DataItems(lines)
    ensures i < |lines|
        ==> DataItems(lines[..i + 1]) == DataItems(lines[..i]) + if lines[i] == "" then [] else [Data(lines[i])]
    decreases |lines| - i
  {
    if i < |lines| {
      assert lines[..i + 1] == lines[..i] + [lines[i]];
      DataItemsSnoc(lines[..i], lines[i]);
      DataItemsPrefix(lines, i + 1);
    } else {
      assert lines[..i] == lines;
    }
  }
}
