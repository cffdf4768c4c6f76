/**
 The progress stream on the wire: the frames written by the HTTP handler and the incremental
 reader of the web client. The frame format is that of sections 9.2.5 and 9.2.6 of the WHATWG
 HTML Living Standard, cut down to what the two sides use. JSON decoding is a parameter.
 */
module Sse {
  import opened Wrappers
  import opened Text

  const SEPARATOR: string := "\n\n"

  // ---------------------------------------------------------------------------
  // Writer

  /** What the handler writes: a progress event with its encoded payload, or a keepalive comment. */
  datatype Item = Progress(payload: string) | Keepalive

  function EventFrame(eventType: string, payload: string): string {
    "event: " + eventType + "\n" + "data: " + payload
  }

  function ItemFrame(item: Item): string {
    match item
    case Progress(payload) => EventFrame("progress", payload)
    case Keepalive => ": keepalive"
  }

  function ItemFrames(items: seq<Item>): (frames: seq<string>) {
    if items == [] then [] else [ItemFrame(items[0])] + ItemFrames(items[1..])
  }

  function Render(frames: seq<string>): string
    decreases |frames|
  {
    if frames == [] then "" else frames[0] + SEPARATOR + Render(frames[1..])
  }

  /** The text of a stream: every frame is followed by a blank line. */
  function Written(items: seq<Item>): string {
    Render(ItemFrames(items))
  }

  /** The bytes on the wire: an event line, a data line and a blank line, or a comment and a blank line. */
  lemma WireFormat(item: Item, items: seq<Item>)
    ensures Written([]) == ""
    ensures Written([item] + items) ==
              (match item
               case Progress(payload) => "event: progress\ndata: " + payload + "\n\n"
               case Keepalive => ": keepalive\n\n") + Written(items)
  {
    assert ([item] + items)[1..] == items;
    assert ItemFrames([item] + items)[1..] == ItemFrames(items);
    match item
    case Progress(payload) =>
      assert ItemFrame(item) == "event: progress\ndata: " + payload;
      assert ItemFrame(item) + "\n\n" == "event: progress\ndata: " + payload + "\n\n";
    case Keepalive => assert ItemFrame(item) + "\n\n" == ": keepalive\n\n";
  }

  // ---------------------------------------------------------------------------
  // Reader

  /** Complete frames of a buffer, and the text after the last separator. */
  function Frames(buffer: string): (r: (seq<string>, string))
    decreases |buffer|
  {
    var i := IndexOf(buffer, SEPARATOR);
    if i == -1 then ([], buffer)
    else
      var (frames, rest) := Frames(buffer[i + 2..]);
      ([buffer[..i]] + frames, rest)
  }

  function Trim(s: string): string {
    TrimBy(s, JsSpace)
  }

  /** The two fields the reader keeps while it scans the lines of a frame. */
  datatype Fields = Fields(eventType: string, data: string)

  function ScanLine(f: Fields, line: string): Fields {
    if "event:" <= line then f.(eventType := Trim(line[6..]))
    else if "data:" <= line then f.(data := Trim(line[5..]))
    else f
  }

  function Scan(f: Fields, lines: seq<string>): Fields
    decreases |lines|
  {
    if lines == [] then f else Scan(ScanLine(f, lines[0]), lines[1..])
  }

  /** At most one event per frame: named "progress", with data that is non-empty and decodes. */
  function FrameEvents<E>(frame: string, decode: string -> Option<E>): (events: seq<E>) {
    var f := Scan(Fields("", ""), Split(frame, '\n'));
    if f.eventType == "progress" && f.data != "" && decode(f.data).Some? then [decode(f.data).value] else []
  }

  function FrameReader<E>(decode: string -> Option<E>): string -> seq<E> {
    (frame: string) => FrameEvents(frame, decode)
  }

  function ReadAll<E>(frames: seq<string>, read: string -> seq<E>): (events: seq<E>)
    decreases |frames|
  {
    if frames == [] then [] else read(frames[0]) + ReadAll(frames[1..], read)
  }

  /** Events found in the buffer and the leftover kept for the next chunk. */
  function Parse<E>(buffer: string, read: string -> seq<E>): (r: (seq<E>, string)) {
    var (frames, rest) := Frames(buffer);
    (ReadAll(frames, read), rest)
  }

  /** The reader fed chunk by chunk, starting with some text already buffered. */
  function Feed<E>(buffer: string, chunks: seq<string>, read: string -> seq<E>): (r: (seq<E>, string))
    decreases |chunks|
  {
    if chunks == [] then ([], buffer)
    else
      var (now, rest) := Parse(buffer + chunks[0], read);
      var (later, end) := Feed(rest, chunks[1..], read);
      (now + later, end)
  }

  function Join(chunks: seq<string>): string
    decreases |chunks|
  {
    if chunks == [] then "" else chunks[0] + Join(chunks[1..])
  }

  // ---------------------------------------------------------------------------
  // Chunking invariance

  lemma {:induction false} RestHasNoSeparator(buffer: string)
    ensures !Contains(Frames(buffer).1, SEPARATOR)
    decreases |buffer|
  {
    var i := IndexOf(buffer, SEPARATOR);
    if i == -1 {
      IndexOfFirst(buffer, SEPARATOR);
    } else {
      RestHasNoSeparator(buffer[i + 2..]);
    }
  }

  lemma FirstSeparatorStays(a: string, b: string)
    requires IndexOf(a, SEPARATOR) != -1
    ensures IndexOf(a + b, SEPARATOR) == IndexOf(a, SEPARATOR)
  {
    var i := IndexOf(a, SEPARATOR);
    IndexOfFirst(a, SEPARATOR);
    forall j | 0 <= j <= i
      ensures At(a + b, SEPARATOR, j) <==> At(a, SEPARATOR, j)
    {
      AtPrefix(a + b, a, SEPARATOR, j, |a|);
    }
    IndexOfIs(a + b, SEPARATOR, i);
  }

  lemma {:induction false} FramesOfConcat(a: string, b: string)
    ensures Frames(a + b).0 == Frames(a).0 + Frames(Frames(a).1 + b).0
    ensures Frames(a + b).1 == Frames(Frames(a).1 + b).1
    decreases |a|
  {
    var i := IndexOf(a, SEPARATOR);
    if i != -1 {
      FirstSeparatorStays(a, b);
      var rest := a[i + 2..];
      assert (a + b)[..i] == a[..i] && (a + b)[i + 2..] == rest + b;
      FramesOfConcat(rest, b);
      assert Frames(a) == ([a[..i]] + Frames(rest).0, Frames(rest).1);
      assert Frames(a + b) == ([a[..i]] + Frames(rest + b).0, Frames(rest + b).1);
    }
  }

  lemma {:induction false} ReadAllConcat<E>(f: seq<string>, g: seq<string>, read: string -> seq<E>)
    ensures ReadAll(f + g, read) == ReadAll(f, read) + ReadAll(g, read)
    decreases |f|
  {
    if f == [] {
      assert f + g == g;
    } else {
      ReadAllConcat(f[1..], g, read);
      assert (f + g)[1..] == f[1..] + g;
    }
  }

  /** Parsing text in two pieces finds the events of the whole and leaves the same remainder. */
  lemma ParseInTwoPieces<E>(a: string, b: string, read: string -> seq<E>)
    ensures var (first, rest) := Parse(a, read);
            var (second, end) := Parse(rest + b, read);
            Parse(a + b, read) == (first + second, end)
    ensures !Contains(Parse(a, read).1, SEPARATOR)
  {
    RestHasNoSeparator(a);
    FramesOfConcat(a, b);
    ReadAllConcat(Frames(a).0, Frames(Frames(a).1 + b).0, read);
  }

  lemma ParseIncomplete<E>(buffer: string, read: string -> seq<E>)
    requires !Contains(buffer, SEPARATOR)
    ensures Parse(buffer, read) == ([], buffer)
  {
    IndexOfFirst(buffer, SEPARATOR);
  }

  /** However text is cut into chunks, the reader sees what it would see in one piece. */
  lemma {:induction false} ChunkingInvariance<E>(buffer: string, chunks: seq<string>, read: string -> seq<E>)
    requires !Contains(buffer, SEPARATOR)
    ensures Feed(buffer, chunks, read) == Parse(buffer + Join(chunks), read)
    decreases |chunks|
  {
    if chunks == [] {
      assert buffer + "" == buffer;
      ParseIncomplete(buffer, read);
    } else {
      var rest := chunks[1..];
      var a, b := buffer + chunks[0], Join(rest);
      assert buffer + Join(chunks) == a + b;
      ParseInTwoPieces(a, b, read);
      var (now, left) := Parse(a, read);
      ChunkingInvariance(left, rest, read);
    }
  }

  // ---------------------------------------------------------------------------
  // Round trip

  predicate OneLine(item: Item) {
    item.Progress? ==> '\n' !in item.payload
  }

  ghost predicate NewlineFree(items: seq<Item>) {
    forall i :: 0 <= i < |items| ==> OneLine(items[i])
  }

  /** No two newlines in a row, and none at the end: the first separator is the one written after the frame. */
  lemma FirstSeparator(f: string, rest: string)
    requires Spaced(f)
    ensures IndexOf(f + SEPARATOR + rest, SEPARATOR) == |f|
  {
    var s := f + SEPARATOR + rest;
    assert s[|f|..|f| + 2] == SEPARATOR;
    forall j | 0 <= j < |f|
      ensures !At(s, SEPARATOR, j)
    {
      var two := s[j..j + 2];
      assert two[0] == f[j];
      assert f[j] == '\n' ==> two[1] == f[j + 1];
    }
    IndexOfIs(s, SEPARATOR, |f|);
  }

  predicate Spaced(f: string) {
    forall j :: 0 <= j < |f| && f[j] == '\n' ==> j + 1 < |f| && f[j + 1] != '\n'
  }

  lemma TwoLines(first: string, second: string)
    requires '\n' !in first && '\n' !in second && second != ""
    ensures Spaced(first + "\n" + second)
  {
    var f := first + "\n" + second;
    assert forall j :: 0 <= j < |first| ==> f[j] == first[j];
    assert forall j :: |first| < j < |f| ==> f[j] == second[j - |first| - 1];
  }

  lemma NoNewlines()
    ensures '\n' !in "event: progress" && '\n' !in "data: " && '\n' !in ": keepalive"
  {
    assert forall j :: 0 <= j < 15 ==> "event: progress"[j] != '\n';
    assert forall j :: 0 <= j < 11 ==> ": keepalive"[j] != '\n';
  }

  lemma ItemFrameShape(item: Item)
    requires OneLine(item)
    ensures Spaced(ItemFrame(item))
  {
    NoNewlines();
    if item.Progress? {
      var first, second := "event: progress", "data: " + item.payload;
      assert ItemFrame(item) == first + "\n" + second;
      assert second[0] == 'd';
      TwoLines(first, second);
    }
  }

  lemma {:induction false} FramesOfWritten(items: seq<Item>)
    requires NewlineFree(items)
    ensures Frames(Written(items)) == (ItemFrames(items), "")
    decreases |items|
  {
    if items == [] {
      assert !At("", SEPARATOR, 0);
    } else {
      var f, rest := ItemFrame(items[0]), Written(items[1..]);
      assert ItemFrames(items)[0] == f && ItemFrames(items)[1..] == ItemFrames(items[1..]);
      ItemFrameShape(items[0]);
      FirstSeparator(f, rest);
      var s := f + SEPARATOR + rest;
      assert s[..|f|] == f && s[|f| + 2..] == rest;
      FramesOfWritten(items[1..]);
    }
  }

  lemma TrimLeadingSpace(p: string)
    ensures Trim(" " + p) == Trim(p)
  {
    assert (" " + p)[1..] == p;
  }

  /** What the reader makes of a written item: the trimmed payload, if there is any and it decodes. */
  function ItemEvents<E>(item: Item, decode: string -> Option<E>): (events: seq<E>) {
    if item.Progress? && Trim(item.payload) != "" && decode(Trim(item.payload)).Some?
    then [decode(Trim(item.payload)).value] else []
  }

  lemma ScanEventLine(f: Fields)
    ensures ScanLine(f, "event: progress") == f.(eventType := "progress")
  {
    assert "event: progress"[6..] == " " + "progress";
    TrimLeadingSpace("progress");
  }

  lemma ScanDataLine(f: Fields, p: string)
    ensures ScanLine(f, "data: " + p) == f.(data := Trim(p))
  {
    var line := "data: " + p;
    assert line[..5] == "data:" && line[0] == 'd';
    assert line[5..] == " " + p;
    TrimLeadingSpace(p);
  }

  lemma ScanTwo(f: Fields, first: string, second: string)
    ensures Scan(f, [first, second]) == ScanLine(ScanLine(f, first), second)
  {
    assert [first, second][1..] == [second] && [second][1..] == [];
    var g := ScanLine(f, first);
    assert Scan(f, [first, second]) == Scan(g, [second]);
    assert Scan(g, [second]) == Scan(ScanLine(g, second), []);
  }

  lemma ReadItem<E>(item: Item, decode: string -> Option<E>)
    requires OneLine(item)
    ensures FrameEvents(ItemFrame(item), decode) == ItemEvents(item, decode)
  {
    match item
    case Keepalive =>
      SplitPlain(": keepalive", '\n');
      assert Scan(Fields("", ""), [": keepalive"]) == Fields("", "");
    case Progress(p) =>
      var first, second := "event: progress", "data: " + p;
      SplitFirst(first, second, '\n');
      SplitPlain(second, '\n');
      assert ItemFrame(item) == first + ['\n'] + second;
      assert [first] + [second] == [first, second];
      ScanTwo(Fields("", ""), first, second);
      ScanEventLine(Fields("", ""));
      ScanDataLine(Fields("progress", ""), p);
  }

  function Delivered<E>(items: seq<Item>, decode: string -> Option<E>): (events: seq<E>)
    decreases |items|
  {
    if items == [] then [] else ItemEvents(items[0], decode) + Delivered(items[1..], decode)
  }

  lemma {:induction false} EventsOfFrames<E>(items: seq<Item>, decode: string -> Option<E>)
    requires NewlineFree(items)
    ensures ReadAll(ItemFrames(items), FrameReader(decode)) == Delivered(items, decode)
    decreases |items|
  {
    if items != [] {
      ReadItem(items[0], decode);
      EventsOfFrames(items[1..], decode);
      assert ItemFrames(items)[1..] == ItemFrames(items[1..]);
    }
  }

  /** For newline-free payloads, keepalives in between and any chunking, the reader's output is exact. */
  lemma StreamReading<E>(items: seq<Item>, chunks: seq<string>, decode: string -> Option<E>)
    requires NewlineFree(items)
    requires Join(chunks) == Written(items)
    ensures Feed("", chunks, FrameReader(decode)) == (Delivered(items, decode), "")
  {
    assert !Contains("", SEPARATOR);
    ChunkingInvariance("", chunks, FrameReader(decode));
    assert "" + Join(chunks) == Written(items);
    FramesOfWritten(items);
    EventsOfFrames(items, decode);
  }

  /** The payloads among the items, in order. */
  function Payloads(items: seq<Item>): (ps: seq<string>) {
    if items == [] then []
    else (if items[0].Progress? then [items[0].payload] else []) + Payloads(items[1..])
  }

  /** A payload the reader returns as written: there is something in it and trimming takes nothing away. */
  predicate Trimmed(p: string) {
    p != "" && Trim(p) == p
  }

  function Verbatim(p: string): Option<string> {
    Some(p)
  }

  ghost predicate AllTrimmed(items: seq<Item>) {
    forall i :: 0 <= i < |items| && items[i].Progress? ==> Trimmed(items[i].payload)
  }

  lemma {:induction false} DeliveredAtMost(items: seq<Item>)
    ensures |Delivered(items, Verbatim)| <= |Payloads(items)|
    decreases |items|
  {
    if items != [] { DeliveredAtMost(items[1..]); }
  }

  lemma TrimmedTail(items: seq<Item>)
    requires items != []
    ensures AllTrimmed(items) <==> (items[0].Progress? ==> Trimmed(items[0].payload)) && AllTrimmed(items[1..])
  {
    assert forall i :: 1 <= i < |items| ==> items[i] == items[1..][i - 1];
  }

  lemma {:induction false} DeliveredExactly(items: seq<Item>)
    ensures Delivered(items, Verbatim) == Payloads(items) <==> AllTrimmed(items)
    decreases |items|
  {
    if items != [] {
      DeliveredExactly(items[1..]);
      DeliveredAtMost(items[1..]);
      TrimmedTail(items);
      var all, wanted := Delivered(items, Verbatim), Payloads(items);
      if items[0].Progress? && Trim(items[0].payload) != "" {
        assert all[0] == Trim(items[0].payload) && all[1..] == Delivered(items[1..], Verbatim);
        assert wanted[0] == items[0].payload && wanted[1..] == Payloads(items[1..]);
      } else {
        assert ItemEvents(items[0], Verbatim) == [];
        assert all == Delivered(items[1..], Verbatim);
        assert items[0].Progress? ==> |wanted| == 1 + |Payloads(items[1..])|;
        assert items[0].Keepalive? ==> wanted == Payloads(items[1..]);
      }
    }
  }

  /** Round trip: trimmed, newline-free payloads come back unchanged, in order, with nothing left over. */
  lemma RoundTrip(items: seq<Item>, chunks: seq<string>)
    requires NewlineFree(items) && AllTrimmed(items) && Join(chunks) == Written(items)
    ensures Feed("", chunks, FrameReader(Verbatim)) == (Payloads(items), "")
  {
    StreamReading(items, chunks, Verbatim);
    DeliveredExactly(items);
  }

  /** Being trimmed is also necessary: whatever is written and however it is cut, only then does all come back. */
  lemma RoundTripExactly(items: seq<Item>, chunks: seq<string>)
    requires NewlineFree(items) && Join(chunks) == Written(items)
    ensures Feed("", chunks, FrameReader(Verbatim)) == (Payloads(items), "") <==> AllTrimmed(items)
  {
    StreamReading(items, chunks, Verbatim);
    DeliveredExactly(items);
  }

  // ---------------------------------------------------------------------------
  // The reader's loops

  method ScanFrame(frame: string) returns (f: Fields)
    ensures f == Scan(Fields("", ""), Split(frame, '\n'))
  {
    var lines := Split(frame, '\n');
    f := Fields("", "");
    var i := 0;
    while i < |lines|
      invariant 0 <= i <= |lines|
      invariant Scan(f, lines[i..]) == Scan(Fields("", ""), lines)
    {
      var line := lines[i];
      assert lines[i..][0] == line && lines[i..][1..] == lines[i + 1..];
      if "event:" <= line {
        f := f.(eventType := Trim(line[6..]));
      } else if "data:" <= line {
        f := f.(data := Trim(line[5..]));
      }
      i := i + 1;
    }
  }

  /** What the last line with the prefix says, without the white space around it; nothing if there is no such line. */
  function LastField(lines: seq<string>, prefix: string): string
    decreases |lines|
  {
    if lines == [] then ""
    else
      var last := lines[|lines| - 1];
      if prefix <= last then Trim(last[|prefix|..]) else LastField(lines[..|lines| - 1], prefix)
  }

  lemma {:induction false} ScanLast(f: Fields, lines: seq<string>, line: string)
    ensures Scan(f, lines + [line]) == ScanLine(Scan(f, lines), line)
    decreases |lines|
  {
    if lines == [] {
      assert lines + [line] == [line] && [line][1..] == [];
      assert Scan(ScanLine(f, line), []) == ScanLine(f, line);
    } else {
      assert (lines + [line])[1..] == lines[1..] + [line];
      ScanLast(ScanLine(f, lines[0]), lines[1..], line);
    }
  }

  /** Scanning a frame from the top keeps the last event line and the last data line. */
  lemma {:induction false} ScanKeepsLast(lines: seq<string>)
    ensures Scan(Fields("", ""), lines) == Fields(LastField(lines, "event:"), LastField(lines, "data:"))
    decreases |lines|
  {
    if lines != [] {
      var before, line := lines[..|lines| - 1], lines[|lines| - 1];
      ScanKeepsLast(before);
      assert lines == before + [line];
      ScanLast(Fields("", ""), before, line);
      assert "event:" <= line ==> line[0] == 'e';
      assert "data:" <= line ==> line[0] == 'd';
    }
  }

  /**
   The event of one frame: the decoded remainder of its last data line, if that is not empty and decodes, and the last
   event line says progress.
   */
  method ReadFrame<E>(frame: string, decode: string -> Option<E>) returns (found: seq<E>)
    ensures var lines := Split(frame, '\n');
            var name, data := LastField(lines, "event:"), LastField(lines, "data:");
            && (found != [] <==> name == "progress" && data != "" && decode(data).Some?)
            && (found != [] ==> found == [decode(data).value])
    ensures found == FrameReader(decode)(frame)
  {
    var f := ScanFrame(frame);
    ScanKeepsLast(Split(frame, '\n'));
    if f.eventType == "progress" && f.data != "" && decode(f.data).Some? {
      found := [decode(f.data).value];
    } else {
      found := [];
    }
  }

  lemma ParseStep<E>(buffer: string, read: string -> seq<E>)
    requires IndexOf(buffer, SEPARATOR) != -1
    ensures var i := IndexOf(buffer, SEPARATOR);
            var after := Parse(buffer[i + 2..], read);
            Parse(buffer, read) == (read(buffer[..i]) + after.0, after.1)
  {
    var i := IndexOf(buffer, SEPARATOR);
    var frames := Frames(buffer[i + 2..]).0;
    assert ([buffer[..i]] + frames)[1..] == frames;
  }

  method ParseSseFrames<E>(buffer: string, decode: string -> Option<E>) returns (events: seq<E>, rest: string)
    ensures (events, rest) == Parse(buffer, FrameReader(decode))
  {
    events, rest := [], buffer;
    ghost var read := FrameReader(decode);
    var idx := IndexOf(rest, SEPARATOR);
    while idx != -1
      invariant idx == IndexOf(rest, SEPARATOR) && Parsing(buffer, events, rest, read)
      decreases |rest|
    {
      ParsingNext(buffer, events, rest, read);
      var found := ReadFrame(rest[..idx], decode);
      events, rest := events + found, rest[idx + 2..];
      idx := IndexOf(rest, SEPARATOR);
    }
    assert Parse(rest, read) == ([], rest);
    assert events + [] == events;
  }

  /** The events so far and those of the rest are those of the whole. */
  ghost predicate Parsing<E>(buffer: string, events: seq<E>, rest: string, read: string -> seq<E>) {
    Parse(buffer, read).0 == events + Parse(rest, read).0 && Parse(buffer, read).1 == Parse(rest, read).1
  }

  lemma ParsingNext<E>(buffer: string, events: seq<E>, rest: string, read: string -> seq<E>)
    requires Parsing(buffer, events, rest, read) && IndexOf(rest, SEPARATOR) != -1
    ensures var i := IndexOf(rest, SEPARATOR); Parsing(buffer, events + read(rest[..i]), rest[i + 2..], read)
  {
    ParseStep(rest, read);
  }

  const INITIAL_BACKOFF_MS: nat := 1000
  const MAX_BACKOFF_MS: nat := 30000

  function Min(a: nat, b: nat): nat {
    if a <= b then a else b
  }

  function Power2(n: nat): nat {
    if n == 0 then 1 else 2 * Power2(n - 1)
  }

  /** What one connection gives; each starts with an empty buffer. */
  function Yielded<E>(decode: string -> Option<E>): seq<string> -> seq<E> {
    (chunks: seq<string>) => Feed("", chunks, FrameReader(decode)).0
  }

  /** How many connections up to and including number `i` were silent since the last one that was not (or the first). */
  function SilentRun<E>(connections: seq<seq<string>>, outcome: seq<string> -> seq<E>, i: nat): nat
    requires i < |connections|
    decreases i
  {
    if i == 0 || |outcome(connections[i])| > 0 then 0 else SilentRun(connections, outcome, i - 1) + 1
  }

  /** One second after a connection with events, else twice the last wait, at most thirty seconds. */
  predicate WaitAt<E>(waits: seq<nat>, connections: seq<seq<string>>, outcome: seq<string> -> seq<E>, i: nat)
    requires i < |waits| && i < |connections|
  {
    waits[i] == if i == 0 || |outcome(connections[i])| > 0 then INITIAL_BACKOFF_MS
                else Min(waits[i - 1] * 2, MAX_BACKOFF_MS)
  }

  predicate Backoff<E>(waits: seq<nat>, connections: seq<seq<string>>, outcome: seq<string> -> seq<E>) {
    && |waits| <= |connections|
    && forall i :: 0 <= i < |waits| ==> WaitAt(waits, connections, outcome, i)
  }

  lemma BackoffExtend<E>(
      waits: seq<nat>, connections: seq<seq<string>>, outcome: seq<string> -> seq<E>, wait: nat)
    requires Backoff(waits, connections, outcome) && |waits| < |connections|
    requires WaitAt(waits + [wait], connections, outcome, |waits|)
    ensures Backoff(waits + [wait], connections, outcome)
  {
    forall i | 0 <= i < |waits|
      ensures WaitAt(waits + [wait], connections, outcome, i)
    {
      assert WaitAt(waits, connections, outcome, i);
    }
  }

  /** Exponential growth up to the cap, counted from the last connection that was not silent. */
  lemma {:induction false} BackoffClosedForm<E>(
      waits: seq<nat>, connections: seq<seq<string>>, outcome: seq<string> -> seq<E>, i: nat)
    requires Backoff(waits, connections, outcome) && i < |waits|
    ensures waits[i] == Min(1000 * Power2(SilentRun(connections, outcome, i)), 30000)
    decreases i
  {
    assert WaitAt(waits, connections, outcome, i);
    if i > 0 && |outcome(connections[i])| == 0 {
      BackoffClosedForm(waits, connections, outcome, i - 1);
      assert Power2(SilentRun(connections, outcome, i)) == 2 * Power2(SilentRun(connections, outcome, i - 1));
    } else {
      assert Power2(SilentRun(connections, outcome, i)) == 1;
    }
  }

  function Received<E>(connections: seq<seq<string>>, outcome: seq<string> -> seq<E>): seq<E>
    decreases |connections|
  {
    if connections == [] then []
    else
      var n := |connections| - 1;
      Received(connections[..n], outcome) + outcome(connections[n])
  }

  lemma {:induction false} FeedExtend<E>(buffer: string, chunks: seq<string>, chunk: string, read: string -> seq<E>)
    ensures var (events, rest) := Feed(buffer, chunks, read);
            var (more, end) := Parse(rest + chunk, read);
            Feed(buffer, chunks + [chunk], read) == (events + more, end)
    decreases |chunks|
  {
    if chunks == [] {
      assert chunks + [chunk] == [chunk] && [chunk][1..] == [];
      var more := Parse(buffer + chunk, read).0;
      assert more + [] == more == [] + more;
    } else {
      assert (chunks + [chunk])[1..] == chunks[1..] + [chunk];
      var (now, left) := Parse(buffer + chunks[0], read);
      FeedExtend(left, chunks[1..], chunk, read);
      var (later, rest) := Feed(left, chunks[1..], read);
      var more := Parse(rest + chunk, read).0;
      assert (now + later) + more == now + (later + more);
    }
  }

  /** One connection: the buffer loop. */
  method ReadConnection<E>(chunks: seq<string>, decode: string -> Option<E>) returns (events: seq<E>, buffer: string)
    ensures (events, buffer) == Feed("", chunks, FrameReader(decode))
  {
    events, buffer := [], "";
    var i := 0;
    while i < |chunks|
      invariant 0 <= i <= |chunks|
      invariant (events, buffer) == Feed("", chunks[..i], FrameReader(decode))
    {
      assert chunks[..i + 1] == chunks[..i] + [chunks[i]];
      FeedExtend("", chunks[..i], chunks[i], FrameReader(decode));
      var found, rest := ParseSseFrames(buffer + chunks[i], decode);
      events, buffer := events + found, rest;
      i := i + 1;
    }
    assert chunks[..|chunks|] == chunks;
  }

  /** An attempt to connect: refused, without a readable body, or open until the server ends it. */
  datatype Attempt = Refused(status: nat) | Unreadable | Opened(chunks: seq<string>)

  /** The connections up to the first attempt that fails. */
  function Usable(attempts: seq<Attempt>): seq<seq<string>>
    decreases |attempts|
  {
    if attempts == [] || !attempts[0].Opened? then [] else [attempts[0].chunks] + Usable(attempts[1..])
  }

  /**
   The client over a series of attempts to connect: what it gives, how long it waits after each connection that has
   ended, and whether it gave up with an error, which it does at the first attempt that fails and never waits for.
   */
  method StreamProgress<E>(attempts: seq<Attempt>, decode: string -> Option<E>)
    returns (events: seq<E>, waits: seq<nat>, error: bool)
    ensures events == Received(Usable(attempts), Yielded(decode))
    ensures |waits| == |Usable(attempts)| && Backoff(waits, Usable(attempts), Yielded(decode))
    ensures error <==> |Usable(attempts)| < |attempts|
  {
    ghost var outcome, connections := Yielded(decode), Usable(attempts);
    events, waits, error := [], [], false;
    var backoff := INITIAL_BACKOFF_MS;
    var n := 0;
    while n < |attempts| && attempts[n].Opened?
      invariant n <= |attempts| && n <= |connections| && connections[n..] == Usable(attempts[n..])
      invariant Streamed(connections, outcome, n, events, waits, backoff)
      decreases |attempts| - n
    {
      NextUsable(attempts, connections, n);
      var found, _ := ReadConnection(attempts[n].chunks, decode);
      StreamedNext(connections, outcome, n, events, waits, backoff, found);
      if |found| != 0 { backoff := INITIAL_BACKOFF_MS; }
      events := events + found;
      waits := waits + [backoff];
      backoff := Min(backoff * 2, MAX_BACKOFF_MS);
      n := n + 1;
    }
    error := n < |attempts|;
    LastUsable(attempts, n);
    assert connections[..n] == connections;
  }

  /** What the first `n` connections give, the waits after them, and the wait that would come next. */
  ghost predicate Streamed<E>(
    connections: seq<seq<string>>, outcome: seq<string> -> seq<E>, n: nat, events: seq<E>, waits: seq<nat>,
    backoff: nat)
  {
    && n <= |connections| && |waits| == n && events == Received(connections[..n], outcome)
    && Backoff(waits, connections, outcome)
    && backoff == if n == 0 then INITIAL_BACKOFF_MS else Min(waits[n - 1] * 2, MAX_BACKOFF_MS)
  }

  lemma StreamedNext<E>(
    connections: seq<seq<string>>, outcome: seq<string> -> seq<E>, n: nat, events: seq<E>, waits: seq<nat>,
    backoff: nat, found: seq<E>)
    requires n < |connections| && Streamed(connections, outcome, n, events, waits, backoff)
    requires found == outcome(connections[n])
    ensures var wait := if |found| != 0 then INITIAL_BACKOFF_MS else backoff;
            Streamed(connections, outcome, n + 1, events + found, waits + [wait], Min(wait * 2, MAX_BACKOFF_MS))
  {
    var wait := if |found| != 0 then INITIAL_BACKOFF_MS else backoff;
    assert connections[..n + 1][..n] == connections[..n];
    BackoffExtend(waits, connections, outcome, wait);
  }

  lemma LastUsable(attempts: seq<Attempt>, n: nat)
    requires n <= |attempts| && (n < |attempts| ==> !attempts[n].Opened?)
    ensures Usable(attempts[n..]) == []
  {
  }

  lemma NextUsable(attempts: seq<Attempt>, connections: seq<seq<string>>, n: nat)
    requires n < |attempts| && n <= |connections| && attempts[n].Opened?
    requires connections[n..] == Usable(attempts[n..])
    ensures n < |connections| && connections[n] == attempts[n].chunks
    ensures connections[n + 1..] == Usable(attempts[n + 1..])
  {
    assert attempts[n..][0] == attempts[n] && attempts[n..][1..] == attempts[n + 1..];
    assert connections[n..][0] == attempts[n].chunks && connections[n..][1..] == connections[n + 1..];
  }
}
