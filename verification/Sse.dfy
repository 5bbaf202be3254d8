/**
 Server-sent events as the chat endpoint prints them and the browser reads them: frames of an event line and
 a data line, cut into arbitrary fragments by the network, split again at blank lines. The framing is that of
 section 9.2.5, "Parsing an event stream", of the WHATWG HTML Living Standard.
 */
module Sse {
  import opened Prelude
  import opened Text

  datatype Event = Event(name: string, data: string)

  // ---- printing ----

  function EventLine(e: Event): string {
    "event: " + e.name
  }

  function DataLine(e: Event): string {
    "data: " + e.data
  }

  function Block(e: Event): string {
    EventLine(e) + "\n" + DataLine(e)
  }

  function Frame(e: Event): string {
    Block(e) + "\n\n"
  }

  function Stream(events: seq<Event>): string {
    if events == [] then "" else Frame(events[0]) + Stream(events[1..])
  }

  // ---- the browser's notion of white space and lines ----

  predicate JsSpace(c: char) {
    || '\t' <= c <= '\r' || c == ' ' || c == '\U{A0}' || c == '\U{1680}' || '\U{2000}' <= c <= '\U{200A}'
    || c == '\U{2028}' || c == '\U{2029}' || c == '\U{202F}' || c == '\U{205F}' || c == '\U{3000}' || c == '\U{FEFF}'
  }

  function TrimStart(s: string): string {
    if s == "" || !JsSpace(s[0]) then s else TrimStart(s[1..])
  }

  function TrimEnd(s: string): string {
    if s == "" || !JsSpace(s[|s| - 1]) then s else TrimEnd(s[..|s| - 1])
  }

  function Trim(s: string): string {
    TrimEnd(TrimStart(s))
  }

  predicate HasNo(s: string, c: char) {
    forall k :: 0 <= k < |s| ==> s[k] != c
  }

  /** What may be printed: a name without white space around it and one-line data that starts visibly. */
  ghost predicate Printable(e: Event) {
    && e.name != "" && !JsSpace(e.name[0]) && !JsSpace(e.name[|e.name| - 1])
    && HasNo(e.name, '\n') && HasNo(e.name, '\r')
    && e.data != "" && !JsSpace(e.data[0])
    && HasNo(e.data, '\n') && HasNo(e.data, '\r')
  }

  ghost predicate AllPrintable(events: seq<Event>) {
    forall k :: 0 <= k < |events| ==> Printable(events[k])
  }

  /** indexOf("\n\n", from); the length of the text when there is none. */
  function Boundary(s: string, from: nat): (i: nat)
    requires from <= |s|
    ensures from <= i <= |s|
    ensures i < |s| ==> i + 1 < |s| && s[i] == '\n' && s[i + 1] == '\n'
    ensures forall k :: from <= k < i && k + 1 < |s| ==> s[k] != '\n' || s[k + 1] != '\n'
    decreases |s| - from
  {
    if from + 1 >= |s| then |s|
    else if s[from] == '\n' && s[from + 1] == '\n' then from
    else Boundary(s, from + 1)
  }

  /** indexOf("\n", from), or the length of the text. */
  function LineEnd(s: string, from: nat): (i: nat)
    requires from <= |s|
    ensures from <= i <= |s|
    ensures i < |s| ==> s[i] == '\n'
    ensures forall k :: from <= k < i ==> s[k] != '\n'
    decreases |s| - from
  {
    if from == |s| || s[from] == '\n' then from else LineEnd(s, from + 1)
  }

  /** split("\n") */
  function Lines(s: string): seq<string>
    decreases |s|
  {
    var i := LineEnd(s, 0);
    if i == |s| then [s] else [s[..i]] + Lines(s[i + 1..])
  }

  // ---- reading one block ----

  predicate StartsWith(s: string, prefix: string) {
    prefix <= s
  }

  datatype Fields = Fields(name: string, data: seq<string>)

  /** Later event lines replace the name, data lines add up, other lines are ignored. */
  function ReadLines(lines: seq<string>): Fields {
    if lines == [] then Fields("message", [])
    else
      var before, line := ReadLines(lines[..|lines| - 1]), lines[|lines| - 1];
      if StartsWith(line, "event:") then before.(name := Trim(line[6..]))
      else if StartsWith(line, "data:") then before.(data := before.data + [TrimStart(line[5..])])
      else before
  }

  /** The event of a block; a blank block and a block without data give none. */
  function ReadBlock(block: string): Option<Event> {
    if Trim(block) == "" then None
    else
      var fields := ReadLines(Lines(block));
      if fields.data == [] then None else Some(Event(fields.name, Join(fields.data, "\n")))
  }

  // ---- splitting what has arrived ----

  datatype Scanned = Scanned(blocks: seq<string>, rest: string)

  /** The complete blocks of a text, and the unfinished tail that stays in the buffer. */
  function Scan(s: string): Scanned
    decreases |s|
  {
    var i := Boundary(s, 0);
    if i == |s| then Scanned([], s)
    else
      var later := Scan(s[i + 2..]);
      Scanned([s[..i]] + later.blocks, later.rest)
  }

  lemma ScanAt(s: string, i: nat)
    requires i + 1 < |s| && s[i] == '\n' && s[i + 1] == '\n'
    requires forall k :: 0 <= k < i ==> s[k] != '\n' || s[k + 1] != '\n'
    ensures Scan(s) == Scanned([s[..i]] + Scan(s[i + 2..]).blocks, Scan(s[i + 2..]).rest)
  {
    assert Boundary(s, 0) == i;
  }

  lemma ScanOpen(s: string)
    requires forall k :: 0 <= k < |s| - 1 ==> s[k] != '\n' || s[k + 1] != '\n'
    ensures Scan(s) == Scanned([], s)
  {
    assert Boundary(s, 0) == |s|;
  }

  /** However the text arrives, scanning piece by piece with the tail kept finds the same blocks. */
  lemma {:induction false} ScanInPieces(a: string, b: string)
    ensures Scan(a + b) == Scanned(Scan(a).blocks + Scan(Scan(a).rest + b).blocks, Scan(Scan(a).rest + b).rest)
    decreases |a|
  {
    hide Scan;
    var i := Boundary(a, 0);
    if i < |a| {
      assert (a + b)[i + 2..] == a[i + 2..] + b && (a + b)[..i] == a[..i];
      forall k | 0 <= k < i ensures (a + b)[k] != '\n' || (a + b)[k + 1] != '\n' {}
      ScanAt(a + b, i);
      ScanAt(a, i);
      ScanInPieces(a[i + 2..], b);
    } else {
      ScanOpen(a);
    }
  }

  // ---- a printed block reads back ----

  lemma TrimStartKeeps(s: string)
    requires s != "" && !JsSpace(s[0])
    ensures TrimStart(" " + s) == s && TrimStart(s) == s && Trim(s) != ""
  {
    assert (" " + s)[1..] == s;
    TrimEndKeepsFirst(s);
  }

  lemma {:induction false} TrimEndKeepsFirst(s: string)
    requires s != "" && !JsSpace(s[0])
    ensures TrimEnd(s) != ""
    decreases |s|
  {
    if JsSpace(s[|s| - 1]) { TrimEndKeepsFirst(s[..|s| - 1]); }
  }

  lemma OneLine(s: string)
    requires HasNo(s, '\n')
    ensures Lines(s) == [s]
  {
    assert LineEnd(s, 0) == |s|;
  }

  lemma FirstLine(first: string, rest: string)
    requires HasNo(first, '\n')
    ensures Lines(first + "\n" + rest) == [first] + Lines(rest)
  {
    var s := first + "\n" + rest;
    forall k | 0 <= k < |first| ensures s[k] != '\n' { assert s[k] == first[k]; }
    assert s[|first|] == '\n';
    assert LineEnd(s, 0) == |first|;
    assert s[..|first|] == first && s[|first| + 1..] == rest;
  }

  lemma LinesStartAsPrinted(e: Event)
    requires Printable(e)
    ensures HasNo(EventLine(e), '\n') && HasNo(DataLine(e), '\n')
    ensures HasNo(EventLine(e), '\r') && HasNo(DataLine(e), '\r')
    ensures EventLine(e) != "" && EventLine(e)[0] == 'e'
    ensures StartsWith(EventLine(e), "event:") && EventLine(e)[6..] == " " + e.name
    ensures |DataLine(e)| == |e.data| + 6 && DataLine(e)[..5] == "data:" && DataLine(e)[5..] == " " + e.data
  {
    assert EventLine(e)[..6] == "event:";
  }

  lemma ReadsFirstLine(e: Event)
    requires Printable(e)
    ensures ReadLines([EventLine(e)]) == Fields(e.name, [])
  {
    LinesStartAsPrinted(e);
    TrimStartKeeps(e.name);
    hide EventLine;
    var none: seq<string> := [EventLine(e)][..0];
    assert ReadLines(none) == Fields("message", []);
  }

  lemma NoDataLine(line: string)
    requires line != "" && line[0] == 'e'
    ensures ReadLines([line]).data == []
  {
    assert !StartsWith(line, "data:") by { assert "data:"[0] == 'd'; }
    var none: seq<string> := [line][..0];
    assert ReadLines(none) == Fields("message", []);
  }

  /** What the browser makes of an event line followed by a data line that may be cut short after its colon. */
  lemma ReadsDataLine(first: string, name: string, line: string)
    requires ReadLines([first]) == Fields(name, [])
    ensures StartsWith(line, "data:") ==> ReadLines([first, line]) == Fields(name, [TrimStart(line[5..])])
    ensures |line| < 5 ==> ReadLines([first, line]) == Fields(name, [])
  {
    assert [first, line][..1] == [first];
    assert StartsWith(line, "data:") ==> line[0] == 'd';
    assert StartsWith(line, "event:") ==> line[0] == 'e';
  }

  /** The printed event cut off after `n` characters of its block. */
  function Cut(e: Event, n: nat): string
    requires n <= |Block(e)|
  {
    Block(e)[..n]
  }

  /** The whole block reads back as its event, with or without the first of the two line ends after it. */
  lemma BlockReadsBack(e: Event)
    requires Printable(e)
    ensures ReadBlock(Block(e)) == Some(e) && ReadBlock(Block(e) + "\n") == Some(e)
  {
    hide EventLine, DataLine, ReadBlock, ReadLines;
    var first, second := EventLine(e), DataLine(e);
    LinesStartAsPrinted(e);
    CutDataLine(e, |second|);
    assert second[..|second|] == second && e.data[..|e.data|] == e.data;
    TwoLinesRead(first, second);
    OnlyOneData(e.name, e.data, Block(e));
    assert Block(e) + "\n" == first + "\n" + (second + "\n");
    OnlyOneData(e.name, e.data, Block(e) + "\n");
    assert ReadBlock(Block(e)) == Some(e) && ReadBlock(Block(e) + "\n") == Some(e);
  }

  lemma OnlyOneData(name: string, data: string, block: string)
    requires ReadsAs(block, Fields(name, [data]))
    ensures ReadBlock(block) == Some(Event(name, data))
  {
    hide ReadBlock;
    assert Join([data], "\n") == data;
  }

  /** Nothing, or the event with a prefix of its data. */
  ghost predicate PartOf(o: Option<Event>, e: Event) {
    o == None || exists m: nat :: m <= |e.data| && o == Some(Event(e.name, e.data[..m]))
  }

  /** A block that is cut short gives nothing, or its event with a prefix of the data. */
  lemma CutBlockReads(e: Event, n: nat)
    requires Printable(e) && n <= |Block(e)|
    ensures PartOf(ReadBlock(Cut(e, n)), e)
  {
    var first := EventLine(e);
    LinesStartAsPrinted(e);
    hide EventLine, DataLine;
    if 0 < n <= |first| {
      assert Cut(e, n) == first[..n];
      CutInEventLine(first, n);
    } else if |first| < n {
      var line := DataLine(e)[..n - |first| - 1];
      assert Cut(e, n) == first + "\n" + line;
      CutDataLine(e, n - |first| - 1);
      TwoLinesRead(first, line);
      hide ReadBlock, ReadLines, Cut;
    }
  }

  lemma CutInEventLine(first: string, n: nat)
    requires 0 < n <= |first| && first[0] == 'e' && HasNo(first, '\n')
    ensures ReadBlock(first[..n]) == None
  {
    TrimStartKeeps(first[..n]);
    OneLine(first[..n]);
    NoDataLine(first[..n]);
    hide Trim, Lines, ReadLines;
  }

  ghost predicate ReadsAs(block: string, fields: Fields) {
    ReadBlock(block) == if fields.data == [] then None else Some(Event(fields.name, Join(fields.data, "\n")))
  }

  lemma TwoLinesRead(first: string, line: string)
    requires first != "" && !JsSpace(first[0]) && HasNo(first, '\n') && HasNo(line, '\n')
    ensures ReadsAs(first + "\n" + line, ReadLines([first, line]))
    ensures ReadsAs(first + "\n" + (line + "\n"), ReadLines([first, line]))
  {
    FirstLine(first, line);
    OneLine(line);
    LinesRead(first, line);
    FirstLine(first, line + "\n");
    FirstLine(line, "");
    OneLine("");
    assert line + "\n" == line + "\n" + "";
    LinesRead(first, line + "\n");
    hide ReadsAs, Lines, ReadLines;
    assert [first] + [line] == [first, line];
    assert [first] + ([line] + [""]) == [first, line] + [""];
    EmptyLineAddsNothing([first, line]);
  }

  lemma LinesRead(first: string, rest: string)
    requires first != "" && !JsSpace(first[0])
    ensures ReadsAs(first + "\n" + rest, ReadLines(Lines(first + "\n" + rest)))
  {
    TrimStartKeeps(first + "\n" + rest);
    hide Trim, TrimStart, Lines, ReadLines;
  }

  lemma EmptyLineAddsNothing(lines: seq<string>)
    ensures ReadLines(lines + [""]) == ReadLines(lines)
  {
    assert (lines + [""])[..|lines|] == lines;
    assert !StartsWith("", "event:") && !StartsWith("", "data:");
  }

  lemma CutDataLine(e: Event, n: nat)
    requires Printable(e) && n <= |DataLine(e)|
    ensures ReadLines([EventLine(e), DataLine(e)[..n]]) == Fields(e.name, if n < 5 then [] else [e.data[..Max(0, n - 6)]])
  {
    var line := DataLine(e)[..n];
    LinesStartAsPrinted(e);
    ReadsFirstLine(e);
    ReadsDataLine(EventLine(e), e.name, line);
    hide EventLine, DataLine;
    if n >= 5 {
      assert line[..5] == "data:" && line[5..] == (" " + e.data)[..n - 5];
      CutData(e.data, n - 5);
    }
  }

  lemma CutData(data: string, n: nat)
    requires data != "" && !JsSpace(data[0]) && n <= |data| + 1
    ensures TrimStart((" " + data)[..n]) == data[..Max(0, n - 1)]
  {
    if n > 0 {
      assert (" " + data)[..n] == " " + data[..n - 1];
      if n > 1 { TrimStartKeeps(data[..n - 1]); }
      assert (" " + data[..n - 1])[1..] == data[..n - 1];
    }
  }

  // ---- a printed stream reads back, whatever part of it arrives ----

  function Blocks(events: seq<Event>): seq<string> {
    seq(|events|, k requires 0 <= k < |events| => Block(events[k]))
  }

  lemma BlockHasOneLineEnd(e: Event, k: nat)
    requires Printable(e) && k < |Block(e)|
    ensures Block(e)[k] == '\n' <==> k == |EventLine(e)|
    ensures Block(e)[k] != '\r'
  {
    var first, second := EventLine(e), DataLine(e);
    LinesStartAsPrinted(e);
    hide EventLine, DataLine;
    if k < |first| {
      assert Block(e)[k] == first[k];
    } else if k > |first| {
      assert Block(e)[k] == second[k - |first| - 1];
    }
  }

  /** The only blank line of a frame is the one at its end. */
  lemma FrameHasOneBoundary(e: Event, rest: string)
    requires Printable(e)
    ensures forall k :: 0 <= k < |Block(e)| ==> (Frame(e) + rest)[k] != '\n' || (Frame(e) + rest)[k + 1] != '\n'
  {
    var s := Frame(e) + rest;
    var h := |EventLine(e)|;
    hide Block, EventLine;
    forall k | 0 <= k < |Block(e)| ensures s[k] != '\n' || s[k + 1] != '\n' {
      BlockHasOneLineEnd(e, k);
      assert s[k] == Block(e)[k];
      if k == h {
        DataFollows(e);
        BlockHasOneLineEnd(e, k + 1);
        assert s[k + 1] == Block(e)[k + 1];
      }
    }
  }

  lemma DataFollows(e: Event)
    ensures |EventLine(e)| + 1 < |Block(e)|
  {}

  lemma ScanFrame(e: Event, rest: string)
    requires Printable(e)
    ensures Scan(Frame(e) + rest) == Scanned([Block(e)] + Scan(rest).blocks, Scan(rest).rest)
  {
    FrameHasOneBoundary(e, rest);
    hide Scan, Block;
    var s := Frame(e) + rest;
    ScanAt(s, |Block(e)|);
    assert s[..|Block(e)|] == Block(e) && s[|Block(e)| + 2..] == rest;
  }

  lemma ScanPartOfFrame(e: Event, n: nat)
    requires Printable(e) && n < |Frame(e)|
    ensures Scan(Frame(e)[..n]) == Scanned([], Frame(e)[..n])
    ensures PartOf(ReadBlock(Frame(e)[..n]), e)
  {
    FrameHasOneBoundary(e, "");
    assert Frame(e) + "" == Frame(e);
    if n <= |Block(e)| {
      assert Frame(e)[..n] == Cut(e, n);
      CutBlockReads(e, n);
    } else {
      assert Frame(e)[..n] == Block(e) + "\n";
      BlockReadsBack(e);
      assert e.data[..|e.data|] == e.data;
    }
    hide ReadBlock, Block, Scan;
    ScanOpen(Frame(e)[..n]);
  }

  /** What arrived is a number of whole frames and part of the next one. */
  ghost predicate Arrived(events: seq<Event>, text: string, k: nat, tail: string) {
    && k <= |events|
    && Scan(text) == Scanned(Blocks(events[..k]), tail)
    && (k == |events| ==> tail == "")
    && (k < |events| ==> PartOf(ReadBlock(tail), events[k]))
  }

  lemma {:induction false} PartOfStreamScans(events: seq<Event>, text: string) returns (k: nat, tail: string)
    requires AllPrintable(events) && text <= Stream(events)
    ensures Arrived(events, text, k, tail)
    ensures text == Stream(events) ==> k == |events|
    decreases |events|
  {
    hide Arrived, Scan, Frame, Printable;
    if events == [] {
      k, tail := 0, "";
      NothingArrived();
    } else if |text| < |Frame(events[0])| {
      k, tail := 0, text;
      assert text == Frame(events[0])[..|text|];
      PartArrived(events, |text|);
    } else {
      var first := Frame(events[0]);
      var rest := text[|first|..];
      assert first + Stream(events[1..]) == Stream(events);
      assert text == first + rest && rest <= Stream(events[1..]);
      var j;
      j, tail := PartOfStreamScans(events[1..], rest);
      k := j + 1;
      FrameArrived(events, rest, j, tail);
    }
  }

  lemma NothingArrived()
    ensures Arrived([], "", 0, "")
  {
    ScanOpen("");
    assert Blocks([][..0]) == [];
  }

  lemma PartArrived(events: seq<Event>, n: nat)
    requires events != [] && Printable(events[0]) && n < |Frame(events[0])|
    ensures Arrived(events, Frame(events[0])[..n], 0, Frame(events[0])[..n])
  {
    ScanPartOfFrame(events[0], n);
    hide Scan, ReadBlock, Block, Frame, PartOf;
    assert Blocks(events[..0]) == [];
  }

  lemma FrameArrived(events: seq<Event>, rest: string, j: nat, tail: string)
    requires events != [] && Printable(events[0]) && Arrived(events[1..], rest, j, tail)
    ensures Arrived(events, Frame(events[0]) + rest, j + 1, tail)
  {
    hide Scan, ReadBlock, Block, Frame, PartOf, Printable;
    ScanFrame(events[0], rest);
    assert Blocks(events[..j + 1]) == [Block(events[0])] + Blocks(events[1..][..j]);
  }

  lemma {:induction false} StreamHasNoCarriageReturn(events: seq<Event>)
    requires AllPrintable(events)
    ensures HasNo(Stream(events), '\r')
    decreases |events|
  {
    if events != [] {
      StreamHasNoCarriageReturn(events[1..]);
      forall k | 0 <= k < |Block(events[0])| ensures Block(events[0])[k] != '\r' { BlockHasOneLineEnd(events[0], k); }
      hide Block;
      assert Stream(events) == Block(events[0]) + "\n\n" + Stream(events[1..]);
    }
  }
}
