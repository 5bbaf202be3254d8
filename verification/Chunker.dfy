/** The sliding window that cuts the pages of a document into search chunks. */
module Chunker {
  import opened Prelude
  import opened Text

  /** A parsed page; `caption` is the search text of a completed vision caption. */
  datatype Page = Page(number: int, text: string, caption: Option<string>)

  datatype Kind = TextWindow(start: int, end: int) | VisionCaption

  datatype Chunk = Chunk(content: string, page: int, index: nat, kind: Kind)

  /** text[start:end] for a start that is not negative. */
  function Slice(text: string, start: nat, end: int): string {
    var hi := if end < 0 then Max(0, |text| + end) else Min(end, |text|);
    if start >= hi then "" else text[start..hi]
  }

  // ---- the loops, and the chunks they compute ----

  datatype Window = Window(start: nat, end: int)

  /** The windows from `start` on: each begins `overlap` before the end of the last, but always one further. */
  function Windows(length: nat, size: int, overlap: int, start: nat): seq<Window>
    decreases length - start
  {
    if start >= length then []
    else
      var end := Min(start + size, length);
      if end >= length then [Window(start, end)]
      else [Window(start, end)] + Windows(length, size, overlap, Max(end - overlap, start + 1))
  }

  function WindowChunks(text: string, page: int, windows: seq<Window>, index: nat): seq<Chunk> {
    if windows == [] then []
    else
      var w := windows[0];
      var content := Strip(Slice(text, w.start, w.end));
      if content == "" then WindowChunks(text, page, windows[1..], index)
      else [Chunk(content, page, index, TextWindow(w.start, w.end))] + WindowChunks(text, page, windows[1..], index + 1)
  }

  function PageChunks(page: Page, size: int, overlap: int, index: nat): seq<Chunk> {
    var text := Strip(page.text);
    var windows := WindowChunks(text, page.number, Windows(|text|, size, overlap, 0), index);
    var caption := if page.caption.Some? then Strip(page.caption.value) else "";
    windows + if caption == "" then [] else [Chunk(caption, page.number, index + |windows|, VisionCaption)]
  }

  function DocumentChunks(pages: seq<Page>, size: int, overlap: int): seq<Chunk> {
    if pages == [] then []
    else
      var before := DocumentChunks(pages[..|pages| - 1], size, overlap);
      before + PageChunks(pages[|pages| - 1], size, overlap, |before|)
  }

  method ChunkPages(pages: seq<Page>, size: int, overlap: int) returns (chunks: seq<Chunk>)
    ensures chunks == DocumentChunks(pages, size, overlap)
  {
    chunks := [];
    for i := 0 to |pages|
      invariant chunks == DocumentChunks(pages[..i], size, overlap)
    {
      var added := ChunkPage(pages[i], size, overlap, |chunks|);
      chunks := chunks + added;
      assert pages[..i + 1][..i] == pages[..i];
    }
    assert pages[..|pages|] == pages;
  }

  method ChunkPage(page: Page, size: int, overlap: int, first: nat) returns (chunks: seq<Chunk>)
    ensures chunks == PageChunks(page, size, overlap, first)
  {
    chunks := ChunkText(Strip(page.text), page.number, size, overlap, first);
    hide WindowChunks, Windows, Strip;
    if page.caption.Some? {
      var content := Strip(page.caption.value);
      if content != "" { chunks := chunks + [Chunk(content, page.number, first + |chunks|, VisionCaption)]; }
    }
  }

  /** The inner loop: the windows of one stripped page text, whatever the size and the overlap. */
  method ChunkText(text: string, page: int, size: int, overlap: int, first: nat) returns (chunks: seq<Chunk>)
    ensures chunks == WindowChunks(text, page, Windows(|text|, size, overlap, 0), first)
  {
    hide WindowChunks, Windows, Strip, Slice;
    chunks := [];
    var start, index := 0, first;
    ghost var rest := Windows(|text|, size, overlap, 0);
    while start < |text|
      invariant start >= 0 && index >= 0
      invariant rest == Windows(|text|, size, overlap, start)
      invariant chunks + WindowChunks(text, page, rest, index)
                == WindowChunks(text, page, Windows(|text|, size, overlap, 0), first)
      decreases |text| - start
    {
      var end := Min(start + size, |text|);
      var content := Strip(Slice(text, start, end));
      NextWindow(|text|, size, overlap, start);
      TakeWindow(chunks, text, page, rest, index);
      if content != "" {
        chunks := chunks + [Chunk(content, page, index, TextWindow(start, end))];
        index := index + 1;
      }
      rest := rest[1..];
      if end >= |text| { break; }
      start := Max(end - overlap, start + 1);
    }
    NoWindows(text, page, size, overlap, start, index);
  }

  lemma NoWindows(text: string, page: int, size: int, overlap: int, start: nat, index: nat)
    ensures start >= |text| ==> Windows(|text|, size, overlap, start) == []
    ensures WindowChunks(text, page, [], index) == []
  {}

  lemma NextWindow(length: nat, size: int, overlap: int, start: nat)
    requires start < length
    ensures var w := Windows(length, size, overlap, start);
            var end := Min(start + size, length);
            && w != [] && w[0] == Window(start, end)
            && w[1..] == if end >= length then [] else Windows(length, size, overlap, Max(end - overlap, start + 1))
  {}

  lemma TakeWindow(chunks: seq<Chunk>, text: string, page: int, windows: seq<Window>, index: nat)
    requires windows != []
    ensures var w := windows[0];
            var content := Strip(Slice(text, w.start, w.end));
            chunks + WindowChunks(text, page, windows, index) ==
              if content == "" then chunks + WindowChunks(text, page, windows[1..], index)
              else (chunks + [Chunk(content, page, index, TextWindow(w.start, w.end))])
                   + WindowChunks(text, page, windows[1..], index + 1)
  {}

  // ---- what the windows are worth, for an overlap smaller than the size ----

  ghost predicate Proper(size: int, overlap: int) {
    0 <= overlap < size
  }

  /** The number of windows, in closed form. */
  function WindowCount(length: nat, size: int, overlap: int): nat
    requires Proper(size, overlap)
  {
    if length <= size then 1
    else (length - size + size - overlap - 1) / (size - overlap) + 1
  }

  lemma {:induction false} Times(d: int, a: int, b: int)
    requires d > 0 && a < b
    ensures d * a + d <= d * b
    decreases b - a
  {
    assert d * (b - 1) == d * b - d;
    if a + 1 < b { Times(d, a, b - 1); }
  }

  lemma Quotient(n: int, d: int, q: int, r: int)
    requires d > 0 && n == d * q + r && 0 <= r < d
    ensures n / d == q
  {
    var p := n / d;
    assert n == d * p + n % d;
    if p > q { Times(d, q, p); }
    if p < q { Times(d, p, q); }
  }

  lemma OneStepLess(x: int, step: int)
    requires step > 0 && x > 0
    ensures (x + step - 1) / step == (x - 1) / step + 1
    ensures x <= step ==> (x - 1) / step == 0
  {
    Quotient(x + step - 1, step, (x - 1) / step + 1, (x - 1) % step);
    if x <= step { Quotient(x - 1, step, 0, x - 1); }
  }

  /** Closed form of the windows: their number, and where each begins and ends. */
  lemma {:induction false} WindowsClosedForm(length: nat, size: int, overlap: int, start: nat)
    requires Proper(size, overlap) && start < length
    ensures var w := Windows(length, size, overlap, start);
            && |w| == WindowCount(length - start, size, overlap)
            && (forall k :: 0 <= k < |w| ==> w[k].start == start + k * (size - overlap))
            && (forall k :: 0 <= k < |w| ==> w[k].end == Min(w[k].start + size, length))
            && w[|w| - 1].end == length
    decreases length - start
  {
    if start + size < length {
      var step := size - overlap;
      WindowsClosedForm(length, size, overlap, start + step);
      OneStepLess(length - start - size, step);
      var w, rest := Windows(length, size, overlap, start), Windows(length, size, overlap, start + step);
      assert w == [Window(start, start + size)] + rest;
      forall k | 0 < k < |w| ensures w[k].start == start + k * step {
        assert w[k] == rest[k - 1];
        assert (k - 1) * step == k * step - step;
      }
    }
  }

  /** Every stretch of at most overlap + 1 characters lies inside one window, so no passage that short is cut. */
  lemma {:induction false} ShortPassageInOneWindow(length: nat, size: int, overlap: int, start: nat, a: nat, b: nat)
      returns (k: nat)
    requires Proper(size, overlap) && start <= a < b <= length && b - a <= overlap + 1
    ensures var w := Windows(length, size, overlap, start);
            k < |w| && w[k].start <= a && b <= w[k].end <= length
    decreases length - start
  {
    if start + size >= length || b <= start + size {
      k := 0;
    } else {
      k := ShortPassageInOneWindow(length, size, overlap, start + size - overlap, a, b);
      k := k + 1;
    }
  }

  /** Neighbouring windows share exactly `overlap` characters. */
  lemma NeighboursOverlapExactly(length: nat, size: int, overlap: int, k: nat)
    requires Proper(size, overlap) && length > 0 && k + 1 < |Windows(length, size, overlap, 0)|
    ensures var w := Windows(length, size, overlap, 0); w[k].end - w[k + 1].start == overlap
  {
    WindowsClosedForm(length, size, overlap, 0);
    var w := Windows(length, size, overlap, 0);
    assert (k + 1) * (size - overlap) == k * (size - overlap) + (size - overlap);
    InnerWindowIsFull(length, size, overlap, 0, k);
  }

  lemma {:induction false} InnerWindowIsFull(length: nat, size: int, overlap: int, start: nat, k: nat)
    requires Proper(size, overlap) && k + 1 < |Windows(length, size, overlap, start)|
    ensures var w := Windows(length, size, overlap, start); w[k].end == w[k].start + size < length
    decreases length - start
  {
    if k > 0 { InnerWindowIsFull(length, size, overlap, start + size - overlap, k - 1); }
  }

  function Contents(text: string, windows: seq<Window>): seq<string> {
    seq(|windows|, i requires 0 <= i < |windows| => Slice(text, windows[i].start, windows[i].end))
  }

  /** What each window adds after the characters it shares with the one before. */
  function AfterOverlap(contents: seq<string>, overlap: nat): string {
    if contents == [] then ""
    else (if overlap <= |contents[0]| then contents[0][overlap..] else "") + AfterOverlap(contents[1..], overlap)
  }

  ghost predicate Rebuilds(text: string, windows: seq<Window>, overlap: nat, start: nat)
    requires start <= |text|
  {
    var c := Contents(text, windows);
    c != [] && c[0] + AfterOverlap(c[1..], overlap) == text[start..]
  }

  lemma ContentsPrepend(text: string, first: Window, rest: seq<Window>)
    ensures Contents(text, [first] + rest) == [Slice(text, first.start, first.end)] + Contents(text, rest)
  {}

  lemma JoinAfterOverlap(text: string, windows: seq<Window>, overlap: nat, start: nat)
    requires start + overlap <= |text| && Rebuilds(text, windows, overlap, start)
    requires windows[0].start == start && windows[0].end >= start + overlap
    ensures AfterOverlap(Contents(text, windows), overlap) == text[start + overlap..]
  {
    var c := Contents(text, windows);
    assert c[0] == Slice(text, windows[0].start, windows[0].end);
    assert AfterOverlap(c, overlap) == c[0][overlap..] + AfterOverlap(c[1..], overlap);
    hide AfterOverlap, Slice, Contents;
    assert text[start..][overlap..] == text[start + overlap..];
  }

  lemma RebuildsOneMore(text: string, first: Window, rest: seq<Window>, overlap: nat, next: nat)
    requires first.start <= next && next + overlap <= |text| && first.end == next + overlap
    requires rest != [] && rest[0].start == next && rest[0].end >= next + overlap && Rebuilds(text, rest, overlap, next)
    ensures Rebuilds(text, [first] + rest, overlap, first.start)
  {
    JoinAfterOverlap(text, rest, overlap, next);
    ContentsPrepend(text, first, rest);
    var c := Contents(text, [first] + rest);
    hide AfterOverlap, Contents;
    assert c[1..] == Contents(text, rest);
    assert text[first.start..] == text[first.start..first.end] + text[first.end..];
  }

  /** The page can be put back together from its windows alone, by dropping the shared characters. */
  lemma {:induction false} WindowsRebuildTheText(text: string, size: int, overlap: int, start: nat)
    requires Proper(size, overlap) && start < |text|
    ensures Rebuilds(text, Windows(|text|, size, overlap, start), overlap, start)
    decreases |text| - start
  {
    var end := start + size;
    if end < |text| {
      var rest := Windows(|text|, size, overlap, end - overlap);
      WindowsRebuildTheText(text, size, overlap, end - overlap);
      NextWindow(|text|, size, overlap, start);
      NextWindow(|text|, size, overlap, end - overlap);
      hide Windows, Rebuilds;
      assert Windows(|text|, size, overlap, start) == [Window(start, end)] + rest;
      RebuildsOneMore(text, Window(start, end), rest, overlap, end - overlap);
    } else {
      assert Windows(|text|, size, overlap, start) == [Window(start, |text|)];
      assert Slice(text, start, |text|) == text[start..];
    }
  }

  // ---- what reaches the document's chunk list ----

  /** The chunks are not empty and carry the indexes from `first` on, without gaps. */
  ghost predicate Numbered(chunks: seq<Chunk>, first: nat) {
    forall k :: 0 <= k < |chunks| ==> chunks[k].index == first + k && chunks[k].content != ""
  }

  lemma {:induction false} WindowChunksAreNumbered(text: string, page: int, windows: seq<Window>, index: nat)
    ensures Numbered(WindowChunks(text, page, windows, index), index)
    decreases |windows|
  {
    hide Strip, Slice, Numbered;
    if windows == [] {
      NoWindows(text, page, 1, 0, |text|, index);
      NothingNumbered(index);
    } else {
      WindowChunksAreNumbered(text, page, windows[1..], index);
      WindowChunksAreNumbered(text, page, windows[1..], index + 1);
      var w := windows[0];
      var content := Strip(Slice(text, w.start, w.end));
      if content != "" {
        NumberedBehind(Chunk(content, page, index, TextWindow(w.start, w.end)),
                       WindowChunks(text, page, windows[1..], index + 1), index);
      }
    }
    assert Numbered(WindowChunks(text, page, windows, index), index);
  }

  lemma NothingNumbered(index: nat)
    ensures Numbered([], index)
  {}

  lemma NumberedBehind(c: Chunk, rest: seq<Chunk>, index: nat)
    requires c.index == index && c.content != "" && Numbered(rest, index + 1)
    ensures Numbered([c] + rest, index)
  {
  }

  lemma PageChunksAreNumbered(page: Page, size: int, overlap: int, index: nat)
    ensures Numbered(PageChunks(page, size, overlap, index), index)
  {
    var text := Strip(page.text);
    WindowChunksAreNumbered(text, page.number, Windows(|text|, size, overlap, 0), index);
    hide WindowChunks, Windows, Strip;
  }

  /** chunk_index counts the chunks of all pages from 0 without gaps, and no chunk is empty. */
  lemma {:induction false} ChunkIndexesCountTheDocument(pages: seq<Page>, size: int, overlap: int)
    ensures Numbered(DocumentChunks(pages, size, overlap), 0)
    decreases |pages|
  {
    if pages != [] {
      var before, page := pages[..|pages| - 1], pages[|pages| - 1];
      ChunkIndexesCountTheDocument(before, size, overlap);
      var first := DocumentChunks(before, size, overlap);
      PageChunksAreNumbered(page, size, overlap, |first|);
      assert DocumentChunks(pages, size, overlap) == first + PageChunks(page, size, overlap, |first|);
      hide DocumentChunks, PageChunks;
    }
  }

  lemma {:induction false} VisibleWindowIsEmitted(text: string, page: int, windows: seq<Window>, index: nat, j: nat)
      returns (k: nat)
    requires j < |windows| && Visible(Slice(text, windows[j].start, windows[j].end))
    ensures var r := WindowChunks(text, page, windows, index);
            k < |r| && r[k] == Chunk(Strip(Slice(text, windows[j].start, windows[j].end)), page, index + k,
                                     TextWindow(windows[j].start, windows[j].end))
    decreases windows
  {
    hide Strip, Slice;
    if j == 0 {
      k := 0;
    } else if Strip(Slice(text, windows[0].start, windows[0].end)) == "" {
      k := VisibleWindowIsEmitted(text, page, windows[1..], index, j - 1);
    } else {
      k := VisibleWindowIsEmitted(text, page, windows[1..], index + 1, j - 1);
      k := k + 1;
    }
  }

  lemma {:induction false} PageChunksStay(pages: seq<Page>, size: int, overlap: int, i: nat)
    requires i < |pages|
    ensures var first := |DocumentChunks(pages[..i], size, overlap)|;
            var r := PageChunks(pages[i], size, overlap, first);
            && first + |r| <= |DocumentChunks(pages, size, overlap)|
            && DocumentChunks(pages, size, overlap)[first..first + |r|] == r
    decreases |pages|
  {
    hide PageChunks;
    var before, last := pages[..|pages| - 1], pages[|pages| - 1];
    var chunks := DocumentChunks(before, size, overlap);
    assert DocumentChunks(pages, size, overlap) == chunks + PageChunks(last, size, overlap, |chunks|);
    if i < |pages| - 1 {
      PageChunksStay(before, size, overlap, i);
      assert before[..i] == pages[..i];
    }
    hide DocumentChunks;
  }

  /** A window of the page's text without the white space at its edges, or the page's caption. */
  ghost predicate FromPage(chunk: Chunk, page: Page, size: int, overlap: int) {
    && chunk.page == page.number
    && match chunk.kind
       case TextWindow(start, end) =>
         exists w :: w in Windows(|Strip(page.text)|, size, overlap, 0) && w.start == start && w.end == end
                     && chunk.content == Strip(Slice(Strip(page.text), w.start, w.end))
       case VisionCaption => page.caption.Some? && chunk.content == Strip(page.caption.value)
  }

  lemma {:induction false} WindowChunksAreWindows(page: Page, size: int, overlap: int, windows: seq<Window>, index: nat)
    requires forall w :: w in windows ==> w in Windows(|Strip(page.text)|, size, overlap, 0)
    ensures forall c :: c in WindowChunks(Strip(page.text), page.number, windows, index) ==>
              c.kind.TextWindow? && FromPage(c, page, size, overlap)
    decreases |windows|
  {
    hide Strip, Slice, Windows;
    if windows != [] {
      WindowChunksAreWindows(page, size, overlap, windows[1..], index);
      WindowChunksAreWindows(page, size, overlap, windows[1..], index + 1);
      var w := windows[0];
      assert w in windows;
    }
  }

  lemma PageChunksAreFromThePage(page: Page, size: int, overlap: int, index: nat)
    ensures forall c :: c in PageChunks(page, size, overlap, index) ==> FromPage(c, page, size, overlap)
  {
    WindowChunksAreWindows(page, size, overlap, Windows(|Strip(page.text)|, size, overlap, 0), index);
    hide Strip, Windows, WindowChunks;
  }

  /** Every chunk belongs to the page it names, window or caption, and the pages come in their order. */
  lemma {:induction false} ChunksFollowThePages(pages: seq<Page>, size: int, overlap: int) returns (from: seq<nat>)
    ensures |from| == |DocumentChunks(pages, size, overlap)|
    ensures forall k :: 0 <= k < |from| ==>
              from[k] < |pages| && FromPage(DocumentChunks(pages, size, overlap)[k], pages[from[k]], size, overlap)
    ensures forall j, k :: 0 <= j < k < |from| ==> from[j] <= from[k]
    decreases |pages|
  {
    hide PageChunks, FromPage;
    from := [];
    if pages != [] {
      var last := |pages| - 1;
      var before := DocumentChunks(pages[..last], size, overlap);
      var more := PageChunks(pages[last], size, overlap, |before|);
      from := ChunksFollowThePages(pages[..last], size, overlap);
      PageChunksAreFromThePage(pages[last], size, overlap, |before|);
      from := from + seq(|more|, i requires 0 <= i < |more| => last);
      assert DocumentChunks(pages, size, overlap) == before + more;
      assert forall k :: 0 <= k < |more| ==> more[k] in more;
    }
  }

  /** A page's caption, unless it is blank, is the last chunk of the page. */
  lemma CaptionIsThePagesLastChunk(pages: seq<Page>, size: int, overlap: int, i: nat) returns (k: nat)
    requires i < |pages| && pages[i].caption.Some? && Visible(pages[i].caption.value)
    ensures k + 1 == |DocumentChunks(pages[..i + 1], size, overlap)| <= |DocumentChunks(pages, size, overlap)|
    ensures DocumentChunks(pages, size, overlap)[k]
            == Chunk(Strip(pages[i].caption.value), pages[i].number, k, VisionCaption)
  {
    hide DocumentChunks, PageChunks, Strip;
    var first := |DocumentChunks(pages[..i], size, overlap)|;
    var r := PageChunks(pages[i], size, overlap, first);
    var all := DocumentChunks(pages, size, overlap);
    PageChunksStay(pages, size, overlap, i);
    OneMorePage(pages, size, overlap, i);
    CaptionIsLast(pages[i], size, overlap, first);
    k := first + |r| - 1;
    assert all[first..first + |r|][|r| - 1] == all[k];
  }

  lemma CaptionIsLast(page: Page, size: int, overlap: int, index: nat)
    requires page.caption.Some? && Visible(page.caption.value)
    ensures var r := PageChunks(page, size, overlap, index);
            r != [] && r[|r| - 1] == Chunk(Strip(page.caption.value), page.number, index + |r| - 1, VisionCaption)
  {
    hide WindowChunks, Windows, Strip;
  }

  lemma OneMorePage(pages: seq<Page>, size: int, overlap: int, i: nat)
    requires i < |pages|
    ensures var before := DocumentChunks(pages[..i], size, overlap);
            DocumentChunks(pages[..i + 1], size, overlap) == before + PageChunks(pages[i], size, overlap, |before|)
  {
    assert pages[..i + 1][..i] == pages[..i];
  }

  /** The chunk is a window of the text and has the character at `p` at the place the window implies. */
  ghost predicate Shows(chunk: Chunk, text: string, p: nat) {
    && p < |text| && chunk.kind.TextWindow?
    && 0 <= chunk.kind.start <= p < chunk.kind.end <= |text|
    && var at := p - chunk.kind.start - Lead(text[chunk.kind.start..chunk.kind.end]);
       0 <= at < |chunk.content| && chunk.content[at] == text[p]
  }

  lemma WindowShowsCharacter(text: string, size: int, overlap: int, p: nat, page: int) returns (j: nat)
    requires Proper(size, overlap) && p < |text| && !IsSpace(text[p])
    ensures j < |Windows(|text|, size, overlap, 0)|
    ensures var w := Windows(|text|, size, overlap, 0)[j];
            && Visible(Slice(text, w.start, w.end))
            && (forall index: nat ::
                  Shows(Chunk(Strip(Slice(text, w.start, w.end)), page, index, TextWindow(w.start, w.end)), text, p))
  {
    j := ShortPassageInOneWindow(|text|, size, overlap, 0, p, p + 1);
    var w := Windows(|text|, size, overlap, 0)[j];
    hide Windows;
    StripKeepsVisible(text[w.start..w.end], p - w.start);
    hide Strip, IsSpace;
    assert Slice(text, w.start, w.end) == text[w.start..w.end];
  }

  /** No visible character of any page is lost: it is found in a chunk of its page, at the place its window says. */
  lemma VisibleCharacterIsInAChunk(pages: seq<Page>, size: int, overlap: int, i: nat, p: nat) returns (k: nat)
    requires Proper(size, overlap) && i < |pages|
    requires p < |Strip(pages[i].text)| && !IsSpace(Strip(pages[i].text)[p])
    ensures k < |DocumentChunks(pages, size, overlap)|
    ensures DocumentChunks(pages, size, overlap)[k].page == pages[i].number
    ensures Shows(DocumentChunks(pages, size, overlap)[k], Strip(pages[i].text), p)
  {
    hide DocumentChunks, Windows, WindowChunks, Strip, Slice, IsSpace, Shows;
    var text := Strip(pages[i].text);
    var first := |DocumentChunks(pages[..i], size, overlap)|;
    var r := PageChunks(pages[i], size, overlap, first);
    var all := DocumentChunks(pages, size, overlap);
    PageChunksStay(pages, size, overlap, i);
    var j := WindowShowsCharacter(text, size, overlap, p, pages[i].number);
    k := VisibleWindowIsEmitted(text, pages[i].number, Windows(|text|, size, overlap, 0), first, j);
    assert all[first..first + |r|][k] == r[k];
    k := first + k;
  }
}
