/**
 Citations as characters: how the service prints one, and how the expressions that search an answer for bracketed
 groups and the items in them read it. Letters count in either case, digits are the decimal digits 0 to 9.
 */
module CitationText {
  import opened Prelude
  import opened Text
  import opened Retrieved
  import opened Citations

  // ---- printing ----

  function PageText(c: RetrievedChunk): string
    requires c.pageStart.Some?
  {
    if LastPage(c) == None then Decimal(c.pageStart.value)
    else Decimal(c.pageStart.value) + "-" + Decimal(LastPage(c).value)
  }

  /** The citation of the i-th excerpt. */
  function PrintedCitation(i: nat, c: RetrievedChunk): string {
    if c.pageStart == None then "[Source " + Decimal(i) + "]"
    else "[Source " + Decimal(i) + ", Page " + PageText(c) + "]"
  }

  // ---- reading: greedy runs of one kind of character ----

  function DigitsEnd(s: string, i: nat): (n: nat)
    requires i <= |s|
    ensures i <= n <= |s| && (forall k :: i <= k < n ==> IsDigit(s[k])) && (n < |s| ==> !IsDigit(s[n]))
    decreases |s| - i
  {
    if i == |s| || !IsDigit(s[i]) then i else DigitsEnd(s, i + 1)
  }

  function Lower(c: char): char {
    if 'A' <= c <= 'Z' then (c as int + 32) as char else c
  }

  /** The word stands at position i, in either case. */
  predicate WordAt(s: string, i: nat, word: string) {
    i + |word| <= |s| && forall k :: 0 <= k < |word| ==> Lower(s[i + k]) == word[k]
  }

  /** `word`, white space, a number: the number and where it ends. */
  function NumberAfter(s: string, i: nat, word: string): (r: Option<(nat, nat)>)
    ensures r.Some? ==> i < r.value.1 <= |s|
  {
    if !WordAt(s, i, word) then None
    else
      var gap := SkipSpace(s, i + |word|);
      var end := DigitsEnd(s, gap);
      if gap == i + |word| || end == gap then None else Some((Value(s[gap..end]), end))
  }

  /** A second page, if a hyphen and a number follow the first. */
  function SecondPageAt(s: string, source: nat, start: nat, at: nat): (Token, nat)
    requires at <= |s|
  {
    var hyphen := SkipSpace(s, at);
    var second := if hyphen < |s| && s[hyphen] == '-' then SkipSpace(s, hyphen + 1) else |s|;
    var end := DigitsEnd(s, second);
    if end == second then (Item(source, start, None), at) else (Item(source, start, Some(Value(s[second..end]))), end)
  }

  function PageAt(s: string, source: nat, at: nat): Option<(Token, nat)>
    requires at <= |s|
  {
    var comma := SkipSpace(s, at);
    if comma == |s| || s[comma] != ',' then None
    else
      var page := NumberAfter(s, SkipSpace(s, comma + 1), "page");
      if page == None then None else Some(SecondPageAt(s, source, page.value.0, page.value.1))
  }

  /** An item at position i: a source, a comma, a page, and perhaps a second page. */
  function ItemAt(s: string, i: nat): Option<(Token, nat)> {
    var source := NumberAfter(s, i, "source");
    if source == None then None else PageAt(s, source.value.0, source.value.1)
  }

  /** finditer: all items, each search going on where the last item ended. */
  function Items(s: string, i: nat): seq<Token>
    requires i <= |s|
    decreases |s| - i
  {
    if i == |s| then []
    else
      match ItemAt(s, i)
      case None => Items(s, i + 1)
      case Some((item, end)) => if i < end <= |s| then [item] + Items(s, end) else []
  }

  predicate IsWordChar(c: char) {
    IsDigit(c) || 'a' <= Lower(c) <= 'z' || c == '_' || c as int >= 0x80
  }

  /** A source number stands in the text, as words of their own. */
  predicate Mentions(s: string) {
    exists p: nat :: p < |s| && MentionAt(s, p)
  }

  predicate MentionAt(s: string, p: nat)
    requires p < |s|
  {
    var source := NumberAfter(s, p, "source");
    (p == 0 || !IsWordChar(s[p - 1])) && source.Some?
    && (source.value.1 >= |s| || !IsWordChar(s[source.value.1]))
  }

  function ClosingBracket(s: string, i: nat): (n: nat)
    requires i <= |s|
    ensures i <= n <= |s| && (forall k :: i <= k < n ==> s[k] != ']') && (n < |s| ==> s[n] == ']')
    decreases |s| - i
  {
    if i == |s| || s[i] == ']' then i else ClosingBracket(s, i + 1)
  }

  /** The items of all groups: a group runs from a bracket to the next closing one and mentions a source. */
  function ReadItems(s: string, i: nat): seq<Token>
    requires i <= |s|
    decreases |s| - i
  {
    if i == |s| then []
    else if s[i] != '[' then ReadItems(s, i + 1)
    else
      var end := ClosingBracket(s, i + 1);
      if end < |s| && end > i + 1 && Mentions(s[i + 1..end]) then Items(s[i + 1..end], 0) + ReadItems(s, end + 1)
      else ReadItems(s, i + 1)
  }

  // ---- numbers read back ----

  lemma RunsAre(s: string, i: nat, n: nat)
    requires i <= n <= |s|
    ensures (forall k :: i <= k < n ==> IsSpace(s[k])) && (n < |s| ==> !IsSpace(s[n])) ==> SkipSpace(s, i) == n
    ensures (forall k :: i <= k < n ==> IsDigit(s[k])) && (n < |s| ==> !IsDigit(s[n])) ==> DigitsEnd(s, i) == n
  {}

  /** A word, one space and a number that no digit follows. */
  lemma NumberAt(s: string, i: nat, lower: string, gap: nat, end: nat)
    requires WordAt(s, i, lower) && gap == i + |lower| + 1 && gap < end <= |s| && s[gap - 1] == ' '
    requires (forall k :: gap <= k < end ==> IsDigit(s[k])) && (end < |s| ==> !IsDigit(s[end]))
    ensures NumberAfter(s, i, lower) == Some((Value(s[gap..end]), end))
  {
    hide WordAt, Value, SkipSpace, DigitsEnd;
    RunsAre(s, gap - 1, gap);
    RunsAre(s, gap, end);
  }

  /** The text before, the word, the space, the digits and the text after, at their positions. */
  ghost predicate Laid(s: string, before: string, word: string, digits: string, after: string) {
    s == before + (word + (" " + (digits + after)))
  }

  lemma NumberReads(s: string, before: string, word: string, n: nat, after: string, lower: string)
    requires Laid(s, before, word, Natural(n), after)
    requires |word| == |lower| && forall k :: 0 <= k < |word| ==> Lower(word[k]) == lower[k]
    requires after != "" ==> !IsDigit(after[0])
    ensures NumberAfter(s, |before|, lower) == Some((n, |before| + |word| + 1 + |Natural(n)|))
    ensures |before| + |word| + 1 + |Natural(n)| + |after| == |s|
  {
    NaturalReadsBack(n);
    var digits := Natural(n);
    hide Natural, Value, NumberAfter, Lower;
    var gap := |before| + |word| + 1;
    var end := gap + |digits|;
    Positions(s, before, word, digits, after);
    assert forall k :: 0 <= k < |word| ==> Lower(s[|before| + k]) == lower[k];
    assert forall k :: gap <= k < end ==> s[k] == digits[k - gap];
    NumberAt(s, |before|, lower, gap, end);
  }

  lemma Positions(s: string, before: string, word: string, digits: string, after: string)
    requires Laid(s, before, word, digits, after)
    ensures var gap := |before| + |word| + 1;
            var end := gap + |digits|;
            && |s| == end + |after| && s[gap - 1] == ' ' && s[gap..end] == digits && s[end..] == after
            && (forall k :: 0 <= k < |word| ==> s[|before| + k] == word[k])
            && (forall k :: gap <= k < end ==> s[k] == digits[k - gap])
            && (after != "" ==> s[end] == after[0])
  {
    var tail := digits + after;
    var rest := word + (" " + tail);
    assert s[|before|..] == rest;
    assert rest[|word|..] == " " + tail;
    assert s[|before| + |word|..] == " " + tail;
    assert s[|before| + |word| + 1..] == tail;
  }

  // ---- a printed citation reads back ----

  function SecondPage(end: Option<nat>): string {
    if end == None then "" else "-" + Natural(end.value)
  }

  /** What stands between the brackets. */
  function Body(i: nat, start: nat, end: Option<nat>): string {
    "" + ("Source" + (" " + (Natural(i) + (", " + ("Page" + (" " + (Natural(start) + SecondPage(end))))))))
  }

  /** The item that a body prints. */
  function Printed(i: nat, start: nat, end: Option<nat>): Token {
    Item(i, start, if end == None then None else Some(end.value))
  }

  lemma SourceReads(i: nat, start: nat, end: Option<nat>) returns (comma: nat)
    ensures var s := Body(i, start, end);
            && NumberAfter(s, 0, "source") == Some((i, comma)) && comma + 2 < |s| && s[comma] == ',' && s[comma + 1] == ' '
            && s[comma + 2] == 'P' && comma == 7 + |Natural(i)|
  {
    var s := Body(i, start, end);
    var after := ", " + ("Page" + (" " + (Natural(start) + SecondPage(end))));
    comma := 7 + |Natural(i)|;
    hide NumberAfter, Natural, SecondPage;
    NumberReads(s, "", "Source", i, after, "source");
    Positions(s, "", "Source", Natural(i), after);
    assert s[comma..] == after && after[0] == ',' && after[1] == ' ' && after[2] == 'P';
    assert s[comma] == after[0] && s[comma + 1] == after[1] && s[comma + 2] == after[2];
  }

  function BeforePage(i: nat): string {
    "Source" + (" " + (Natural(i) + ", "))
  }

  function FromPage(start: nat, end: Option<nat>): string {
    "Page" + (" " + (Natural(start) + SecondPage(end)))
  }

  lemma BodySplits(i: nat, start: nat, end: Option<nat>)
    ensures Body(i, start, end) == BeforePage(i) + FromPage(start, end)
    ensures |BeforePage(i)| == 9 + |Natural(i)|
  {
    Regroup("Source", " ", Natural(i), ", ", FromPage(start, end));
    hide Natural, SecondPage;
  }

  lemma Regroup(a: string, b: string, c: string, d: string, rest: string)
    ensures "" + (a + (b + (c + (d + rest)))) == (a + (b + (c + d))) + rest
  {
    assert (c + d) + rest == c + (d + rest);
    assert (b + (c + d)) + rest == b + ((c + d) + rest);
    assert (a + (b + (c + d))) + rest == a + ((b + (c + d)) + rest);
  }

  lemma PageReads(s: string, before: string, start: nat, end: Option<nat>)
    requires s == before + FromPage(start, end)
    ensures var at := |before| + 5 + |Natural(start)|;
            && NumberAfter(s, |before|, "page") == Some((start, at))
            && at + |SecondPage(end)| == |s| && s[at..] == SecondPage(end)
  {
    var second := SecondPage(end);
    SecondPageStarts(end);
    hide NumberAfter, Natural, SecondPage;
    NumberReads(s, before, "Page", start, second, "page");
    Positions(s, before, "Page", Natural(start), second);
  }

  lemma SecondPageStarts(end: Option<nat>)
    ensures SecondPage(end) != "" ==> SecondPage(end)[0] == '-'
    ensures end.Some? ==> |SecondPage(end)| > 1 && SecondPage(end)[1..] == Natural(end.value)
    ensures end == None ==> SecondPage(end) == ""
  {}

  lemma SecondPageReads(s: string, i: nat, start: nat, end: Option<nat>, at: nat)
    requires at <= |s| && s[at..] == SecondPage(end)
    ensures SecondPageAt(s, i, start, at) == (Printed(i, start, end), |s|)
  {
    SecondPageStarts(end);
    hide Value, Natural;
    RunsAre(s, at, at);
    RunsAre(s, |s|, |s|);
    if end.Some? {
      NaturalReadsBack(end.value);
      var digits := Natural(end.value);
      assert s[at..][1..] == s[at + 1..] && s[at] == s[at..][0];
      assert forall k :: at < k < |s| ==> s[k] == digits[k - at - 1];
      RunsAre(s, at + 1, at + 1);
      RunsAre(s, at + 1, |s|);
      assert s[at + 1..|s|] == s[at + 1..];
    }
  }

  lemma ItemReads(i: nat, start: nat, end: Option<nat>)
    ensures ItemAt(Body(i, start, end), 0) == Some((Printed(i, start, end), |Body(i, start, end)|))
  {
    hide Body, NumberAfter, Natural, SecondPage, SecondPageAt, BeforePage, FromPage;
    var s := Body(i, start, end);
    var comma := SourceReads(i, start, end);
    RunsAre(s, comma, comma);
    RunsAre(s, comma + 1, comma + 2);
    BodySplits(i, start, end);
    PageReads(s, BeforePage(i), start, end);
    SecondPageReads(s, i, start, end, |BeforePage(i)| + 5 + |Natural(start)|);
    assert PageAt(s, i, comma) == Some((Printed(i, start, end), |s|));
    assert ItemAt(s, 0) == Some((Printed(i, start, end), |s|));
  }

  lemma {:induction false} NoComma(s: string, i: nat)
    requires i <= |s| && forall k :: 0 <= k < |s| ==> s[k] != ','
    ensures Items(s, i) == []
    decreases |s| - i
  {
    if i < |s| { NoComma(s, i + 1); }
  }

  lemma WholeItem(s: string, item: Token)
    requires s != "" && ItemAt(s, 0) == Some((item, |s|))
    ensures Items(s, 0) == [item]
  {
    assert Items(s, |s|) == [];
  }

  lemma ClosesAt(s: string, i: nat, n: nat)
    requires i <= n < |s| && (forall k :: i <= k < n ==> s[k] != ']') && s[n] == ']'
    ensures ClosingBracket(s, i) == n
  {}

  /** A bracketed text without brackets in it that mentions a source is one group. */
  lemma OneGroupReads(body: string)
    requires body != "" && (forall k :: 0 <= k < |body| ==> body[k] != ']') && Mentions(body)
    ensures ReadItems("[" + body + "]", 0) == Items(body, 0)
  {
    hide Mentions, Items;
    var s := "[" + body + "]";
    assert s[1..|s| - 1] == body;
    assert forall k :: 1 <= k < |s| - 1 ==> s[k] == body[k - 1];
    ClosesAt(s, 1, |s| - 1);
    assert ReadItems(s, |s|) == [];
  }

  lemma BodyMentions(i: nat, start: nat, end: Option<nat>)
    ensures Mentions(Body(i, start, end)) && Body(i, start, end) != ""
  {
    var comma := SourceReads(i, start, end);
    hide Body, NumberAfter;
    assert MentionAt(Body(i, start, end), 0);
  }

  lemma BareReads(i: nat)
    ensures var s := "Source " + Natural(i);
            Mentions(s) && Items(s, 0) == [] && s != "" && forall k :: 0 <= k < |s| ==> s[k] != ']'
  {
    var s := "Source " + Natural(i);
    NaturalReadsBack(i);
    hide Natural, NumberAfter;
    assert s == "" + ("Source" + (" " + (Natural(i) + "")));
    assert forall k :: 7 <= k < |s| ==> s[k] == Natural(i)[k - 7];
    NumberReads(s, "", "Source", i, "", "source");
    assert MentionAt(s, 0);
    NoComma(s, 0);
  }

  lemma BodyHasNoBracket(i: nat, start: nat, end: Option<nat>)
    ensures forall k :: 0 <= k < |Body(i, start, end)| ==> Body(i, start, end)[k] != ']'
  {
    NaturalReadsBack(i);
    NaturalReadsBack(start);
    if end.Some? { NaturalReadsBack(end.value); }
    BodySplits(i, start, end);
    SecondPageStarts(end);
    var a, b, c := Natural(i), Natural(start), SecondPage(end);
    hide Natural, SecondPage, Body;
    NoBracketIn("Source" + (" " + (a + ", ")), "Page" + (" " + (b + c)));
  }

  lemma NoBracketIn(a: string, b: string)
    requires (forall k :: 0 <= k < |a| ==> a[k] != ']') && forall k :: 0 <= k < |b| ==> b[k] != ']'
    ensures forall k :: 0 <= k < |a + b| ==> (a + b)[k] != ']'
  {}

  /** The pages of a chunk as an item names them. */
  ghost predicate Counted(c: RetrievedChunk) {
    c.pageStart.Some? ==> c.pageStart.value >= 0 && (c.pageEnd.Some? ==> c.pageEnd.value >= 0)
  }

  lemma BareCitationReads(i: nat)
    ensures ReadItems("[Source " + Natural(i) + "]", 0) == []
  {
    hide Items, Mentions, ReadItems, Natural;
    BareReads(i);
    var body := "Source " + Natural(i);
    OneGroupReads(body);
    assert "[Source " + Natural(i) + "]" == "[" + body + "]";
    assert ReadItems("[Source " + Natural(i) + "]", 0) == [];
  }

  lemma BodyReads(i: nat, start: nat, end: Option<nat>)
    ensures ReadItems("[" + Body(i, start, end) + "]", 0) == [Printed(i, start, end)]
  {
    hide Items, Mentions, ReadItems, Body, ItemAt;
    BodyMentions(i, start, end);
    BodyHasNoBracket(i, start, end);
    ItemReads(i, start, end);
    WholeItem(Body(i, start, end), Printed(i, start, end));
    OneGroupReads(Body(i, start, end));
    assert ReadItems("[" + Body(i, start, end) + "]", 0) == [Printed(i, start, end)];
  }

  /** A printed citation, read by the expressions that search an answer, gives exactly the reference it was printed
      for when the chunk has a page, and nothing when it has none. */
  lemma PrintedCitationReads(i: nat, c: RetrievedChunk)
    requires Counted(c)
    ensures ReadItems(PrintedCitation(i, c), 0) == if c.pageStart == None then [] else [PrintedReference(i, c)]
  {
    hide ReadItems, Body, Natural, PrintedCitation;
    if c.pageStart == None {
      BareCitationReads(i);
      BareIsPrinted(i, c);
    } else {
      var start: nat := c.pageStart.value;
      var end: Option<nat> := if LastPage(c) == None then None else Some(LastPage(c).value);
      BodyReads(i, start, end);
      CitationIsItsBody(i, c, start, end);
    }
    assert ReadItems(PrintedCitation(i, c), 0) == if c.pageStart == None then [] else [PrintedReference(i, c)];
  }

  lemma BareIsPrinted(i: nat, c: RetrievedChunk)
    requires c.pageStart == None
    ensures PrintedCitation(i, c) == "[Source " + Natural(i) + "]"
  {}

  lemma CitationIsItsBody(i: nat, c: RetrievedChunk, start: nat, end: Option<nat>)
    requires c.pageStart == Some(start) && LastPage(c) == if end == None then None else Some(end.value)
    ensures PrintedCitation(i, c) == "[" + Body(i, start, end) + "]"
  {
    var a, x := Natural(i), Natural(start) + SecondPage(end);
    assert PageText(c) == x;
    hide Natural, SecondPage, PageText;
    InBrackets(a, x);
  }

  lemma InBrackets(a: string, x: string)
    ensures "[Source " + a + ", Page " + x + "]" == "[" + ("" + ("Source" + (" " + (a + (", " + ("Page" + (" " + x))))))) + "]"
  {
    var s := "" + ("Source" + (" " + (a + (", " + ("Page" + (" " + x))))));
    Regroup("Source", " ", a, ", ", "Page" + (" " + x));
    assert "Source" + (" " + (a + ", ")) == "Source " + a + ", ";
    assert "Page" + (" " + x) == "Page " + x;
    assert "[" + (("Source " + a + ", ") + ("Page " + x)) == "[Source " + a + ", Page " + x;
  }
}
