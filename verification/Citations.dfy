/**
 The citations of an answer, on the level of tokens: source references with or without pages, chunk suffixes,
 brackets, and text in between. A source number counts the chunks of the prompt from 1.
 */
module Citations {
  import opened Prelude
  import opened Retrieved

  datatype Token =
    | Bare(source: int)
    | Item(source: int, start: int, end: Option<int>)
    | ChunkSuffix
    | Open
    | Close
    | Words(text: string)

  predicate InRange(source: int, chunks: seq<RetrievedChunk>) {
    1 <= source <= |chunks|
  }

  /** The source exists and its page is known. */
  predicate Citable(source: int, chunks: seq<RetrievedChunk>) {
    InRange(source, chunks) && chunks[source - 1].pageStart.Some?
  }

  // ---- normalization: three substitutions over the answer ----

  function AddPage(t: Token, chunks: seq<RetrievedChunk>): Token {
    if t.Bare? && Citable(t.source, chunks) then Item(t.source, chunks[t.source - 1].pageStart.value, None) else t
  }

  function LastPage(c: RetrievedChunk): Option<int> {
    if c.pageEnd.Some? && c.pageEnd != c.pageStart then c.pageEnd else None
  }

  function WithChunkPage(t: Token, chunks: seq<RetrievedChunk>): Token {
    if t.Item? && Citable(t.source, chunks) then
      Item(t.source, chunks[t.source - 1].pageStart.value, LastPage(chunks[t.source - 1]))
    else t
  }

  function DropChunkSuffixes(tokens: seq<Token>): seq<Token> {
    if tokens == [] then []
    else (if tokens[0].ChunkSuffix? then [] else [tokens[0]]) + DropChunkSuffixes(tokens[1..])
  }

  function AddPages(tokens: seq<Token>, chunks: seq<RetrievedChunk>): seq<Token> {
    seq(|tokens|, i requires 0 <= i < |tokens| => AddPage(tokens[i], chunks))
  }

  function CorrectPages(tokens: seq<Token>, chunks: seq<RetrievedChunk>): seq<Token> {
    seq(|tokens|, i requires 0 <= i < |tokens| => WithChunkPage(tokens[i], chunks))
  }

  function Normalize(tokens: seq<Token>, chunks: seq<RetrievedChunk>): seq<Token> {
    DropChunkSuffixes(CorrectPages(AddPages(tokens, chunks), chunks))
  }

  /** What the three substitutions together make of one token. */
  function Normal(t: Token, chunks: seq<RetrievedChunk>): seq<Token> {
    if t.ChunkSuffix? then []
    else if (t.Bare? || t.Item?) && Citable(t.source, chunks) then
      [Item(t.source, chunks[t.source - 1].pageStart.value, LastPage(chunks[t.source - 1]))]
    else [t]
  }

  lemma {:induction false} DropAppends(a: seq<Token>, b: seq<Token>)
    ensures DropChunkSuffixes(a + b) == DropChunkSuffixes(a) + DropChunkSuffixes(b)
    decreases |a|
  {
    DropFirst(a);
    DropFirst(a + b);
    if a == [] {
      assert a + b == b;
    } else {
      DropAppends(a[1..], b);
      hide DropChunkSuffixes;
      assert (a + b)[1..] == a[1..] + b;
    }
  }

  lemma DropFirst(tokens: seq<Token>)
    ensures DropChunkSuffixes(tokens) ==
              if tokens == [] then []
              else (if tokens[0].ChunkSuffix? then [] else [tokens[0]]) + DropChunkSuffixes(tokens[1..])
  {}

  lemma NormalizeAppends(a: seq<Token>, b: seq<Token>, chunks: seq<RetrievedChunk>)
    ensures Normalize(a + b, chunks) == Normalize(a, chunks) + Normalize(b, chunks)
  {
    hide DropChunkSuffixes;
    var c, d := CorrectPages(AddPages(a, chunks), chunks), CorrectPages(AddPages(b, chunks), chunks);
    assert CorrectPages(AddPages(a + b, chunks), chunks) == c + d;
    DropAppends(c, d);
  }

  lemma NormalizeOne(t: Token, chunks: seq<RetrievedChunk>)
    ensures Normalize([t], chunks) == Normal(t, chunks)
  {
    var c := WithChunkPage(AddPage(t, chunks), chunks);
    assert CorrectPages(AddPages([t], chunks), chunks) == [c];
    DropFirst([c]);
    DropFirst([]);
    hide DropChunkSuffixes;
    assert [c][1..] == [];
  }

  lemma NormalizeFirst(tokens: seq<Token>, chunks: seq<RetrievedChunk>)
    requires tokens != []
    ensures Normalize(tokens, chunks) == Normal(tokens[0], chunks) + Normalize(tokens[1..], chunks)
  {
    NormalizeOne(tokens[0], chunks);
    NormalizeAppends([tokens[0]], tokens[1..], chunks);
    assert tokens == [tokens[0]] + tokens[1..];
  }

  lemma NormalizeNothing(chunks: seq<RetrievedChunk>)
    ensures Normalize([], chunks) == []
  {}

  lemma {:induction false} NormalizeIsIdempotent(tokens: seq<Token>, chunks: seq<RetrievedChunk>)
    ensures Normalize(Normalize(tokens, chunks), chunks) == Normalize(tokens, chunks)
    decreases |tokens|
  {
    NormalizeNothing(chunks);
    if tokens != [] {
      var first, rest := Normal(tokens[0], chunks), Normalize(tokens[1..], chunks);
      NormalizeFirst(tokens, chunks);
      NormalizeIsIdempotent(tokens[1..], chunks);
      NormalizeAppends(first, rest, chunks);
      hide Normalize;
      if first != [] { NormalizeOne(first[0], chunks); }
    }
  }

  /** What normalization makes of a token that stays: a reference to an existing source with a known page gets that
      page, and the last one if the chunk has several; everything else stays as it is. */
  ghost predicate Normalized(t: Token, n: Token, chunks: seq<RetrievedChunk>) {
    if (t.Bare? || t.Item?) && 1 <= t.source <= |chunks| && chunks[t.source - 1].pageStart.Some? then
      var c := chunks[t.source - 1];
      && n.Item? && n.source == t.source && n.start == c.pageStart.value
      && n.end == if c.pageEnd == None || c.pageEnd == c.pageStart then None else c.pageEnd
    else n == t
  }

  /** `places` are the tokens that stay, all but the chunk suffixes, in order; the result is what became of them. */
  ghost predicate TokenByToken(tokens: seq<Token>, result: seq<Token>, chunks: seq<RetrievedChunk>, places: seq<nat>) {
    && |places| == |result|
    && (forall k :: 0 <= k < |places| ==> places[k] < |tokens| && Normalized(tokens[places[k]], result[k], chunks))
    && (forall j, k :: 0 <= j < k < |places| ==> places[j] < places[k])
    && (forall i :: 0 <= i < |tokens| ==> (i in places <==> !tokens[i].ChunkSuffix?))
  }

  /** Token by token: chunk suffixes go, references get the pages of their chunks, and nothing else changes. */
  lemma {:induction false} NormalizeTokenByToken(tokens: seq<Token>, chunks: seq<RetrievedChunk>) returns (places: seq<nat>)
    ensures TokenByToken(tokens, Normalize(tokens, chunks), chunks, places)
    decreases |tokens|
  {
    hide Normalize, TokenByToken, Normal;
    places := [];
    if tokens == [] {
      NormalizeNothing(chunks);
      NoTokens(chunks);
    } else {
      var n := |tokens| - 1;
      places := NormalizeTokenByToken(tokens[..n], chunks);
      assert tokens == tokens[..n] + [tokens[n]];
      NormalizeAppends(tokens[..n], [tokens[n]], chunks);
      NormalizeOne(tokens[n], chunks);
      LastToken(tokens, Normalize(tokens[..n], chunks), chunks, places);
      if !tokens[n].ChunkSuffix? { places := places + [n]; }
    }
    assert TokenByToken(tokens, Normalize(tokens, chunks), chunks, places);
  }

  lemma NoTokens(chunks: seq<RetrievedChunk>)
    ensures TokenByToken([], [], chunks, [])
  {}

  lemma LastToken(tokens: seq<Token>, before: seq<Token>, chunks: seq<RetrievedChunk>, had: seq<nat>)
    requires tokens != [] && TokenByToken(tokens[..|tokens| - 1], before, chunks, had)
    ensures var n := |tokens| - 1;
            TokenByToken(tokens, before + Normal(tokens[n], chunks), chunks,
                         if tokens[n].ChunkSuffix? then had else had + [n])
  {
    hide Normal, TokenByToken;
    var n := |tokens| - 1;
    NormalIsNormalized(tokens[n], chunks);
    assert tokens == tokens[..n] + [tokens[n]];
    if tokens[n].ChunkSuffix? {
      assert before + [] == before;
      SuffixGoes(tokens[..n], before, chunks, had, tokens[n]);
    } else {
      var normal := Normal(tokens[n], chunks)[0];
      assert Normal(tokens[n], chunks) == [normal];
      TokenStays(tokens[..n], before, chunks, had, tokens[n], normal);
    }
  }

  lemma SuffixGoes(tokens: seq<Token>, before: seq<Token>, chunks: seq<RetrievedChunk>, had: seq<nat>, t: Token)
    requires TokenByToken(tokens, before, chunks, had) && t.ChunkSuffix?
    ensures TokenByToken(tokens + [t], before, chunks, had)
  {
    hide Normalized;
    assert |tokens| !in had;
  }

  lemma TokenStays(tokens: seq<Token>, before: seq<Token>, chunks: seq<RetrievedChunk>, had: seq<nat>, t: Token, n: Token)
    requires TokenByToken(tokens, before, chunks, had) && !t.ChunkSuffix? && Normalized(t, n, chunks)
    ensures TokenByToken(tokens + [t], before + [n], chunks, had + [|tokens|])
  {
    hide Normalized;
    var places := had + [|tokens|];
    assert places[|had|] == |tokens|;
    assert forall i :: 0 <= i < |tokens| ==> (i in places <==> i in had);
  }

  lemma NormalIsNormalized(t: Token, chunks: seq<RetrievedChunk>)
    ensures t.ChunkSuffix? ==> Normal(t, chunks) == []
    ensures !t.ChunkSuffix? ==> |Normal(t, chunks)| == 1 && Normalized(t, Normal(t, chunks)[0], chunks)
  {}

  function SourceNumbers(tokens: seq<Token>): seq<int> {
    if tokens == [] then []
    else (if tokens[0].Bare? || tokens[0].Item? then [tokens[0].source] else []) + SourceNumbers(tokens[1..])
  }

  /** Normalization changes no source number and no order. */
  lemma {:induction false} NormalizeKeepsSourceNumbers(tokens: seq<Token>, chunks: seq<RetrievedChunk>)
    ensures SourceNumbers(Normalize(tokens, chunks)) == SourceNumbers(tokens)
    decreases |tokens|
  {
    NormalizeNothing(chunks);
    if tokens != [] {
      NormalizeFirst(tokens, chunks);
      NormalizeKeepsSourceNumbers(tokens[1..], chunks);
      var first, rest := Normal(tokens[0], chunks), Normalize(tokens[1..], chunks);
      hide Normalize;
      if first != [] { assert (first + rest)[1..] == rest; } else { assert first + rest == rest; }
    }
  }

  // ---- which citations are valid ----

  predicate PageMatches(c: RetrievedChunk, start: int, end: Option<int>) {
    && c.pageStart == Some(start)
    && (end == None || end == if c.pageEnd.Some? then c.pageEnd else c.pageStart)
  }

  predicate ValidItem(t: Token, chunks: seq<RetrievedChunk>) {
    t.Item? && InRange(t.source, chunks) && PageMatches(chunks[t.source - 1], t.start, t.end)
  }

  /** After normalization every citation of an existing source with a known page is valid. */
  lemma {:induction false} NormalizedCitationsAreValid(tokens: seq<Token>, chunks: seq<RetrievedChunk>)
    ensures forall t :: t in Normalize(tokens, chunks) && (t.Bare? || t.Item?) && Citable(t.source, chunks) ==>
              ValidItem(t, chunks)
    decreases |tokens|
  {
    NormalizeNothing(chunks);
    if tokens != [] {
      NormalizeFirst(tokens, chunks);
      NormalizedCitationsAreValid(tokens[1..], chunks);
      hide Normalize;
    }
  }

  // ---- citation groups ----

  function CloseAt(tokens: seq<Token>): (n: nat)
    ensures n <= |tokens|
    ensures n < |tokens| ==> tokens[n].Close?
  {
    if tokens == [] || tokens[0].Close? then 0 else 1 + CloseAt(tokens[1..])
  }

  /** The source references in brackets, group by group: a group runs from an opening bracket to the next
      closing one and has a reference in between; an opening bracket without is skipped. */
  function Grouped(tokens: seq<Token>): seq<Token>
    decreases |tokens|
  {
    if tokens == [] then []
    else if tokens[0].Open? then
      var rest := tokens[1..];
      var n := CloseAt(rest);
      if n < |rest| && SourceNumbers(rest[..n]) != [] then References(rest[..n]) + Grouped(rest[n + 1..]) else Grouped(rest)
    else Grouped(tokens[1..])
  }

  function References(tokens: seq<Token>): seq<Token> {
    if tokens == [] then []
    else (if tokens[0].Bare? || tokens[0].Item? then [tokens[0]] else []) + References(tokens[1..])
  }

  ghost predicate IsReference(t: Token) {
    t.Bare? || t.Item?
  }

  /** The references among the tokens, all of them, in order. */
  ghost predicate ReferencesAt(tokens: seq<Token>, references: seq<Token>, places: seq<nat>) {
    Subsequence(references, tokens, places) && forall i :: 0 <= i < |tokens| ==> (i in places <==> IsReference(tokens[i]))
  }

  lemma {:induction false} ReferencesInOrder(tokens: seq<Token>) returns (places: seq<nat>)
    ensures ReferencesAt(tokens, References(tokens), places)
    ensures References(tokens) == [] <==> SourceNumbers(tokens) == []
  {
    hide ReferencesAt;
    if tokens == [] {
      places := [];
      NoReferences();
    } else {
      var rest := ReferencesInOrder(tokens[1..]);
      places := TokenInFront(tokens, References(tokens[1..]), rest);
    }
  }

  lemma NoReferences()
    ensures ReferencesAt([], References([]), [])
  {}

  lemma TokenInFront(tokens: seq<Token>, references: seq<Token>, rest: seq<nat>) returns (places: seq<nat>)
    requires tokens != [] && ReferencesAt(tokens[1..], references, rest)
    ensures ReferencesAt(tokens, (if IsReference(tokens[0]) then [tokens[0]] else []) + references, places)
  {
    hide Subsequence, IsReference;
    var own: seq<nat> := if IsReference(tokens[0]) then [0] else [];
    places := own + Shifted(rest);
    SubsequenceBehind(references, tokens[1..], rest, tokens[0]);
    assert [tokens[0]] + tokens[1..] == tokens;
    assert [] + references == references && [] + Shifted(rest) == Shifted(rest);
    WhereShifted(rest);
    forall i | 0 <= i < |tokens| ensures i in places <==> IsReference(tokens[i]) {
      assert i in places <==> i in own || i in Shifted(rest);
      if i > 0 { assert tokens[1..][i - 1] == tokens[i]; }
    }
  }

  lemma WhereShifted(places: seq<nat>)
    ensures forall i :: i in Shifted(places) <==> i > 0 && i - 1 in places
  {
    forall i ensures i in Shifted(places) <==> i > 0 && i - 1 in places {
      if i > 0 && i - 1 in places {
        var k :| 0 <= k < |places| && places[k] == i - 1;
        assert Shifted(places)[k] == i;
      }
    }
  }

  lemma {:induction false} ClosesAt(inner: seq<Token>, rest: seq<Token>)
    requires forall t :: t in inner ==> !t.Close?
    ensures CloseAt(inner) == |inner|
    ensures CloseAt(inner + [Close] + rest) == |inner|
    decreases |inner|
  {
    if inner == [] {
      assert (inner + [Close] + rest)[0] == Close;
    } else {
      ClosesAt(inner[1..], rest);
      assert (inner + [Close] + rest)[1..] == inner[1..] + [Close] + rest;
      assert inner[0] in inner;
    }
  }

  lemma {:induction false} OutsideIsSkipped(outside: seq<Token>, rest: seq<Token>)
    requires forall t :: t in outside ==> !t.Open?
    ensures Grouped(outside + rest) == Grouped(rest)
    decreases |outside|
  {
    if outside == [] {
      assert outside + rest == rest;
    } else {
      OutsideIsSkipped(outside[1..], rest);
      assert (outside + rest)[1..] == outside[1..] + rest && outside[0] in outside;
    }
  }

  /** The first bracket of an answer: closed by the next closing one it is a group if a reference stands in between,
      and all of those count; otherwise the search goes on behind the opening bracket. */
  lemma FirstGroup(outside: seq<Token>, inner: seq<Token>, rest: seq<Token>) returns (references: seq<Token>, places: seq<nat>)
    requires forall t :: t in outside ==> !t.Open?
    requires forall t :: t in inner ==> !t.Close?
    ensures Grouped(outside) == []
    ensures ReferencesAt(inner, references, places)
    ensures Grouped(outside + ([Open] + (inner + [Close] + rest)))
            == if references != [] then references + Grouped(rest) else Grouped(inner + [Close] + rest)
    ensures Grouped(outside + ([Open] + inner)) == Grouped(inner)
  {
    var behind := inner + [Close] + rest;
    OutsideIsSkipped(outside, []);
    assert outside + [] == outside;
    OutsideIsSkipped(outside, [Open] + behind);
    OutsideIsSkipped(outside, [Open] + inner);
    ClosesAt(inner, rest);
    references := References(inner);
    places := ReferencesInOrder(inner);
    hide SourceNumbers, References, CloseAt;
    assert ([Open] + behind)[1..] == behind && ([Open] + inner)[1..] == inner;
    assert behind[..|inner|] == inner && behind[|inner| + 1..] == rest;
  }

  /** The indexes of the validly cited chunks, in the order of their first valid citation. */
  function CitedIndexes(references: seq<Token>, chunks: seq<RetrievedChunk>): seq<int> {
    if references == [] then []
    else
      var before, t := CitedIndexes(references[..|references| - 1], chunks), references[|references| - 1];
      if ValidItem(t, chunks) && t.source - 1 !in before then before + [t.source - 1] else before
  }

  method ValidCitedSourceIndexes(answer: seq<Token>, chunks: seq<RetrievedChunk>) returns (indexes: seq<int>)
    ensures indexes == CitedIndexes(Grouped(answer), chunks)
  {
    indexes := [];
    var seen: set<int> := {};
    var references := Grouped(answer);
    for i := 0 to |references|
      invariant indexes == CitedIndexes(references[..i], chunks)
      invariant forall x :: x in seen <==> x in indexes
    {
      assert references[..i + 1][..i] == references[..i];
      var t := references[i];
      if !t.Item? || !InRange(t.source, chunks) { continue; }
      if !PageMatches(chunks[t.source - 1], t.start, t.end) { continue; }
      if t.source - 1 in seen { continue; }
      seen := seen + {t.source - 1};
      indexes := indexes + [t.source - 1];
    }
    assert references[..|references|] == references;
  }

  /** The reference names an existing source and pages that are those of its chunk: its first page, and with a second
      page the chunk's last one. */
  ghost predicate NamesItsPages(t: Token, chunks: seq<RetrievedChunk>) {
    && t.Item? && 1 <= t.source <= |chunks|
    && var c := chunks[t.source - 1];
       && c.pageStart == Some(t.start)
       && (t.end == None || (c.pageEnd.Some? && t.end == c.pageEnd) || (c.pageEnd == None && t.end == c.pageStart))
  }

  /** The first reference to its source that names the right pages. */
  ghost predicate FirstValid(references: seq<Token>, chunks: seq<RetrievedChunk>, i: nat)
    requires i < |references|
  {
    && NamesItsPages(references[i], chunks)
    && forall j :: 0 <= j < i && NamesItsPages(references[j], chunks) ==> references[j].source != references[i].source
  }

  ghost predicate CitedAt(references: seq<Token>, chunks: seq<RetrievedChunk>, indexes: seq<int>, places: seq<nat>) {
    && |places| == |indexes|
    && (forall k :: 0 <= k < |places| ==> places[k] < |references| && FirstValid(references, chunks, places[k])
                                          && indexes[k] == references[places[k]].source - 1)
    && (forall j, k :: 0 <= j < k < |places| ==> places[j] < places[k])
    && (forall i :: 0 <= i < |references| && NamesItsPages(references[i], chunks) ==> references[i].source - 1 in indexes)
  }

  /** The cited indexes are exactly those of the references that name the right pages, in the order of the first of
      each. */
  lemma {:induction false} CitedAreTheFirstValid(references: seq<Token>, chunks: seq<RetrievedChunk>) returns (places: seq<nat>)
    ensures CitedAt(references, chunks, CitedIndexes(references, chunks), places)
    decreases |references|
  {
    hide CitedAt, ValidItem;
    places := [];
    if references != [] {
      var n := |references| - 1;
      places := CitedAreTheFirstValid(references[..n], chunks);
      OneMoreReference(references, chunks, CitedIndexes(references[..n], chunks), places);
      if CitedIndexes(references, chunks) != CitedIndexes(references[..n], chunks) { places := places + [n]; }
    } else {
      NothingCited(chunks);
    }
  }

  lemma NothingCited(chunks: seq<RetrievedChunk>)
    ensures CitedAt([], chunks, CitedIndexes([], chunks), [])
  {}

  lemma OneMoreReference(references: seq<Token>, chunks: seq<RetrievedChunk>, before: seq<int>, had: seq<nat>)
    requires references != [] && CitedAt(references[..|references| - 1], chunks, before, had)
    ensures var n := |references| - 1;
            if ValidItem(references[n], chunks) && references[n].source - 1 !in before
            then CitedAt(references, chunks, before + [references[n].source - 1], had + [n])
            else CitedAt(references, chunks, before, had)
  {
    var n := |references| - 1;
    var rest, t := references[..n], references[n];
    assert NamesItsPages(t, chunks) <==> ValidItem(t, chunks);
    forall k | 0 <= k < |had| ensures FirstValid(references, chunks, had[k]) { assert FirstValid(rest, chunks, had[k]); }
    hide NamesItsPages, ValidItem;
    if ValidItem(t, chunks) && t.source - 1 !in before {
      assert FirstValid(references, chunks, n) by {
        forall j | 0 <= j < n && NamesItsPages(references[j], chunks) ensures references[j].source != t.source {
          assert rest[j] == references[j];
        }
      }
      hide FirstValid;
      CitedOneMore(references, chunks, before, had);
    } else {
      hide FirstValid;
      CitedTheSame(references, chunks, before, had);
    }
  }

  lemma CitedOneMore(references: seq<Token>, chunks: seq<RetrievedChunk>, before: seq<int>, had: seq<nat>)
    requires references != [] && CitedAt(references[..|references| - 1], chunks, before, had)
    requires FirstValid(references, chunks, |references| - 1)
    requires forall k :: 0 <= k < |had| ==> had[k] < |references| && FirstValid(references, chunks, had[k])
    ensures CitedAt(references, chunks, before + [references[|references| - 1].source - 1], had + [|references| - 1])
  {
    var n := |references| - 1;
    var indexes := before + [references[n].source - 1];
    hide NamesItsPages, FirstValid;
    assert indexes[|before|] == references[n].source - 1;
    forall i | 0 <= i < |references| && NamesItsPages(references[i], chunks) ensures references[i].source - 1 in indexes {
      if i < n { assert references[..n][i] == references[i] && references[i].source - 1 in before; }
    }
  }

  lemma CitedTheSame(references: seq<Token>, chunks: seq<RetrievedChunk>, before: seq<int>, had: seq<nat>)
    requires references != [] && CitedAt(references[..|references| - 1], chunks, before, had)
    requires var t := references[|references| - 1]; NamesItsPages(t, chunks) ==> t.source - 1 in before
    requires forall k :: 0 <= k < |had| ==> had[k] < |references| && FirstValid(references, chunks, had[k])
    ensures CitedAt(references, chunks, before, had)
  {
    var n := |references| - 1;
    hide FirstValid;
    forall i | 0 <= i < |references| && NamesItsPages(references[i], chunks) ensures references[i].source - 1 in before {
      if i < n { assert references[..n][i] == references[i]; }
    }
  }

  lemma {:induction false} ReferencesNormalize(tokens: seq<Token>, chunks: seq<RetrievedChunk>)
    ensures References(Normalize(tokens, chunks)) == Normalize(References(tokens), chunks)
    decreases |tokens|
  {
    NormalizeNothing(chunks);
    if tokens != [] {
      var t, rest := tokens[0], tokens[1..];
      NormalizeFirst(tokens, chunks);
      ReferencesNormalize(rest, chunks);
      var own := if t.Bare? || t.Item? then [t] else [];
      NormalizeAppends(own, References(rest), chunks);
      NormalizeOne(t, chunks);
      hide Normalize;
      var first := Normal(t, chunks);
      if first != [] { assert (first + Normalize(rest, chunks))[1..] == Normalize(rest, chunks); }
      else { assert first + Normalize(rest, chunks) == Normalize(rest, chunks); }
    }
  }

  lemma {:induction false} CloseNormalizes(tokens: seq<Token>, chunks: seq<RetrievedChunk>)
    ensures var n := CloseAt(tokens);
            && CloseAt(Normalize(tokens, chunks)) == |Normalize(tokens[..n], chunks)|
            && (n == |tokens| <==> CloseAt(Normalize(tokens, chunks)) == |Normalize(tokens, chunks)|)
    decreases |tokens|
  {
    NormalizeNothing(chunks);
    var n := CloseAt(tokens);
    if tokens != [] {
      NormalizeFirst(tokens, chunks);
      var first, rest := Normal(tokens[0], chunks), Normalize(tokens[1..], chunks);
      if n == 0 {
        assert tokens[..0] == [];
        hide Normalize;
      } else {
        CloseNormalizes(tokens[1..], chunks);
        NormalizeFirst(tokens[..n], chunks);
        assert tokens[..n][1..] == tokens[1..][..n - 1];
        hide Normalize;
        if first != [] { assert (first + rest)[1..] == rest; } else { assert first + rest == rest; }
      }
    } else {
      assert tokens[..n] == [];
    }
  }

  lemma GroupSplits(rest: seq<Token>, chunks: seq<RetrievedChunk>)
    requires CloseAt(rest) < |rest|
    ensures var n := CloseAt(rest);
            var m := |Normalize(rest[..n], chunks)|;
            && Normalize(rest, chunks) == Normalize(rest[..n], chunks) + [Close] + Normalize(rest[n + 1..], chunks)
            && CloseAt(Normalize(rest, chunks)) == m < |Normalize(rest, chunks)|
            && Normalize(rest, chunks)[..m] == Normalize(rest[..n], chunks)
            && Normalize(rest, chunks)[m + 1..] == Normalize(rest[n + 1..], chunks)
  {
    hide Normalize, CloseAt;
    var n := CloseAt(rest);
    CloseNormalizes(rest, chunks);
    assert rest == rest[..n] + rest[n..] && rest[n..][1..] == rest[n + 1..] && rest[n..][0] == Close;
    NormalizeAppends(rest[..n], rest[n..], chunks);
    NormalizeFirst(rest[n..], chunks);
    InTheMiddle(Normalize(rest[..n], chunks), Close, Normalize(rest[n + 1..], chunks));
    assert Normalize(rest, chunks)
           == Normalize(rest[..n], chunks) + ([Close] + Normalize(rest[n + 1..], chunks));
  }

  lemma InTheMiddle(a: seq<Token>, t: Token, b: seq<Token>)
    ensures a + ([t] + b) == a + [t] + b
    ensures (a + [t] + b)[..|a|] == a && (a + [t] + b)[|a| + 1..] == b
  {}

  /** Normalizing an answer normalizes the references in its brackets and changes nothing about which they are. */
  lemma {:induction false} GroupsNormalize(tokens: seq<Token>, chunks: seq<RetrievedChunk>)
    ensures Grouped(Normalize(tokens, chunks)) == Normalize(Grouped(tokens), chunks)
    decreases |tokens|
  {
    hide Normalize, CloseAt, References;
    NormalizeNothing(chunks);
    if tokens != [] {
      NormalizeFirst(tokens, chunks);
      var rest := tokens[1..];
      if tokens[0].Open? {
        assert ([Open] + Normalize(rest, chunks))[1..] == Normalize(rest, chunks);
        var n := CloseAt(rest);
        CloseNormalizes(rest, chunks);
        if n < |rest| {
          GroupSplits(rest, chunks);
          NormalizeKeepsSourceNumbers(rest[..n], chunks);
          ReferencesNormalize(rest[..n], chunks);
          GroupsNormalize(rest[n + 1..], chunks);
          NormalizeAppends(References(rest[..n]), Grouped(rest[n + 1..]), chunks);
        }
        GroupsNormalize(rest, chunks);
        hide SourceNumbers;
      } else {
        GroupsNormalize(rest, chunks);
        NotAGroup(Normal(tokens[0], chunks), Normalize(rest, chunks));
      }
    }
  }

  lemma NotAGroup(first: seq<Token>, rest: seq<Token>)
    requires |first| <= 1 && (first != [] ==> !first[0].Open?)
    ensures Grouped(first + rest) == Grouped(rest)
  {
    if first == [] { assert first + rest == rest; } else { assert (first + rest)[1..] == rest; }
  }

  /** The indexes of all existing sources with known pages, in the order of their first mention. */
  function CitableIndexes(references: seq<Token>, chunks: seq<RetrievedChunk>): seq<int> {
    if references == [] then []
    else
      var before, t := CitableIndexes(references[..|references| - 1], chunks), references[|references| - 1];
      if (t.Bare? || t.Item?) && Citable(t.source, chunks) && t.source - 1 !in before then before + [t.source - 1] else before
  }

  lemma {:induction false} NormalizedReferencesAreCited(references: seq<Token>, chunks: seq<RetrievedChunk>)
    requires forall t :: t in references ==> t.Bare? || t.Item?
    ensures CitedIndexes(Normalize(references, chunks), chunks) == CitableIndexes(references, chunks)
    decreases |references|
  {
    hide Normalize, CitedIndexes, CitableIndexes;
    NormalizeNothing(chunks);
    CitedAppends([], [], chunks);
    if references != [] {
      var before, t := references[..|references| - 1], references[|references| - 1];
      assert references == before + [t];
      assert t in references;
      NormalizedReferencesAreCited(before, chunks);
      NormalizeAppends(before, [t], chunks);
      NormalizeOne(t, chunks);
      CitedAppends(Normalize(before, chunks), Normal(t, chunks), chunks);
      CitableAppends(before, t, chunks);
    }
  }

  lemma CitedAppends(before: seq<Token>, last: seq<Token>, chunks: seq<RetrievedChunk>)
    requires |last| <= 1
    ensures CitedIndexes([], chunks) == CitableIndexes([], chunks) == []
    ensures CitedIndexes(before + last, chunks) ==
              if last != [] && ValidItem(last[0], chunks) && last[0].source - 1 !in CitedIndexes(before, chunks)
              then CitedIndexes(before, chunks) + [last[0].source - 1] else CitedIndexes(before, chunks)
  {
    if last == [] {
      assert before + last == before;
    } else {
      assert (before + last)[..|before|] == before;
    }
  }

  lemma CitableAppends(before: seq<Token>, t: Token, chunks: seq<RetrievedChunk>)
    ensures CitableIndexes(before + [t], chunks) ==
              if (t.Bare? || t.Item?) && Citable(t.source, chunks) && t.source - 1 !in CitableIndexes(before, chunks)
              then CitableIndexes(before, chunks) + [t.source - 1] else CitableIndexes(before, chunks)
  {
    assert (before + [t])[..|before|] == before;
  }

  lemma {:induction false} GroupedAreReferences(tokens: seq<Token>)
    ensures forall t :: t in Grouped(tokens) ==> t.Bare? || t.Item?
    decreases |tokens|
  {
    hide References, CloseAt, SourceNumbers;
    if tokens != [] {
      var rest := tokens[1..];
      var n := CloseAt(rest);
      if n < |rest| {
        ReferencesAreReferences(rest[..n]);
        GroupedAreReferences(rest[n + 1..]);
      }
      GroupedAreReferences(rest);
    }
  }

  lemma {:induction false} ReferencesAreReferences(tokens: seq<Token>)
    ensures forall t :: t in References(tokens) ==> t.Bare? || t.Item?
    decreases |tokens|
  {
    if tokens != [] { ReferencesAreReferences(tokens[1..]); }
  }

  /** After normalization the valid citations of an answer are exactly its bracketed references to existing
      sources with known pages, whatever pages the model wrote. */
  lemma NormalizationMakesEveryCitableReferenceCount(tokens: seq<Token>, chunks: seq<RetrievedChunk>)
    ensures CitedIndexes(Grouped(Normalize(tokens, chunks)), chunks) == CitableIndexes(Grouped(tokens), chunks)
  {
    GroupsNormalize(tokens, chunks);
    GroupedAreReferences(tokens);
    NormalizedReferencesAreCited(Grouped(tokens), chunks);
  }

  // ---- the sources of an answer ----

  datatype Location = Location(document: int, page: Option<int>)

  function RefOf(c: RetrievedChunk): SourceRef {
    SourceRef(c.documentId, c.documentTitle, c.pageStart, c.chunkId)
  }

  function LocationOf(s: SourceRef): Location {
    Location(s.documentId, s.page)
  }

  predicate Listed(sources: seq<SourceRef>, l: Location) {
    exists k :: 0 <= k < |sources| && LocationOf(sources[k]) == l
  }

  ghost predicate AllExist(indexes: seq<int>, chunks: seq<RetrievedChunk>) {
    forall k :: 0 <= k < |indexes| ==> 0 <= indexes[k] < |chunks|
  }

  /** One source per document and page, in the order of the indexes. */
  function SourcesOf(indexes: seq<int>, chunks: seq<RetrievedChunk>): seq<SourceRef>
    requires AllExist(indexes, chunks)
  {
    if indexes == [] then []
    else
      var before, s := SourcesOf(indexes[..|indexes| - 1], chunks), RefOf(chunks[indexes[|indexes| - 1]]);
      if Listed(before, LocationOf(s)) then before else before + [s]
  }

  lemma {:induction false} CitedIndexesExist(references: seq<Token>, chunks: seq<RetrievedChunk>)
    ensures NoDuplicates(CitedIndexes(references, chunks)) && AllExist(CitedIndexes(references, chunks), chunks)
    decreases |references|
  {
    if references != [] { CitedIndexesExist(references[..|references| - 1], chunks); }
  }

  method SourcesForCitations(answer: seq<Token>, chunks: seq<RetrievedChunk>) returns (sources: seq<SourceRef>)
    ensures AllExist(CitedIndexes(Grouped(answer), chunks), chunks)
    ensures sources == SourcesOf(CitedIndexes(Grouped(answer), chunks), chunks)
  {
    sources := [];
    var seen: set<Location> := {};
    var indexes := ValidCitedSourceIndexes(answer, chunks);
    CitedIndexesExist(Grouped(answer), chunks);
    for i := 0 to |indexes|
      invariant sources == SourcesOf(indexes[..i], chunks)
      invariant forall l :: l in seen <==> Listed(sources, l)
    {
      assert indexes[..i + 1][..i] == indexes[..i];
      var s := RefOf(chunks[indexes[i]]);
      if LocationOf(s) in seen { continue; }
      ListedGrows(sources, s);
      seen := seen + {LocationOf(s)};
      sources := sources + [s];
    }
    assert indexes[..|indexes|] == indexes;
  }

  lemma ListedGrows(sources: seq<SourceRef>, s: SourceRef)
    ensures forall l :: Listed(sources + [s], l) <==> Listed(sources, l) || l == LocationOf(s)
  {
    var longer := sources + [s];
    forall l ensures Listed(longer, l) <==> Listed(sources, l) || l == LocationOf(s) {
      if l == LocationOf(s) { assert LocationOf(longer[|sources|]) == l; }
      if Listed(sources, l) {
        var k :| 0 <= k < |sources| && LocationOf(sources[k]) == l;
        assert LocationOf(longer[k]) == l;
      }
    }
  }

  /** The source names the chunk, its document and its first page. */
  ghost predicate IsSource(s: SourceRef, c: RetrievedChunk) {
    s.documentId == c.documentId && s.documentTitle == c.documentTitle && s.page == c.pageStart && s.chunkId == c.chunkId
  }

  /** Where each source comes from: increasing positions in the index list, each the first of its location. */
  ghost predicate FromFirstCitations(sources: seq<SourceRef>, indexes: seq<int>, chunks: seq<RetrievedChunk>, from: seq<nat>) {
    && |from| == |sources|
    && (forall k :: 0 <= k < |sources| ==>
          from[k] < |indexes| && 0 <= indexes[from[k]] < |chunks| && IsSource(sources[k], chunks[indexes[from[k]]]))
    && (forall j, k :: 0 <= j < k < |sources| ==> from[j] < from[k])
  }

  ghost predicate DistinctLocations(sources: seq<SourceRef>) {
    forall j, k :: 0 <= j < k < |sources| ==> LocationOf(sources[j]) != LocationOf(sources[k])
  }

  ghost predicate AllListed(sources: seq<SourceRef>, indexes: seq<int>, chunks: seq<RetrievedChunk>) {
    forall k :: 0 <= k < |indexes| ==> 0 <= indexes[k] < |chunks| && Listed(sources, LocationOf(RefOf(chunks[indexes[k]])))
  }

  /** The sources are retrieved chunks in the order of their first citation, no document and page twice, and
      every cited chunk's document and page is among them. */
  lemma {:induction false} SourcesFollowTheCitations(indexes: seq<int>, chunks: seq<RetrievedChunk>) returns (from: seq<nat>)
    requires AllExist(indexes, chunks)
    ensures FromFirstCitations(SourcesOf(indexes, chunks), indexes, chunks, from)
    ensures DistinctLocations(SourcesOf(indexes, chunks))
    ensures AllListed(SourcesOf(indexes, chunks), indexes, chunks)
    decreases |indexes|
  {
    from := [];
    if indexes != [] {
      var n := |indexes| - 1;
      from := SourcesFollowTheCitations(indexes[..n], chunks);
      var before, s := SourcesOf(indexes[..n], chunks), RefOf(chunks[indexes[n]]);
      hide Listed, FromFirstCitations, DistinctLocations, AllListed;
      OneMoreCitation(before, indexes, chunks, from);
      if !Listed(before, LocationOf(s)) { from := from + [n]; }
    }
  }

  lemma OneMoreCitation(before: seq<SourceRef>, indexes: seq<int>, chunks: seq<RetrievedChunk>, from: seq<nat>)
    requires indexes != [] && 0 <= indexes[|indexes| - 1] < |chunks|
    requires FromFirstCitations(before, indexes[..|indexes| - 1], chunks, from)
    requires DistinctLocations(before) && AllListed(before, indexes[..|indexes| - 1], chunks)
    ensures var s := RefOf(chunks[indexes[|indexes| - 1]]);
            if Listed(before, LocationOf(s)) then
              FromFirstCitations(before, indexes, chunks, from) && AllListed(before, indexes, chunks)
            else
              && FromFirstCitations(before + [s], indexes, chunks, from + [|indexes| - 1])
              && DistinctLocations(before + [s]) && AllListed(before + [s], indexes, chunks)
  {
    var n := |indexes| - 1;
    var s := RefOf(chunks[indexes[n]]);
    ListedGrows(before, s);
    hide Listed;
    forall k | 0 <= k < n ensures 0 <= indexes[k] < |chunks| && Listed(before, LocationOf(RefOf(chunks[indexes[k]]))) {
      assert indexes[..n][k] == indexes[k];
    }
    if !Listed(before, LocationOf(s)) {
      forall k | 0 <= k < |before| ensures LocationOf(before[k]) != LocationOf(s) { NotListed(before, LocationOf(s), k); }
    }
  }

  lemma NotListed(sources: seq<SourceRef>, l: Location, k: nat)
    requires k < |sources| && !Listed(sources, l)
    ensures LocationOf(sources[k]) != l
  {}

  // ---- citations that the service prints itself ----

  /** The citation of the i-th excerpt, as printed without a model. */
  function PrintedReference(i: int, c: RetrievedChunk): Token {
    if c.pageStart == None then Bare(i) else Item(i, c.pageStart.value, LastPage(c))
  }

  function Excerpts(selected: seq<RetrievedChunk>, from: nat, excerpt: RetrievedChunk -> string): seq<Token>
    requires from <= |selected|
    decreases |selected| - from
  {
    if from == |selected| then []
    else
      [Words(excerpt(selected[from])), Open, PrintedReference(from + 1, selected[from]), Close]
      + Excerpts(selected, from + 1, excerpt)
  }

  function PrintedReferences(selected: seq<RetrievedChunk>, n: nat): seq<Token>
    requires n <= |selected|
  {
    seq(n, k requires 0 <= k < n => PrintedReference(k + 1, selected[k]))
  }

  /** The positions of those among the first `n` whose page is known. */
  function PagedIndexes(selected: seq<RetrievedChunk>, n: nat): seq<int>
    requires n <= |selected|
  {
    if n == 0 then [] else PagedIndexes(selected, n - 1) + if selected[n - 1].pageStart.Some? then [n - 1] else []
  }

  /** Excerpt number k is printed as its text and a bracketed citation of source k + 1 with the pages of its chunk. */
  lemma {:induction false} ExcerptsArePrinted(selected: seq<RetrievedChunk>, from: nat, excerpt: RetrievedChunk -> string,
                                              k: nat)
    requires from <= k < |selected|
    ensures var tokens, at, c := Excerpts(selected, from, excerpt), 4 * (k - from), selected[k];
            && |tokens| == 4 * (|selected| - from) && tokens[at] == Words(excerpt(c)) && tokens[at + 1] == Open
            && tokens[at + 3] == Close
            && (c.pageStart == None ==> tokens[at + 2] == Bare(k + 1))
            && (c.pageStart.Some? ==>
                  tokens[at + 2] == Item(k + 1, c.pageStart.value, if c.pageEnd == c.pageStart then None else c.pageEnd))
    decreases k - from
  {
    if from < k {
      ExcerptsArePrinted(selected, from + 1, excerpt, k);
      FirstExcerpt(selected, from, excerpt);
      var tokens, at := Excerpts(selected, from, excerpt), 4 * (k - from);
      hide Excerpts;
      assert forall i :: at <= i < at + 4 ==> tokens[i] == tokens[4..][i - 4];
    } else {
      ExcerptsCount(selected, from, excerpt);
    }
  }

  lemma FirstExcerpt(selected: seq<RetrievedChunk>, from: nat, excerpt: RetrievedChunk -> string)
    requires from < |selected|
    ensures |Excerpts(selected, from, excerpt)| == 4 + |Excerpts(selected, from + 1, excerpt)|
    ensures Excerpts(selected, from, excerpt)[4..] == Excerpts(selected, from + 1, excerpt)
  {}

  lemma {:induction false} ExcerptsCount(selected: seq<RetrievedChunk>, from: nat, excerpt: RetrievedChunk -> string)
    requires from <= |selected|
    ensures |Excerpts(selected, from, excerpt)| == 4 * (|selected| - from)
    decreases |selected| - from
  {
    if from < |selected| { ExcerptsCount(selected, from + 1, excerpt); }
  }

  lemma {:induction false} ExcerptsGroup(selected: seq<RetrievedChunk>, from: nat, excerpt: RetrievedChunk -> string)
    requires from <= |selected|
    ensures Grouped(Excerpts(selected, from, excerpt)) == PrintedReferences(selected, |selected|)[from..]
    decreases |selected| - from
  {
    if from < |selected| {
      ExcerptsGroup(selected, from + 1, excerpt);
      OneGroup(excerpt(selected[from]), PrintedReference(from + 1, selected[from]), Excerpts(selected, from + 1, excerpt));
      hide Grouped;
    }
  }

  lemma OneGroup(text: string, reference: Token, rest: seq<Token>)
    requires reference.Bare? || reference.Item?
    ensures Grouped([Words(text), Open, reference, Close] + rest) == [reference] + Grouped(rest)
  {
    var all := [Words(text), Open, reference, Close] + rest;
    var inner := [reference, Close] + rest;
    assert all[1..][1..] == inner;
    assert inner[1..][0] == Close && CloseAt(inner[1..]) == 0;
    assert CloseAt(inner) == 1;
    assert inner[..1] == [reference] && inner[2..] == rest;
    assert [reference][1..] == [];
    assert References([reference]) == [reference] && SourceNumbers([reference]) == [reference.source];
  }

  /** A printed list of excerpts cites exactly the excerpts with known pages, in order, each under its own number. */
  lemma {:induction false} PrintedCitationsReadBack(selected: seq<RetrievedChunk>, n: nat)
    requires n <= |selected|
    ensures CitedIndexes(PrintedReferences(selected, n), selected) == PagedIndexes(selected, n)
    ensures forall i :: i in PagedIndexes(selected, n) <==> 0 <= i < n && selected[i].pageStart.Some?
  {
    hide CitedIndexes, ValidItem;
    CitedAppends([], [], selected);
    if n > 0 {
      PrintedCitationsReadBack(selected, n - 1);
      var last := PrintedReference(n, selected[n - 1]);
      PrintedIsValid(selected, n);
      OneMorePrinted(selected, n);
      hide PrintedReferences, PrintedReference;
      CitedAppends(PrintedReferences(selected, n - 1), [last], selected);
    } else {
      assert PrintedReferences(selected, 0) == [];
    }
  }

  lemma OneMorePrinted(selected: seq<RetrievedChunk>, n: nat)
    requires 0 < n <= |selected|
    ensures PrintedReferences(selected, n) == PrintedReferences(selected, n - 1) + [PrintedReference(n, selected[n - 1])]
  {}

  lemma PrintedIsValid(selected: seq<RetrievedChunk>, n: nat)
    requires 0 < n <= |selected|
    ensures ValidItem(PrintedReference(n, selected[n - 1]), selected) <==> selected[n - 1].pageStart.Some?
    ensures PrintedReference(n, selected[n - 1]).Bare? || PrintedReference(n, selected[n - 1]).Item?
    ensures PrintedReference(n, selected[n - 1]).source == n
  {}

  // ---- the excerpts that replace an answer when every attempt overflows ----

  const MAX_EXTRACTIVE_SOURCES: nat := 3

  function PlaceOf(c: RetrievedChunk): Location {
    Location(c.documentId, c.pageStart)
  }

  /** The first three candidates from different pages. */
  function Excerpted(candidates: seq<RetrievedChunk>): seq<RetrievedChunk> {
    if candidates == [] then []
    else
      var before, c := Excerpted(candidates[..|candidates| - 1]), candidates[|candidates| - 1];
      if |before| < MAX_EXTRACTIVE_SOURCES && !Listed(Refs(before), PlaceOf(c)) then before + [c] else before
  }

  function Refs(chunks: seq<RetrievedChunk>): seq<SourceRef> {
    seq(|chunks|, k requires 0 <= k < |chunks| => RefOf(chunks[k]))
  }

  lemma {:induction false} EnoughExcerpts(candidates: seq<RetrievedChunk>, n: nat)
    requires n <= |candidates| && |Excerpted(candidates[..n])| >= MAX_EXTRACTIVE_SOURCES
    ensures Excerpted(candidates) == Excerpted(candidates[..n])
    decreases |candidates| - n
  {
    if n < |candidates| {
      assert candidates[..n + 1][..n] == candidates[..n];
      EnoughExcerpts(candidates, n + 1);
    } else {
      assert candidates[..n] == candidates;
    }
  }

  /** The fallback's answer as tokens, and its sources. */
  method ExtractiveContextFallback(candidates: seq<RetrievedChunk>, excerpt: RetrievedChunk -> string)
      returns (answer: seq<Token>, sources: seq<SourceRef>)
    ensures answer == Excerpts(Excerpted(candidates), 0, excerpt) && sources == Refs(Excerpted(candidates))
    ensures forall k :: 0 <= k < |Excerpted(candidates)| ==> IsSource(sources[k], Excerpted(candidates)[k])
  {
    var selected: seq<RetrievedChunk>, seen: set<Location> := [], {};
    var i := 0;
    while i < |candidates|
      invariant 0 <= i <= |candidates| && selected == Excerpted(candidates[..i])
      invariant |selected| < MAX_EXTRACTIVE_SOURCES
      invariant forall l :: l in seen <==> Listed(Refs(selected), l)
    {
      var c := candidates[i];
      assert candidates[..i + 1][..i] == candidates[..i];
      i := i + 1;
      if PlaceOf(c) in seen { continue; }
      ListedGrows(Refs(selected), RefOf(c));
      assert Refs(selected + [c]) == Refs(selected) + [RefOf(c)];
      seen := seen + {PlaceOf(c)};
      selected := selected + [c];
      if |selected| >= MAX_EXTRACTIVE_SOURCES {
        EnoughExcerpts(candidates, i);
        break;
      }
    }
    assert candidates[..|candidates|] == candidates;
    answer := Excerpts(selected, 0, excerpt);
    sources := Refs(selected);
  }

  lemma {:induction false} ExcerptedPages(candidates: seq<RetrievedChunk>)
    ensures var r := Excerpted(candidates);
            && |r| <= MAX_EXTRACTIVE_SOURCES
            && (forall c :: c in r ==> c in candidates)
            && (forall j, k :: 0 <= j < k < |r| ==> PlaceOf(r[j]) != PlaceOf(r[k]))
    decreases |candidates|
  {
    if candidates != [] {
      var before, c := Excerpted(candidates[..|candidates| - 1]), candidates[|candidates| - 1];
      ExcerptedPages(candidates[..|candidates| - 1]);
      if !Listed(Refs(before), PlaceOf(c)) {
        forall k | 0 <= k < |before| ensures PlaceOf(before[k]) != PlaceOf(c) { NotListed(Refs(before), PlaceOf(c), k); }
      }
      hide Listed;
    }
  }

  /** The excerpts are candidates in order; every candidate up to the third excerpt, and every one at all if there are
      fewer than three, stands on the page of an excerpt that is not behind it. */
  ghost predicate FirstPages(candidates: seq<RetrievedChunk>, excerpts: seq<RetrievedChunk>, places: seq<nat>) {
    && Subsequence(excerpts, candidates, places)
    && forall i :: 0 <= i < |candidates| && (|excerpts| < 3 || i <= places[2]) ==> OnAPage(candidates[i], excerpts, places, i)
  }

  ghost predicate OnAPage(c: RetrievedChunk, excerpts: seq<RetrievedChunk>, places: seq<nat>, i: nat)
    requires |excerpts| == |places|
  {
    exists k :: 0 <= k < |excerpts| && places[k] <= i
                && excerpts[k].documentId == c.documentId && excerpts[k].pageStart == c.pageStart
  }

  lemma {:induction false} ExcerptsAreTheFirstPages(candidates: seq<RetrievedChunk>) returns (places: seq<nat>)
    ensures FirstPages(candidates, Excerpted(candidates), places)
    decreases |candidates|
  {
    hide FirstPages;
    places := [];
    if candidates != [] {
      var n := |candidates| - 1;
      places := ExcerptsAreTheFirstPages(candidates[..n]);
      var before := Excerpted(candidates[..n]);
      ExcerptedPages(candidates[..n]);
      OneMoreCandidate(candidates, before, places);
      if |before| < 3 && !Listed(Refs(before), PlaceOf(candidates[n])) { places := places + [n]; }
    } else {
      NoPages();
    }
  }

  lemma NoPages()
    ensures FirstPages([], Excerpted([]), [])
  {}

  lemma OneMoreCandidate(candidates: seq<RetrievedChunk>, before: seq<RetrievedChunk>, had: seq<nat>)
    requires candidates != [] && FirstPages(candidates[..|candidates| - 1], before, had) && |before| <= 3
    ensures var n := |candidates| - 1;
            if |before| < 3 && !Listed(Refs(before), PlaceOf(candidates[n]))
            then FirstPages(candidates, before + [candidates[n]], had + [n]) else FirstPages(candidates, before, had)
  {
    hide OnAPage, Subsequence, Refs;
    var n := |candidates| - 1;
    var c := candidates[n];
    assert candidates[..n] + [c] == candidates;
    SubsequenceGrows(before, candidates[..n], had, c);
    assert |had| == |before| && forall k :: 0 <= k < |had| ==> had[k] < n by { PlacesAreInside(before, candidates[..n], had); }
    forall i | 0 <= i < n && (|before| < 3 || i <= had[2]) ensures OnAPage(candidates[i], before, had, i) {
      assert OnAPage(candidates[..n][i], before, had, i);
    }
    if |before| < 3 && !Listed(Refs(before), PlaceOf(c)) {
      hide Listed;
      forall i | 0 <= i < |candidates| ensures OnAPage(candidates[i], before + [c], had + [n], i) {
        if i < n { PageStays(candidates[i], before, had, i, c, n); } else { OwnPage(c, before, had, n); }
      }
      assert FirstPages(candidates, before + [c], had + [n]);
    } else {
      if |before| < 3 { PageIsListed(c, before, had, n); }
      assert FirstPages(candidates, before, had);
    }
  }

  lemma PlacesAreInside<T>(kept: seq<T>, all: seq<T>, places: seq<nat>)
    requires Subsequence(kept, all, places)
    ensures |places| == |kept| && forall k :: 0 <= k < |places| ==> places[k] < |all|
  {}

  lemma PageStays(d: RetrievedChunk, before: seq<RetrievedChunk>, had: seq<nat>, i: nat, c: RetrievedChunk, n: nat)
    requires |before| == |had| && OnAPage(d, before, had, i)
    ensures OnAPage(d, before + [c], had + [n], i)
  {
    var k :| 0 <= k < |before| && had[k] <= i && before[k].documentId == d.documentId && before[k].pageStart == d.pageStart;
    assert (before + [c])[k] == before[k] && (had + [n])[k] == had[k];
  }

  lemma OwnPage(c: RetrievedChunk, before: seq<RetrievedChunk>, had: seq<nat>, n: nat)
    requires |before| == |had|
    ensures OnAPage(c, before + [c], had + [n], n)
  {
    assert (before + [c])[|before|] == c && (had + [n])[|before|] == n;
  }

  lemma PageIsListed(c: RetrievedChunk, before: seq<RetrievedChunk>, had: seq<nat>, n: nat)
    requires |before| == |had| && Listed(Refs(before), PlaceOf(c)) && forall k :: 0 <= k < |had| ==> had[k] <= n
    ensures OnAPage(c, before, had, n)
  {
    var k :| 0 <= k < |before| && LocationOf(Refs(before)[k]) == PlaceOf(c);
    assert before[k].documentId == c.documentId && before[k].pageStart == c.pageStart;
  }

  function Paged(selected: seq<RetrievedChunk>, n: nat): seq<RetrievedChunk>
    requires n <= |selected|
  {
    if n == 0 then [] else Paged(selected, n - 1) + if selected[n - 1].pageStart.Some? then [selected[n - 1]] else []
  }

  /** A reader of the fallback's citations finds the sources of exactly the excerpts with known pages; these are
      the sources the fallback lists if and only if all of its excerpts have one. */
  lemma FallbackCitesItsSources(candidates: seq<RetrievedChunk>, excerpt: RetrievedChunk -> string)
    ensures var selected := Excerpted(candidates);
            var indexes := CitedIndexes(Grouped(Excerpts(selected, 0, excerpt)), selected);
            && AllExist(indexes, selected)
            && SourcesOf(indexes, selected) == Refs(Paged(selected, |selected|))
            && (SourcesOf(indexes, selected) == Refs(selected) <==>
                  forall k :: 0 <= k < |selected| ==> selected[k].pageStart.Some?)
  {
    hide Grouped, CitedIndexes, Excerpts, SourcesOf, Excerpted, PrintedReferences, PagedIndexes, Paged;
    var selected := Excerpted(candidates);
    ExcerptedPages(candidates);
    ExcerptsGroup(selected, 0, excerpt);
    PrintedCitationsReadBack(selected, |selected|);
    CitedIndexesExist(PrintedReferences(selected, |selected|), selected);
    PagedExcerptsAllStay(selected, |selected|);
    AllPagedExactly(selected, |selected|);
    assert selected[..|selected|] == selected;
  }

  lemma {:induction false} PagedAreSelected(selected: seq<RetrievedChunk>, n: nat, i: nat) returns (k: nat)
    requires n <= |selected| && i < |Paged(selected, n)|
    ensures k < n && selected[k] == Paged(selected, n)[i]
  {
    if i < |Paged(selected, n - 1)| { k := PagedAreSelected(selected, n - 1, i); } else { k := n - 1; }
  }

  lemma {:induction false} PagedExcerptsAllStay(selected: seq<RetrievedChunk>, n: nat)
    requires n <= |selected|
    requires forall j, k :: 0 <= j < k < |selected| ==> PlaceOf(selected[j]) != PlaceOf(selected[k])
    ensures AllExist(PagedIndexes(selected, n), selected)
    ensures SourcesOf(PagedIndexes(selected, n), selected) == Refs(Paged(selected, n))
  {
    hide SourcesOf, Listed;
    if n > 0 {
      PagedExcerptsAllStay(selected, n - 1);
      var indexes, before, c := PagedIndexes(selected, n - 1), Paged(selected, n - 1), selected[n - 1];
      if c.pageStart.Some? {
        forall i: nat | i < |before| ensures LocationOf(Refs(before)[i]) != PlaceOf(c) {
          var k := PagedAreSelected(selected, n - 1, i);
        }
        SourcesAppend(indexes, n - 1, selected);
        NewLocation(Refs(before), PlaceOf(c));
        assert Refs(before + [c]) == Refs(before) + [RefOf(c)];
        assert PagedIndexes(selected, n) == indexes + [n - 1] && Paged(selected, n) == before + [c];
      } else {
        assert PagedIndexes(selected, n) == indexes && Paged(selected, n) == before;
      }
    } else {
      NoSources(selected);
    }
  }

  lemma NoSources(chunks: seq<RetrievedChunk>)
    ensures SourcesOf([], chunks) == []
  {}

  lemma NewLocation(sources: seq<SourceRef>, l: Location)
    requires forall k :: 0 <= k < |sources| ==> LocationOf(sources[k]) != l
    ensures !Listed(sources, l)
  {}

  lemma SourcesAppend(indexes: seq<int>, i: nat, chunks: seq<RetrievedChunk>)
    requires AllExist(indexes, chunks) && i < |chunks|
    ensures AllExist(indexes + [i], chunks)
    ensures var before, s := SourcesOf(indexes, chunks), RefOf(chunks[i]);
            SourcesOf(indexes + [i], chunks) == if Listed(before, LocationOf(s)) then before else before + [s]
  {
    assert (indexes + [i])[..|indexes|] == indexes;
    hide Listed;
  }

  lemma {:induction false} AllPagedExactly(selected: seq<RetrievedChunk>, n: nat)
    requires n <= |selected|
    ensures |Paged(selected, n)| <= n
    ensures (forall k :: 0 <= k < n ==> selected[k].pageStart.Some?) ==> Paged(selected, n) == selected[..n]
    ensures |Paged(selected, n)| == n ==> forall k :: 0 <= k < n ==> selected[k].pageStart.Some?
  {
    if n > 0 { AllPagedExactly(selected, n - 1); }
  }
}
