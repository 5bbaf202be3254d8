/** The choice of the source blocks that fit the character budget of a generation prompt. */
module PromptBuilder {
  import opened Prelude
  import opened Retrieved
  import opened Text

  const MIN_TRUNCATED_CHUNK_CONTENT_CHARS: nat := 256
  const TRUNCATED_CHUNK_MARKER := "\n[… 입력 길이 제한으로 후반부 생략 …]"

  // ---- rendering ----

  function FormatPage(c: RetrievedChunk): string {
    if c.pageStart.None? then "unknown"
    else if c.pageEnd.None? || c.pageEnd == c.pageStart then Decimal(c.pageStart.value)
    else Decimal(c.pageStart.value) + "-" + Decimal(c.pageEnd.value)
  }

  function Section(index: nat, c: RetrievedChunk): string {
    "[Source " + Decimal(index) + "]\n"
    + "Document: " + c.documentTitle
    + "\nDocument ID: " + Decimal(c.documentId)
    + "\nPage: " + FormatPage(c)
    + "\nChunk ID: " + Decimal(c.chunkId)
    + "\nEvidence Modality: " + c.contentType
    + "\nText Evidence Quality: " + c.quality
    + "\nContent:\n"
    + c.content
  }

  function Sections(chunks: seq<RetrievedChunk>): seq<string> {
    seq(|chunks|, i requires 0 <= i < |chunks| => Section(i + 1, chunks[i]))
  }

  function BuildContext(chunks: seq<RetrievedChunk>): string {
    Join(Sections(chunks), "\n\n")
  }

  /** The page a block names. */
  ghost predicate PageIs(c: RetrievedChunk, page: string) {
    && (c.pageStart.None? ==> page == "unknown")
    && (c.pageStart.Some? && c.pageEnd in {None, c.pageStart} ==> page == Decimal(c.pageStart.value))
    && (c.pageStart.Some? && c.pageEnd !in {None, c.pageStart} ==>
          page == Decimal(c.pageStart.value) + "-" + Decimal(c.pageEnd.value))
  }

  /** The source block of a chunk under a number: it starts with the number, ends with the content, and names the
      document, the page and the chunk in between. */
  ghost predicate SourceBlock(block: string, number: nat, c: RetrievedChunk) {
    exists page :: PageIs(c, page) && block ==
      "[Source " + Natural(number) + "]\n" + "Document: " + c.documentTitle + "\nDocument ID: " + Decimal(c.documentId)
      + "\nPage: " + page + "\nChunk ID: " + Decimal(c.chunkId) + "\nEvidence Modality: " + c.contentType
      + "\nText Evidence Quality: " + c.quality + "\nContent:\n" + c.content
  }

  lemma SectionIsSourceBlock(number: nat, c: RetrievedChunk)
    ensures SourceBlock(Section(number, c), number, c)
  {
    assert PageIs(c, FormatPage(c));
    assert Decimal(number) == Natural(number);
    hide FormatPage, PageIs, Natural;
  }

  /** The rendered context: one source block for every chunk, numbered from 1 in the order of the chunks, with a
      blank line between neighbours; no two blocks carry the same number. */
  lemma ContextIsItsNumberedBlocks(chunks: seq<RetrievedChunk>) returns (blocks: seq<string>)
    ensures |blocks| == |chunks|
    ensures forall i :: 0 <= i < |chunks| ==> SourceBlock(blocks[i], i + 1, chunks[i])
    ensures forall i, j :: 1 <= i < j <= |chunks| ==> Natural(i) != Natural(j)
    ensures chunks == [] ==> BuildContext(chunks) == ""
    ensures forall i :: 0 <= i < |chunks| ==>
              BuildContext(chunks) == (if i == 0 then "" else Join(blocks[..i], "\n\n") + "\n\n") + blocks[i]
                                      + (if i == |chunks| - 1 then "" else "\n\n" + Join(blocks[i + 1..], "\n\n"))
  {
    hide SourceBlock, Section, Natural, Join;
    blocks := Sections(chunks);
    forall i | 0 <= i < |chunks| ensures SourceBlock(blocks[i], i + 1, chunks[i]) {
      SectionIsSourceBlock(i + 1, chunks[i]);
    }
    forall i, j | 1 <= i < j <= |chunks| ensures Natural(i) != Natural(j) {
      NaturalIsInjective(i, j);
    }
    if chunks == [] { EmptyContext(); }
    forall i | 0 <= i < |chunks|
      ensures BuildContext(chunks) == (if i == 0 then "" else Join(blocks[..i], "\n\n") + "\n\n") + blocks[i]
                                      + (if i == |chunks| - 1 then "" else "\n\n" + Join(blocks[i + 1..], "\n\n"))
    {
      JoinedPart(blocks, "\n\n", i);
    }
  }

  /** The block of one more chunk goes behind the blocks there are, under the next number. */
  lemma NextBlockGetsTheNextNumber(chunks: seq<RetrievedChunk>, c: RetrievedChunk) returns (block: string)
    ensures SourceBlock(block, |chunks| + 1, c)
    ensures BuildContext(chunks + [c]) == if chunks == [] then block else BuildContext(chunks) + "\n\n" + block
  {
    block := Section(|chunks| + 1, c);
    SectionIsSourceBlock(|chunks| + 1, c);
    hide SourceBlock, Section;
    assert Sections(chunks + [c]) == Sections(chunks) + [block];
    if chunks != [] { JoinAppends(Sections(chunks), block, "\n\n"); }
  }

  lemma ContextAppends(chunks: seq<RetrievedChunk>, c: RetrievedChunk)
    ensures |BuildContext(chunks + [c])| ==
              |BuildContext(chunks)| + (if chunks == [] then 0 else 2) + |Section(|chunks| + 1, c)|
  {
    hide Section;
    var last := Section(|chunks| + 1, c);
    assert Sections(chunks + [c]) == Sections(chunks) + [last];
    if chunks != [] { JoinAppends(Sections(chunks), last, "\n\n"); }
  }

  /** A block never gets shorter under a larger source number. */
  lemma SectionGrows(i: nat, j: nat, c: RetrievedChunk)
    requires i <= j
    ensures |Section(i, c)| <= |Section(j, c)|
  {
    NaturalGrows(i, j);
  }

  // ---- fitting one chunk ----

  /** The content cut to `n` characters, without the white space the cut leaves, and marked as cut. */
  function Truncated(c: RetrievedChunk, n: nat): RetrievedChunk
    requires n <= |c.content|
  {
    c.(content := RStrip(c.content[..n]) + TRUNCATED_CHUNK_MARKER)
  }

  function FitChunk(index: nat, c: RetrievedChunk, budget: int): Option<RetrievedChunk> {
    if |Section(index, c)| <= budget then Some(c)
    else
      var room := Room(index, c, budget);
      if room < MIN_TRUNCATED_CHUNK_CONTENT_CHARS then None
      else Some(Truncated(c, Min(room, |c.content|)))
  }

  /** The characters left for the content next to the metadata and the marker. */
  function Room(index: nat, c: RetrievedChunk, budget: int): int {
    budget - |Section(index, c.(content := ""))| - |TRUNCATED_CHUNK_MARKER|
  }

  /** Only the content differs: its first `n` characters up to the last visible one, and the marker. */
  ghost predicate CutTo(c: RetrievedChunk, cut: RetrievedChunk, n: int) {
    && 0 <= n < |c.content|
    && exists m ::
      && 0 <= m <= n && (m > 0 ==> !IsSpace(c.content[m - 1])) && (forall k :: m <= k < n ==> IsSpace(c.content[k]))
      && cut == c.(content := c.content[..m] + TRUNCATED_CHUNK_MARKER)
  }

  lemma TruncatedIsCut(c: RetrievedChunk, n: nat)
    requires n < |c.content|
    ensures CutTo(c, Truncated(c, n), n)
  {
    var m := Trimmed(c.content[..n]);
    assert RStrip(c.content[..n]) == c.content[..m];
  }

  /** A fitted chunk fits. It is whole exactly if it fits whole; otherwise its content is cut to all the room there
      is, unless that is below the minimum. */
  lemma FittedChunkFits(index: nat, c: RetrievedChunk, budget: int)
    ensures var room := Room(index, c, budget);
            var fitted := FitChunk(index, c, budget);
            && (fitted.Some? ==> |Section(index, fitted.value)| <= budget)
            && (fitted == Some(c) <==> |Section(index, c)| <= budget)
            && (fitted == None <==> |Section(index, c)| > budget && room < MIN_TRUNCATED_CHUNK_CONTENT_CHARS)
            && (fitted.Some? && fitted != Some(c) ==>
                  room >= MIN_TRUNCATED_CHUNK_CONTENT_CHARS && CutTo(c, fitted.value, room))
  {
    OtherContent(index, c, "");
    hide Section, CutTo;
    var room := Room(index, c, budget);
    if |Section(index, c)| > budget && room >= MIN_TRUNCATED_CHUNK_CONTENT_CHARS {
      assert FitChunk(index, c, budget) == Some(Truncated(c, room));
      OtherContent(index, c, Truncated(c, room).content);
      TruncatedIsCut(c, room);
    }
  }

  lemma OtherContent(index: nat, c: RetrievedChunk, text: string)
    ensures |Section(index, c.(content := text))| == |Section(index, c)| - |c.content| + |text|
  {
    assert FormatPage(c.(content := text)) == FormatPage(c);
    hide FormatPage, Decimal;
  }

  // ---- the order in which chunks are offered ----

  datatype Location = Location(document: int, start: Option<int>, end: Option<int>)

  function LocationOf(c: RetrievedChunk): Location {
    Location(c.documentId, c.pageStart, c.pageEnd)
  }

  /** The first chunk of a page that no evidence chunk and no earlier chunk comes from. */
  ghost predicate NewPage(chunks: seq<RetrievedChunk>, evidence: set<int>, i: nat)
    requires i < |chunks|
  {
    && chunks[i].chunkId !in evidence
    && (forall k :: 0 <= k < |chunks| && (k < i || chunks[k].chunkId in evidence) ==>
          LocationOf(chunks[k]) != LocationOf(chunks[i]))
  }

  /** 0 for evidence, 1 for a page not covered yet, 2 for a page again. */
  ghost function Rank(chunks: seq<RetrievedChunk>, evidence: set<int>, i: nat): (r: nat)
    requires i < |chunks|
    ensures r <= 2
  {
    if chunks[i].chunkId in evidence then 0 else if NewPage(chunks, evidence, i) then 1 else 2
  }

  /** The chunks of one rank among the first `n`, in retrieval order. */
  ghost function OfRank(chunks: seq<RetrievedChunk>, evidence: set<int>, rank: nat, n: nat): seq<RetrievedChunk>
    requires n <= |chunks|
  {
    if n == 0 then []
    else OfRank(chunks, evidence, rank, n - 1) + if Rank(chunks, evidence, n - 1) == rank then [chunks[n - 1]] else []
  }

  ghost function Prioritized(chunks: seq<RetrievedChunk>, evidence: set<int>): seq<RetrievedChunk> {
    OfRank(chunks, evidence, 0, |chunks|) + OfRank(chunks, evidence, 1, |chunks|) + OfRank(chunks, evidence, 2, |chunks|)
  }

  /** The positions of one rank among the first `n`, in retrieval order. */
  ghost function PlacesOfRank(chunks: seq<RetrievedChunk>, evidence: set<int>, rank: nat, n: nat): seq<nat>
    requires n <= |chunks|
  {
    if n == 0 then []
    else PlacesOfRank(chunks, evidence, rank, n - 1) + if Rank(chunks, evidence, n - 1) == rank then [n - 1] else []
  }

  /** Position j is offered before position k: it is of a lower rank, or of the same one and retrieved earlier. */
  ghost predicate OfferedBefore(chunks: seq<RetrievedChunk>, evidence: set<int>, j: nat, k: nat)
    requires j < |chunks| && k < |chunks|
  {
    || Rank(chunks, evidence, j) < Rank(chunks, evidence, k)
    || (Rank(chunks, evidence, j) == Rank(chunks, evidence, k) && j < k)
  }

  lemma {:induction false} PlacesAreOfTheirRank(chunks: seq<RetrievedChunk>, evidence: set<int>, rank: nat, n: nat)
    requires n <= |chunks|
    ensures var places := PlacesOfRank(chunks, evidence, rank, n);
            && |places| == |OfRank(chunks, evidence, rank, n)|
            && (forall k :: 0 <= k < |places| ==> places[k] < n && Rank(chunks, evidence, places[k]) == rank
                                                  && OfRank(chunks, evidence, rank, n)[k] == chunks[places[k]])
            && (forall j, k :: 0 <= j < k < |places| ==> places[j] < places[k])
  {
    hide Rank;
    if n > 0 { PlacesAreOfTheirRank(chunks, evidence, rank, n - 1); }
  }

  ghost predicate OfferOrder(chunks: seq<RetrievedChunk>, evidence: set<int>, places: seq<nat>) {
    && (forall k :: 0 <= k < |places| ==> places[k] < |chunks|)
    && (forall j, k :: 0 <= j < k < |places| ==> OfferedBefore(chunks, evidence, places[j], places[k]))
  }

  lemma NextRankGoesBehind(chunks: seq<RetrievedChunk>, evidence: set<int>, places: seq<nat>, rank: nat)
    requires OfferOrder(chunks, evidence, places)
    requires forall k :: 0 <= k < |places| ==> Rank(chunks, evidence, places[k]) < rank
    ensures OfferOrder(chunks, evidence, places + PlacesOfRank(chunks, evidence, rank, |chunks|))
    ensures forall k :: 0 <= k < |places + PlacesOfRank(chunks, evidence, rank, |chunks|)| ==>
              Rank(chunks, evidence, (places + PlacesOfRank(chunks, evidence, rank, |chunks|))[k]) < rank + 1
  {
    PlacesAreOfTheirRank(chunks, evidence, rank, |chunks|);
    hide Rank, PlacesOfRank, OfRank;
  }

  /** The offer visits every retrieved position once: evidence first, then new pages, then pages again, each kind
      in retrieval order. */
  lemma OfferGoesByRank(chunks: seq<RetrievedChunk>, evidence: set<int>) returns (order: seq<nat>)
    ensures |order| == |chunks| == |Prioritized(chunks, evidence)|
    ensures OfferOrder(chunks, evidence, order)
    ensures forall k :: 0 <= k < |order| ==> Prioritized(chunks, evidence)[k] == chunks[order[k]]
  {
    hide Rank, OfRank, PlacesOfRank, OfferedBefore, OfferOrder, Prioritized;
    AllAreOffered(chunks, evidence);
    order := [];
    assert OfferOrder(chunks, evidence, order) by { NoneIsOrdered(chunks, evidence); }
    NextRankGoesBehind(chunks, evidence, order, 0);
    order := order + PlacesOfRank(chunks, evidence, 0, |chunks|);
    NextRankGoesBehind(chunks, evidence, order, 1);
    order := order + PlacesOfRank(chunks, evidence, 1, |chunks|);
    NextRankGoesBehind(chunks, evidence, order, 2);
    order := order + PlacesOfRank(chunks, evidence, 2, |chunks|);
    PlacesOfTheOffer(chunks, evidence, order);
  }

  lemma NoneIsOrdered(chunks: seq<RetrievedChunk>, evidence: set<int>)
    ensures OfferOrder(chunks, evidence, [])
  {}

  lemma AllAreOffered(chunks: seq<RetrievedChunk>, evidence: set<int>)
    ensures |Prioritized(chunks, evidence)| == |chunks|
  {
    EveryChunkIsOffered(chunks, evidence);
    hide Prioritized;
    assert |multiset(Prioritized(chunks, evidence))| == |multiset(chunks)|;
  }

  lemma PlacesOfTheOffer(chunks: seq<RetrievedChunk>, evidence: set<int>, order: seq<nat>)
    requires order == [] + PlacesOfRank(chunks, evidence, 0, |chunks|) + PlacesOfRank(chunks, evidence, 1, |chunks|)
                      + PlacesOfRank(chunks, evidence, 2, |chunks|)
    ensures |order| == |Prioritized(chunks, evidence)|
    ensures forall k :: 0 <= k < |order| ==>
              order[k] < |chunks| && Prioritized(chunks, evidence)[k] == chunks[order[k]]
  {
    PlacesAreOfTheirRank(chunks, evidence, 0, |chunks|);
    PlacesAreOfTheirRank(chunks, evidence, 1, |chunks|);
    PlacesAreOfTheirRank(chunks, evidence, 2, |chunks|);
    hide Rank, OfRank, PlacesOfRank;
  }

  lemma OneMore<T>(a: multiset<T>, b: multiset<T>, c: multiset<T>, all: multiset<T>, x: T)
    requires a + b + c == all
    ensures (a + multiset{x}) + b + c == all + multiset{x}
    ensures a + (b + multiset{x}) + c == all + multiset{x}
    ensures a + b + (c + multiset{x}) == all + multiset{x}
  {}

  lemma {:induction false} RanksPartition(chunks: seq<RetrievedChunk>, evidence: set<int>, n: nat)
    requires n <= |chunks|
    ensures multiset(OfRank(chunks, evidence, 0, n)) + multiset(OfRank(chunks, evidence, 1, n))
            + multiset(OfRank(chunks, evidence, 2, n)) == multiset(chunks[..n])
  {
    hide Rank, OfRank;
    if n == 0 {
      NoneYet(chunks, evidence);
    } else {
      RanksPartition(chunks, evidence, n - 1);
      OfRankSteps(chunks, evidence, 0, n);
      OfRankSteps(chunks, evidence, 1, n);
      OfRankSteps(chunks, evidence, 2, n);
      var last := chunks[n - 1];
      assert multiset(chunks[..n]) == multiset(chunks[..n - 1]) + multiset{last} by {
        assert chunks[..n] == chunks[..n - 1] + [last];
      }
      OneMore(multiset(OfRank(chunks, evidence, 0, n - 1)), multiset(OfRank(chunks, evidence, 1, n - 1)),
              multiset(OfRank(chunks, evidence, 2, n - 1)), multiset(chunks[..n - 1]), last);
    }
  }

  lemma NoneYet(chunks: seq<RetrievedChunk>, evidence: set<int>)
    ensures forall rank: nat :: OfRank(chunks, evidence, rank, 0) == []
  {}

  lemma OfRankSteps(chunks: seq<RetrievedChunk>, evidence: set<int>, rank: nat, n: nat)
    requires 0 < n <= |chunks|
    ensures multiset(OfRank(chunks, evidence, rank, n))
            == if Rank(chunks, evidence, n - 1) == rank
               then multiset(OfRank(chunks, evidence, rank, n - 1)) + multiset{chunks[n - 1]}
               else multiset(OfRank(chunks, evidence, rank, n - 1))
  {
    hide Rank;
  }

  /** Every chunk is offered, exactly as often as it was retrieved. */
  lemma EveryChunkIsOffered(chunks: seq<RetrievedChunk>, evidence: set<int>)
    ensures multiset(Prioritized(chunks, evidence)) == multiset(chunks)
  {
    RanksPartition(chunks, evidence, |chunks|);
    assert chunks[..|chunks|] == chunks;
  }

  method Prioritize(chunks: seq<RetrievedChunk>, evidence: set<int>) returns (offered: seq<RetrievedChunk>)
    ensures offered == Prioritized(chunks, evidence)
  {
    var evidenceChunks, covered := EvidenceFirst(chunks, evidence);
    var distinctPage, repeatedPage := [], [];
    for i := 0 to |chunks|
      invariant distinctPage == OfRank(chunks, evidence, 1, i) && repeatedPage == OfRank(chunks, evidence, 2, i)
      invariant Covered(chunks, evidence, i, covered)
    {
      var chunk := chunks[i];
      if chunk.chunkId in evidence { continue; }
      CoveredTellsNewPage(chunks, evidence, i, covered);
      hide NewPage, Covered;
      if LocationOf(chunk) !in covered {
        distinctPage := distinctPage + [chunk];
        covered := covered + {LocationOf(chunk)};
      } else {
        repeatedPage := repeatedPage + [chunk];
      }
    }
    offered := evidenceChunks + distinctPage + repeatedPage;
  }

  /** The pages of the evidence chunks and of the first `n` chunks. */
  ghost predicate Covered(chunks: seq<RetrievedChunk>, evidence: set<int>, n: nat, covered: set<Location>)
    requires n <= |chunks|
  {
    forall l :: l in covered <==>
      exists k :: 0 <= k < |chunks| && (k < n || chunks[k].chunkId in evidence) && LocationOf(chunks[k]) == l
  }

  lemma CoveredTellsNewPage(chunks: seq<RetrievedChunk>, evidence: set<int>, i: nat, covered: set<Location>)
    requires i < |chunks| && chunks[i].chunkId !in evidence && Covered(chunks, evidence, i, covered)
    ensures LocationOf(chunks[i]) !in covered <==> NewPage(chunks, evidence, i)
    ensures Covered(chunks, evidence, i + 1, covered + {LocationOf(chunks[i])})
    ensures LocationOf(chunks[i]) in covered ==> Covered(chunks, evidence, i + 1, covered)
  {
    assert LocationOf(chunks[i]) in covered ==> covered + {LocationOf(chunks[i])} == covered;
    var more := covered + {LocationOf(chunks[i])};
    forall l ensures l in more <==>
      exists k :: 0 <= k < |chunks| && (k < i + 1 || chunks[k].chunkId in evidence) && LocationOf(chunks[k]) == l
    {
      if l == LocationOf(chunks[i]) {
        assert LocationOf(chunks[i]) == l;
      } else if l in covered {
        var k :| 0 <= k < |chunks| && (k < i || chunks[k].chunkId in evidence) && LocationOf(chunks[k]) == l;
      }
    }
  }

  method EvidenceFirst(chunks: seq<RetrievedChunk>, evidence: set<int>)
      returns (chosen: seq<RetrievedChunk>, covered: set<Location>)
    ensures chosen == OfRank(chunks, evidence, 0, |chunks|)
    ensures Covered(chunks, evidence, 0, covered)
  {
    chosen, covered := [], {};
    for i := 0 to |chunks|
      invariant chosen == OfRank(chunks, evidence, 0, i)
      invariant forall l :: l in covered <==>
        exists k :: 0 <= k < i && chunks[k].chunkId in evidence && LocationOf(chunks[k]) == l
    {
      if chunks[i].chunkId in evidence {
        chosen := chosen + [chunks[i]];
        covered := covered + {LocationOf(chunks[i])};
      }
    }
  }

  // ---- the selection ----

  /** The characters that are left for the content of a chunk whose block stands alone and is cut. */
  ghost function RoomAlone(c: RetrievedChunk, max: int): int {
    max - |BuildContext([c.(content := "")])| - |TRUNCATED_CHUNK_MARKER|
  }

  /** Whole; or, as the first source block only and because it does not fit whole, cut to the room there is. */
  ghost predicate TakenFrom(c: RetrievedChunk, taken: RetrievedChunk, first: bool, max: int) {
    || taken == c
    || (first && |BuildContext([c])| > max && RoomAlone(c, max) >= MIN_TRUNCATED_CHUNK_CONTENT_CHARS
        && CutTo(c, taken, RoomAlone(c, max)))
  }

  /** `picks` are the offered positions that were taken, in order. */
  ghost predicate Picked(offered: seq<RetrievedChunk>, selected: seq<RetrievedChunk>, picks: seq<nat>, max: int) {
    && |picks| == |selected|
    && (forall j, k :: 0 <= j < k < |picks| ==> picks[j] < picks[k])
    && (forall k :: 0 <= k < |picks| ==> picks[k] < |offered| && TakenFrom(offered[picks[k]], selected[k], k == 0, max))
  }

  /** Appended whole at the end, the chunk would break the budget. */
  ghost predicate TooLong(selected: seq<RetrievedChunk>, c: RetrievedChunk, max: int) {
    |BuildContext(selected + [c])| > max
  }

  /** Among the first `n` offered chunks, all that were not taken are too long, and those before the first one that
      was taken could not be cut either. */
  ghost predicate Maximal(offered: seq<RetrievedChunk>, selected: seq<RetrievedChunk>, picks: seq<nat>, n: nat, max: int)
    requires n <= |offered|
  {
    && (forall i :: 0 <= i < n && i !in picks ==> TooLong(selected, offered[i], max))
    && (forall i :: 0 <= i < n && (picks == [] || i < picks[0]) ==>
          RoomAlone(offered[i], max) < MIN_TRUNCATED_CHUNK_CONTENT_CHARS)
  }

  lemma TooLongStays(selected: seq<RetrievedChunk>, taken: RetrievedChunk, c: RetrievedChunk, max: int)
    requires TooLong(selected, c, max)
    ensures TooLong(selected + [taken], c, max)
  {
    ContextAppends(selected, c);
    ContextAppends(selected, taken);
    ContextAppends(selected + [taken], c);
    SectionGrows(|selected| + 1, |selected| + 2, c);
    hide BuildContext, Section;
  }

  /** The state of the selection after the first `n` offered chunks: `used` is the rendered length. */
  ghost predicate Chosen(offered: seq<RetrievedChunk>, selected: seq<RetrievedChunk>, picks: seq<nat>, n: nat,
                         used: int, max: int)
  {
    && n <= |offered|
    && used == |BuildContext(selected)| && (selected != [] ==> used <= max)
    && Picked(offered, selected, picks, max) && (forall p :: p in picks ==> p < n)
    && Maximal(offered, selected, picks, n, max)
  }

  lemma SkipKeeps(offered: seq<RetrievedChunk>, selected: seq<RetrievedChunk>, picks: seq<nat>, i: nat,
                  used: int, max: int)
    requires i < |offered| && Chosen(offered, selected, picks, i, used, max) && TooLong(selected, offered[i], max)
    requires selected == [] ==> RoomAlone(offered[i], max) < MIN_TRUNCATED_CHUNK_CONTENT_CHARS
    ensures Chosen(offered, selected, picks, i + 1, used, max)
  {
    hide BuildContext, TooLong, RoomAlone, TakenFrom;
    assert picks != [] ==> picks[0] in picks;
    assert Maximal(offered, selected, picks, i + 1, max);
  }

  lemma PickedGrows(offered: seq<RetrievedChunk>, selected: seq<RetrievedChunk>, picks: seq<nat>, i: nat,
                    max: int, taken: RetrievedChunk)
    requires Picked(offered, selected, picks, max) && (forall p :: p in picks ==> p < i)
    requires i < |offered| && TakenFrom(offered[i], taken, selected == [], max)
    ensures Picked(offered, selected + [taken], picks + [i], max) && (forall p :: p in picks + [i] ==> p < i + 1)
  {
    hide TakenFrom;
    forall k | 0 <= k < |picks| ensures picks[k] < i { assert picks[k] in picks; }
  }

  lemma MaximalGrows(offered: seq<RetrievedChunk>, selected: seq<RetrievedChunk>, picks: seq<nat>, i: nat, max: int,
                     taken: RetrievedChunk)
    requires i < |offered| && Maximal(offered, selected, picks, i, max) && (picks != [] ==> picks[0] < i)
    ensures Maximal(offered, selected + [taken], picks + [i], i + 1, max)
  {
    hide TooLong, RoomAlone;
    forall k | 0 <= k < i + 1 && k !in picks + [i] ensures TooLong(selected + [taken], offered[k], max) {
      assert k != i by { assert (picks + [i])[|picks|] == i; }
      TooLongStays(selected, taken, offered[k], max);
    }
    assert (picks + [i])[0] == if picks == [] then i else picks[0];
    assert forall k :: 0 <= k < i + 1 && k < (picks + [i])[0] ==>
      RoomAlone(offered[k], max) < MIN_TRUNCATED_CHUNK_CONTENT_CHARS;
  }

  lemma TakeKeeps(offered: seq<RetrievedChunk>, selected: seq<RetrievedChunk>, picks: seq<nat>, i: nat,
                  used: int, max: int, taken: RetrievedChunk)
    requires i < |offered| && Chosen(offered, selected, picks, i, used, max)
    requires TakenFrom(offered[i], taken, selected == [], max) && |BuildContext(selected + [taken])| <= max
    ensures Chosen(offered, selected + [taken], picks + [i], i + 1, |BuildContext(selected + [taken])|, max)
  {
    hide BuildContext, Picked, Maximal, TakenFrom;
    PickedGrows(offered, selected, picks, i, max, taken);
    assert picks != [] ==> picks[0] in picks;
    MaximalGrows(offered, selected, picks, i, max, taken);
  }

  lemma FirstStandsAlone(c: RetrievedChunk, max: int)
    ensures |BuildContext([c])| == |Section(1, c)| && RoomAlone(c, max) == Room(1, c, max)
  {
    assert [] + [c] == [c] && [] + [c.(content := "")] == [c.(content := "")];
    ContextAppends([], c);
    ContextAppends([], c.(content := ""));
    assert |BuildContext([])| == 0;
    hide BuildContext, Section;
  }

  lemma FirstIsFitted(c: RetrievedChunk, max: int)
    ensures var fitted := FitChunk(1, c, max);
            && (fitted.None? ==> RoomAlone(c, max) < MIN_TRUNCATED_CHUNK_CONTENT_CHARS && |Section(1, c)| > max)
            && (fitted.Some? ==> TakenFrom(c, fitted.value, true, max) && |Section(1, fitted.value)| <= max)
  {
    hide BuildContext, Section, FitChunk, CutTo, RoomAlone, Room;
    FirstStandsAlone(c, max);
    FittedChunkFits(1, c, max);
  }

  /** One offer: the block to append, if any, and the characters it adds to the rendered context. */
  method Offer(selected: seq<RetrievedChunk>, used: int, max: int, chunk: RetrievedChunk)
      returns (fitted: Option<RetrievedChunk>, added: nat)
    requires used == |BuildContext(selected)|
    ensures fitted.None? ==> TooLong(selected, chunk, max)
    ensures fitted.None? && selected == [] ==> RoomAlone(chunk, max) < MIN_TRUNCATED_CHUNK_CONTENT_CHARS
    ensures fitted.Some? ==> TakenFrom(chunk, fitted.value, selected == [], max)
    ensures fitted.Some? ==> used + added == |BuildContext(selected + [fitted.value])| <= max
  {
    hide BuildContext, Section, FitChunk, CutTo, RoomAlone, Room;
    var separator := if selected != [] then 2 else 0;
    var budget := max - used - separator;
    ContextAppends(selected, chunk);
    FittedChunkFits(|selected| + 1, chunk, budget);
    FirstIsFitted(chunk, max);
    assert selected == [] ==> |BuildContext(selected)| == 0 by { EmptyContext(); }
    fitted, added := None, 0;
    if selected == [] || |Section(|selected| + 1, chunk)| <= budget {
      fitted := FitChunk(|selected| + 1, chunk, budget);
      if fitted.Some? {
        ContextAppends(selected, fitted.value);
        added := separator + |Section(|selected| + 1, fitted.value)|;
      }
    }
    assert fitted.None? ==> TooLong(selected, chunk, max);
    assert fitted.Some? ==> TakenFrom(chunk, fitted.value, selected == [], max);
  }

  lemma EmptyContext()
    ensures BuildContext([]) == ""
  {}

  /**
   The selection. The characters counted while choosing are exactly those of the rendered context, which never
   exceeds the budget; the order of the offer is kept, only the first block may be cut, and then to all the room
   there is; no chunk that was left out would still fit behind what was chosen, and before the first source there
   is none that could have been cut.
   */
  method SelectGenerationChunks(chunks: seq<RetrievedChunk>, evidence: set<int>, max: int)
      returns (selected: seq<RetrievedChunk>, ghost picks: seq<nat>)
    ensures Picked(Prioritized(chunks, evidence), selected, picks, max)
    ensures selected != [] ==> |BuildContext(selected)| <= max
    ensures Maximal(Prioritized(chunks, evidence), selected, picks, |Prioritized(chunks, evidence)|, max)
  {
    var offered := Prioritize(chunks, evidence);
    selected, picks := [], [];
    var used := 0;
    hide Prioritized, TooLong, TakenFrom;
    for i := 0 to |offered|
      invariant used == |BuildContext(selected)|
      invariant Chosen(offered, selected, picks, i, used, max)
    {
      hide Chosen, BuildContext;
      var fitted, added := Offer(selected, used, max, offered[i]);
      if fitted.None? {
        SkipKeeps(offered, selected, picks, i, used, max);
        continue;
      }
      TakeKeeps(offered, selected, picks, i, used, max, fitted.value);
      selected := selected + [fitted.value];
      picks := picks + [i];
      used := used + added;
    }
  }
}
