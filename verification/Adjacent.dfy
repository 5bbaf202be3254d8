/** Neighbours of the ranked chunks, appended within a count and a character budget. */
module Adjacent {
  const MAX_ADJACENT_CHUNKS: nat := 8
  const MAX_ADJACENT_CONTEXT_CHARS: nat := 8000

  datatype Place = Place(document: int, index: int)

  datatype Chunk = Chunk(id: int, place: Place, content: string)

  datatype Row = Row(chunk: Chunk, score: real, title: string)

  datatype Found = Found(chunk: Chunk, title: string)

  datatype Request = Request(place: Place, score: real)

  /** The chunk right before or right after, in the same document. */
  predicate NextTo(seed: Place, place: Place) {
    place.document == seed.document && place.index >= 0
    && (place.index == seed.index - 1 || place.index == seed.index + 1)
  }

  // ---- which places are asked for ----

  /** The first of the ranked rows beside this place is row i, and it passes on its score. */
  ghost predicate FirstSeed(rows: seq<Row>, request: Request, i: nat) {
    && i < |rows| && NextTo(rows[i].chunk.place, request.place) && rows[i].score == request.score
    && forall j :: 0 <= j < i ==> !NextTo(rows[j].chunk.place, request.place)
  }

  ghost predicate Requested(requests: seq<Request>, place: Place) {
    exists k :: 0 <= k < |requests| && requests[k].place == place
  }

  ghost predicate HasSeed(rows: seq<Row>, request: Request, n: nat) {
    exists i: nat :: i < n && FirstSeed(rows, request, i)
  }

  /** Only places beside the first `n` rows are asked for, each once, with its first seed's score. */
  ghost predicate Seeded(requests: seq<Request>, rows: seq<Row>, n: nat)
    requires n <= |rows|
  {
    && (forall k :: 0 <= k < |requests| ==> HasSeed(rows, requests[k], n))
    && (forall j, k :: 0 <= j < k < |requests| ==> requests[j].place != requests[k].place)
  }

  /** Every place beside the first `n` rows is asked for. */
  ghost predicate Reaches(requests: seq<Request>, rows: seq<Row>, n: nat)
    requires n <= |rows|
  {
    forall i, place :: 0 <= i < n && NextTo(rows[i].chunk.place, place) ==> Requested(requests, place)
  }

  /** The places asked for while the first `n` rows are visited, in order. */
  function Requests(rows: seq<Row>, n: nat): seq<Request>
    requires n <= |rows|
  {
    if n == 0 then []
    else
      var seed, score := rows[n - 1].chunk.place, rows[n - 1].score;
      Asked(Asked(Requests(rows, n - 1), Place(seed.document, seed.index - 1), score),
            Place(seed.document, seed.index + 1), score)
  }

  function Asked(requests: seq<Request>, place: Place, score: real): seq<Request> {
    if place.index < 0 || exists k :: 0 <= k < |requests| && requests[k].place == place then requests
    else requests + [Request(place, score)]
  }

  /** The requests are exactly the places beside the rows, each once, with the score of its first seed. */
  lemma {:induction false} RequestsAreTheNeighbours(rows: seq<Row>, n: nat)
    requires n <= |rows|
    ensures Seeded(Requests(rows, n), rows, n) && Reaches(Requests(rows, n), rows, n)
  {
    hide HasSeed, Requested, Asked, Seeded, Reaches;
    if n == 0 {
      NothingAsked(rows);
    } else {
      RequestsAreTheNeighbours(rows, n - 1);
      var before, row := Requests(rows, n - 1), rows[n - 1];
      var seed := row.chunk.place;
      var left, right := Place(seed.document, seed.index - 1), Place(seed.document, seed.index + 1);
      SeedsStay(before, rows, n - 1);
      AskingKeeps(before, left, rows, n - 1);
      AskingKeeps(Asked(before, left, row.score), right, rows, n - 1);
      hide Requests;
      BothSidesReached(Asked(Asked(before, left, row.score), right, row.score), rows, n - 1);
    }
  }

  lemma NothingAsked(rows: seq<Row>)
    ensures Seeded([], rows, 0) && Reaches([], rows, 0)
  {}

  lemma SeedsStay(requests: seq<Request>, rows: seq<Row>, n: nat)
    requires n < |rows| && Seeded(requests, rows, n)
    ensures Seeded(requests, rows, n + 1)
  {
    forall k | 0 <= k < |requests| ensures HasSeed(rows, requests[k], n + 1) { assert HasSeed(rows, requests[k], n); }
    hide HasSeed;
  }

  lemma BothSidesReached(requests: seq<Request>, rows: seq<Row>, n: nat)
    requires n < |rows| && Reaches(requests, rows, n)
    requires var seed := rows[n].chunk.place;
             && (seed.index >= 1 ==> Requested(requests, Place(seed.document, seed.index - 1)))
             && (seed.index >= -1 ==> Requested(requests, Place(seed.document, seed.index + 1)))
    ensures Reaches(requests, rows, n + 1)
  {
    hide Requested;
  }

  /** Asking for one more place beside row i. */
  lemma AskingKeeps(requests: seq<Request>, place: Place, rows: seq<Row>, i: nat)
    requires i < |rows| && (place.index >= 0 ==> NextTo(rows[i].chunk.place, place))
    requires Seeded(requests, rows, i + 1) && Reaches(requests, rows, i)
    ensures var longer := Asked(requests, place, rows[i].score);
            && Seeded(longer, rows, i + 1) && Reaches(longer, rows, i)
            && (forall p :: Requested(longer, p) <==> Requested(requests, p) || (p == place && place.index >= 0))
  {
    if place.index >= 0 && !Requested(requests, place) {
      var longer := requests + [Request(place, rows[i].score)];
      RequestedGrows(requests, Request(place, rows[i].score));
      assert FirstSeed(rows, longer[|requests|], i) by {
        forall j | 0 <= j < i ensures !NextTo(rows[j].chunk.place, place) { assert !Requested(requests, place); }
      }
      SeenPlaces(requests, place);
      hide FirstSeed, NextTo, Requested;
      assert HasSeed(rows, longer[|requests|], i + 1);
      hide HasSeed;
    }
  }

  lemma SeenPlaces(requests: seq<Request>, place: Place)
    requires !Requested(requests, place)
    ensures forall k :: 0 <= k < |requests| ==> requests[k].place != place
  {}

  lemma RequestedGrows(requests: seq<Request>, request: Request)
    ensures forall p :: Requested(requests + [request], p) <==> Requested(requests, p) || p == request.place
  {
    var longer := requests + [request];
    forall p ensures Requested(longer, p) <==> Requested(requests, p) || p == request.place {
      if p == request.place { assert longer[|requests|].place == p; }
      if Requested(requests, p) {
        var k :| 0 <= k < |requests| && requests[k].place == p;
        assert longer[k].place == p;
      }
    }
  }

  /** `seeds` are the first seeds of the requests: those of an earlier row come first, and beside one row the place
      before it comes before the place after it. */
  ghost predicate InSeedOrder(requests: seq<Request>, rows: seq<Row>, seeds: seq<nat>) {
    && |seeds| == |requests|
    && (forall k :: 0 <= k < |requests| ==> FirstSeed(rows, requests[k], seeds[k]))
    && (forall j, k :: 0 <= j < k < |requests| ==>
          seeds[j] < seeds[k] || (seeds[j] == seeds[k] && requests[j].place.index < requests[k].place.index))
  }

  /** The requests go by the rank of the row that asks, and from left to right beside it. */
  lemma {:induction false} RequestsGoByRank(rows: seq<Row>, n: nat) returns (seeds: seq<nat>)
    requires n <= |rows|
    ensures InSeedOrder(Requests(rows, n), rows, seeds) && forall k :: 0 <= k < |seeds| ==> seeds[k] < n
  {
    hide FirstSeed, Requested, HasSeed, InSeedOrder, Reaches, Seeded, NextTo, Requests, Asked;
    seeds := [];
    if n > 0 {
      seeds := RequestsGoByRank(rows, n - 1);
      RequestsAreTheNeighbours(rows, n - 1);
      var before, row := Requests(rows, n - 1), rows[n - 1];
      var left, right := Place(row.chunk.place.document, row.chunk.place.index - 1),
                         Place(row.chunk.place.document, row.chunk.place.index + 1);
      ghost var first := Asked(before, left, row.score);
      assert NextTo(row.chunk.place, left) || left.index < 0 by { Sides(row.chunk.place); }
      assert NextTo(row.chunk.place, right) || right.index < 0 by { Sides(row.chunk.place); }
      SeedsStay(before, rows, n - 1);
      AskingKeeps(before, left, rows, n - 1);
      seeds := AskingKeepsOrder(before, left, rows, n - 1, seeds);
      seeds := AskingKeepsOrder(first, right, rows, n - 1, seeds);
      assert Requests(rows, n) == Asked(first, right, row.score) by { NextRequests(rows, n); }
    } else {
      NothingInOrder(rows);
    }
    assert InSeedOrder(Requests(rows, n), rows, seeds);
  }

  lemma NothingInOrder(rows: seq<Row>)
    ensures InSeedOrder(Requests(rows, 0), rows, [])
  {}

  lemma Sides(seed: Place)
    ensures seed.index >= 1 ==> NextTo(seed, Place(seed.document, seed.index - 1))
    ensures seed.index >= -1 ==> NextTo(seed, Place(seed.document, seed.index + 1))
  {}

  lemma NextRequests(rows: seq<Row>, n: nat)
    requires 0 < n <= |rows|
    ensures var seed, score := rows[n - 1].chunk.place, rows[n - 1].score;
            Requests(rows, n) == Asked(Asked(Requests(rows, n - 1), Place(seed.document, seed.index - 1), score),
                                       Place(seed.document, seed.index + 1), score)
  {}

  lemma AskingKeepsOrder(requests: seq<Request>, place: Place, rows: seq<Row>, i: nat, seeds: seq<nat>)
      returns (longer: seq<nat>)
    requires i < |rows| && (place.index >= 0 ==> NextTo(rows[i].chunk.place, place))
    requires InSeedOrder(requests, rows, seeds) && Reaches(requests, rows, i)
    requires forall k :: 0 <= k < |seeds| ==> seeds[k] < i || (seeds[k] == i && requests[k].place.index < place.index)
    ensures InSeedOrder(Asked(requests, place, rows[i].score), rows, longer)
    ensures forall k :: 0 <= k < |longer| ==>
              longer[k] < i || (longer[k] == i && Asked(requests, place, rows[i].score)[k].place.index <= place.index)
  {
    longer := seeds;
    if place.index >= 0 && !Requested(requests, place) {
      longer := seeds + [i];
      forall j | 0 <= j < i ensures !NextTo(rows[j].chunk.place, place) { assert !Requested(requests, place); }
      assert FirstSeed(rows, Request(place, rows[i].score), i);
      hide FirstSeed, NextTo, Reaches, Requested;
      SeenPlaces(requests, place);
    } else if place.index >= 0 {
      assert exists k :: 0 <= k < |requests| && requests[k].place == place;
    }
  }

  method AskFor(requests: seq<Request>, places: set<Place>, place: Place, score: real)
      returns (longer: seq<Request>, more: set<Place>)
    requires forall p :: p in places <==> Requested(requests, p)
    ensures longer == Asked(requests, place, score)
    ensures forall p :: p in more <==> Requested(longer, p)
  {
    if place.index < 0 || place in places { return requests, places; }
    RequestedGrows(requests, Request(place, score));
    longer, more := requests + [Request(place, score)], places + {place};
  }

  method RequestedPlaces(rows: seq<Row>) returns (requests: seq<Request>)
    ensures requests == Requests(rows, |rows|)
  {
    var places: set<Place>;
    requests, places := [], {};
    for i := 0 to |rows|
      invariant requests == Requests(rows, i)
      invariant forall p :: p in places <==> Requested(requests, p)
    {
      hide Requested, Asked;
      var seed := rows[i].chunk.place;
      requests, places := AskFor(requests, places, Place(seed.document, seed.index - 1), rows[i].score);
      requests, places := AskFor(requests, places, Place(seed.document, seed.index + 1), rows[i].score);
    }
  }

  // ---- the lookup and the greedy loop ----

  /** The dictionary over what the database found: a later row of the same place replaces an earlier one. */
  function ByPlace(found: seq<Found>): (m: map<Place, Found>)
    ensures forall p :: p in m ==> m[p].chunk.place == p && m[p] in found
    ensures forall f :: f in found ==> f.chunk.place in m
    ensures found != [] ==> m[found[|found| - 1].chunk.place] == found[|found| - 1]
  {
    if found == [] then map[]
    else
      var last := found[|found| - 1];
      assert found == found[..|found| - 1] + [last];
      ByPlace(found[..|found| - 1])[last.chunk.place := last]
  }

  function Ids(rows: seq<Row>): set<int> {
    set r | r in rows :: r.chunk.id
  }

  function Chars(rows: seq<Row>): nat {
    if rows == [] then 0 else Chars(rows[..|rows| - 1]) + |rows[|rows| - 1].chunk.content|
  }

  /** The chunk at a requested place may join: it is there, it is new, and both budgets have room for it. */
  predicate Joins(added: seq<Row>, request: Request, at: map<Place, Found>, seeds: set<int>) {
    && request.place in at
    && at[request.place].chunk.id !in seeds && at[request.place].chunk.id !in Ids(added)
    && |added| < MAX_ADJACENT_CHUNKS
    && Chars(added) + |at[request.place].chunk.content| <= MAX_ADJACENT_CONTEXT_CHARS
  }

  function Added(requests: seq<Request>, n: nat, at: map<Place, Found>, seeds: set<int>): seq<Row>
    requires n <= |requests|
  {
    if n == 0 then []
    else
      var before, r := Added(requests, n - 1, at, seeds), requests[n - 1];
      if Joins(before, r, at, seeds) then before + [Row(at[r.place].chunk, r.score, at[r.place].title)] else before
  }

  /** What the expansion of the rows adds. */
  function Additions(rows: seq<Row>, found: seq<Found>): seq<Row> {
    Added(Requests(rows, |rows|), |Requests(rows, |rows|)|, ByPlace(found), Ids(rows))
  }

  method ExpandWithAdjacentChunks(rows: seq<Row>, found: seq<Found>) returns (expanded: seq<Row>)
    ensures expanded == rows + Additions(rows, found)
  {
    if rows == [] { return rows; }
    var asked := RequestedPlaces(rows);
    hide Ids, ByPlace, Added, Requests;
    expanded := AddNeighbours(rows, asked, ByPlace(found), Ids(rows));
  }

  method AddNeighbours(rows: seq<Row>, asked: seq<Request>, at: map<Place, Found>, seeds: set<int>)
      returns (expanded: seq<Row>)
    ensures expanded == rows + Added(asked, |asked|, at, seeds)
  {
    hide Ids, Added, Chars;
    expanded := rows;
    var addedIds: set<int>, addedChars := {}, 0;
    ghost var added: seq<Row> := [];
    NothingAdded(asked, at, seeds);
    var k := 0;
    while k < |asked|
      invariant 0 <= k <= |asked| && expanded == rows + added && added == Added(asked, k, at, seeds)
      invariant addedIds == Ids(added) && |addedIds| == |added| && addedChars == Chars(added)
    {
      var r := asked[k];
      NextAdded(asked, k, at, seeds);
      if r.place in at && at[r.place].chunk.id !in seeds && at[r.place].chunk.id !in addedIds {
        var chunk, title := at[r.place].chunk, at[r.place].title;
        if |addedIds| >= MAX_ADJACENT_CHUNKS {
          FullStaysFull(asked, k, |asked|, at, seeds);
          break;
        }
        if addedChars + |chunk.content| <= MAX_ADJACENT_CONTEXT_CHARS {
          AddingCounts(added, Row(chunk, r.score, title));
          expanded := expanded + [Row(chunk, r.score, title)];
          added := added + [Row(chunk, r.score, title)];
          addedIds := addedIds + {chunk.id};
          addedChars := addedChars + |chunk.content|;
        }
      }
      k := k + 1;
    }
  }

  lemma NextAdded(requests: seq<Request>, k: nat, at: map<Place, Found>, seeds: set<int>)
    requires k < |requests|
    ensures var before, r := Added(requests, k, at, seeds), requests[k];
            Added(requests, k + 1, at, seeds) ==
              if Joins(before, r, at, seeds) then before + [Row(at[r.place].chunk, r.score, at[r.place].title)] else before
  {}

  lemma NothingAdded(requests: seq<Request>, at: map<Place, Found>, seeds: set<int>)
    ensures Added(requests, 0, at, seeds) == [] && Ids([]) == {} && Chars([]) == 0
  {}

  lemma AddingCounts(added: seq<Row>, row: Row)
    ensures Ids(added + [row]) == Ids(added) + {row.chunk.id}
    ensures Chars(added + [row]) == Chars(added) + |row.chunk.content|
  {
    assert (added + [row])[..|added|] == added;
  }

  lemma {:induction false} FullStaysFull(requests: seq<Request>, k: nat, n: nat, at: map<Place, Found>, seeds: set<int>)
    requires k <= n <= |requests| && |Added(requests, k, at, seeds)| >= MAX_ADJACENT_CHUNKS
    ensures Added(requests, n, at, seeds) == Added(requests, k, at, seeds)
    decreases n
  {
    if k < n { FullStaysFull(requests, k, n - 1, at, seeds); }
  }

  // ---- what the expansion is ----

  /** The additions respect both budgets and repeat neither a seed nor each other. */
  lemma {:induction false} AdditionsFitTheBudgets(requests: seq<Request>, n: nat, at: map<Place, Found>, seeds: set<int>)
    requires n <= |requests|
    ensures var added := Added(requests, n, at, seeds);
            && |added| <= MAX_ADJACENT_CHUNKS && Chars(added) <= MAX_ADJACENT_CONTEXT_CHARS
            && |Ids(added)| == |added| && Ids(added) !! seeds
  {
    if n > 0 {
      AdditionsFitTheBudgets(requests, n - 1, at, seeds);
      var before, r := Added(requests, n - 1, at, seeds), requests[n - 1];
      if Joins(before, r, at, seeds) { AddingCounts(before, Row(at[r.place].chunk, r.score, at[r.place].title)); }
    } else {
      NothingAdded(requests, at, seeds);
    }
  }

  /** The additions are what was found at increasing positions among the first `n` requests. */
  ghost predicate Answering(requests: seq<Request>, n: nat, at: map<Place, Found>, added: seq<Row>, answered: seq<nat>)
    requires n <= |requests|
  {
    && |answered| == |added|
    && (forall i :: 0 <= i < |added| ==>
          && answered[i] < n && requests[answered[i]].place in at
          && added[i] == Row(at[requests[answered[i]].place].chunk, requests[answered[i]].score,
                             at[requests[answered[i]].place].title))
    && (forall i, j :: 0 <= i < j < |added| ==> answered[i] < answered[j])
  }

  /** Every addition answers a request, in the order of the requests. */
  lemma {:induction false} AdditionsAnswerRequests(requests: seq<Request>, n: nat, at: map<Place, Found>, seeds: set<int>)
      returns (answered: seq<nat>)
    requires n <= |requests|
    ensures Answering(requests, n, at, Added(requests, n, at, seeds), answered)
  {
    hide Added, Answering;
    if n == 0 {
      answered := [];
      NothingAdded(requests, at, seeds);
      NothingAnswered(requests, at);
    } else {
      answered := AdditionsAnswerRequests(requests, n - 1, at, seeds);
      var before := Added(requests, n - 1, at, seeds);
      NextAdded(requests, n - 1, at, seeds);
      AnsweringGrows(requests, n, at, before, answered);
      if Joins(before, requests[n - 1], at, seeds) { answered := answered + [n - 1]; }
    }
  }

  lemma NothingAnswered(requests: seq<Request>, at: map<Place, Found>)
    ensures Answering(requests, 0, at, [], [])
  {}

  lemma AnsweringGrows(requests: seq<Request>, n: nat, at: map<Place, Found>, added: seq<Row>, answered: seq<nat>)
    requires 0 < n <= |requests| && Answering(requests, n - 1, at, added, answered)
    ensures Answering(requests, n, at, added, answered)
    ensures var r := requests[n - 1];
            r.place in at ==>
              Answering(requests, n, at, added + [Row(at[r.place].chunk, r.score, at[r.place].title)], answered + [n - 1])
  {
    var r := requests[n - 1];
    if r.place in at {
      var longer, last := answered + [n - 1], Row(at[r.place].chunk, r.score, at[r.place].title);
      assert longer[|answered|] == n - 1 && (added + [last])[|added|] == last;
    }
  }

  /** Every chunk added stands right beside a ranked row, and carries the score of the first such row. */
  lemma EveryAdditionIsBesideItsFirstSeed(rows: seq<Row>, found: seq<Found>, a: nat) returns (i: nat)
    requires a < |Additions(rows, found)|
    ensures var row := Additions(rows, found)[a];
            FirstSeed(rows, Request(row.chunk.place, row.score), i) && Found(row.chunk, row.title) in found
  {
    var requests := Requests(rows, |rows|);
    RequestsAreTheNeighbours(rows, |rows|);
    var answered := AdditionsAnswerRequests(requests, |requests|, ByPlace(found), Ids(rows));
    hide Added, FirstSeed, Requests;
    var k := answered[a];
    assert HasSeed(rows, requests[k], |rows|);
    i :| i < |rows| && FirstSeed(rows, requests[k], i);
  }

  /** What was passed over at one request could not join later either. */
  lemma {:induction false} PassedOverForGood(requests: seq<Request>, k: nat, n: nat, at: map<Place, Found>, seeds: set<int>)
    requires k < n <= |requests|
    ensures !Joins(Added(requests, n, at, seeds), requests[k], at, seeds)
    decreases n
  {
    hide Added, Ids, Chars;
    var before, r := Added(requests, n - 1, at, seeds), requests[n - 1];
    NextAdded(requests, n - 1, at, seeds);
    if k < n - 1 { PassedOverForGood(requests, k, n - 1, at, seeds); }
    if Joins(before, r, at, seeds) { AddingCounts(before, Row(at[r.place].chunk, r.score, at[r.place].title)); }
  }

  /** At the end no neighbour that was found, is not ranked and was not added still fits. */
  lemma NoNeighbourStillFits(rows: seq<Row>, found: seq<Found>, i: nat, place: Place)
    requires i < |rows| && NextTo(rows[i].chunk.place, place) && place in ByPlace(found)
    ensures var added, chunk := Additions(rows, found), ByPlace(found)[place].chunk;
            chunk.id in Ids(rows) || chunk.id in Ids(added) || |added| == MAX_ADJACENT_CHUNKS
            || Chars(added) + |chunk.content| > MAX_ADJACENT_CONTEXT_CHARS
  {
    var requests := Requests(rows, |rows|);
    RequestsAreTheNeighbours(rows, |rows|);
    assert Requested(requests, place);
    var k :| 0 <= k < |requests| && requests[k].place == place;
    PassedOverForGood(requests, k, |requests|, ByPlace(found), Ids(rows));
    AdditionsFitTheBudgets(requests, |requests|, ByPlace(found), Ids(rows));
  }
}
