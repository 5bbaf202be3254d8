/**
 The streamed answer: model requests that may overflow the context, three attempts with less and less input,
 the NO_SOURCE marker held back at the start of each, and the revision that replaces what was shown. What the
 model sends, how the marker is recognised and what post-processing makes of an answer are arbitrary.
 */
module Streaming {
  import opened Prelude
  import opened Text
  import opened Retrieved

  // ---- one completion: a request, and at most one more with a smaller output budget ----

  const ANSWER_MAX_TOKENS: int := 900
  const CONTEXT_RETRY_TOKEN_MARGIN: int := 16
  const MIN_CONTEXT_RETRY_OUTPUT_TOKENS: int := 128

  /** How a request ends; an overflow tells the limit and the input size if the server did. */
  datatype Ending = Finished | Overflow(limit: Option<int>, input: Option<int>) | Broken

  datatype Response = Response(deltas: seq<string>, ending: Ending)

  datatype StreamEnd = Complete | TooLong | Raised

  datatype Streamed = Streamed(deltas: seq<string>, end: StreamEnd)

  function ReducedBudget(limit: Option<int>, input: Option<int>, current: int): Option<int> {
    if limit == None || input == None then None
    else
      var available := limit.value - input.value - CONTEXT_RETRY_TOKEN_MARGIN;
      if available < MIN_CONTEXT_RETRY_OUTPUT_TOKENS || available >= current then None else Some(available)
  }

  /** Empty deltas are skipped. */
  function Content(deltas: seq<string>): seq<string> {
    if deltas == [] then []
    else Content(deltas[..|deltas| - 1]) + if deltas[|deltas| - 1] == "" then [] else [deltas[|deltas| - 1]]
  }

  /** `reply` answers the first or second request with its output budget. */
  type Replies = (nat, int) -> Response

  function EndOf(ending: Ending): StreamEnd {
    match ending
    case Finished => Complete
    case Overflow(_, _) => TooLong
    case Broken => Raised
  }

  /** The budget of the second request, if there is one: only an overflow before any content allows it. */
  function RetryBudget(first: Response): Option<int> {
    if first.ending.Overflow? && Content(first.deltas) == []
    then ReducedBudget(first.ending.limit, first.ending.input, ANSWER_MAX_TOKENS) else None
  }

  /** The deltas of exactly one request, and how the whole completion ended. */
  function StreamOf(reply: Replies): Streamed {
    var first := reply(0, ANSWER_MAX_TOKENS);
    var budget := RetryBudget(first);
    if budget == None then Streamed(Content(first.deltas), EndOf(first.ending))
    else
      var second := reply(1, budget.value);
      Streamed(Content(second.deltas), EndOf(second.ending))
  }

  /** The server's numbers leave this many output tokens, and a request for them is worth making. */
  ghost predicate Leaves(ending: Ending, tokens: int) {
    && ending.Overflow? && ending.limit.Some? && ending.input.Some?
    && tokens == ending.limit.value - ending.input.value - CONTEXT_RETRY_TOKEN_MARGIN
    && MIN_CONTEXT_RETRY_OUTPUT_TOKENS <= tokens < ANSWER_MAX_TOKENS
  }

  /** The first request overflowed before it sent any content, with room for a smaller one. */
  ghost predicate CallsForAnother(first: Response) {
    && (forall i :: 0 <= i < |first.deltas| ==> first.deltas[i] == "")
    && exists tokens :: Leaves(first.ending, tokens)
  }

  /**
   The retry loop of the streaming client, delta by delta. At most two requests are made, the second exactly
   when the first calls for it and then with what the server's numbers leave; the deltas delivered are the
   content of the last request, and its ending is that of the completion.
   */
  method StreamChatCompletion(reply: Replies) returns (s: Streamed, ghost requests: seq<int>)
    ensures s == StreamOf(reply)
    ensures 1 <= |requests| <= 2 && requests[0] == ANSWER_MAX_TOKENS
    ensures |requests| == 2 <==> CallsForAnother(reply(0, ANSWER_MAX_TOKENS))
    ensures |requests| == 2 ==> Leaves(reply(0, ANSWER_MAX_TOKENS).ending, requests[1])
    ensures var last := reply(|requests| - 1, requests[|requests| - 1]);
            && s.deltas == Content(last.deltas)
            && (s.end == Complete <==> last.ending.Finished?) && (s.end == TooLong <==> last.ending.Overflow?)
  {
    var maxTokens, retryUsed, emitted := ANSWER_MAX_TOKENS, false, false;
    var deltas: seq<string> := [];
    ghost var first := reply(0, ANSWER_MAX_TOKENS);
    ContentIsVisible(first.deltas);
    requests := [ANSWER_MAX_TOKENS];
    while true
      invariant !emitted && deltas == [] && |requests| == (if retryUsed then 2 else 1)
      invariant requests[0] == ANSWER_MAX_TOKENS && requests[|requests| - 1] == maxTokens
      invariant if retryUsed then RetryBudget(first) == Some(maxTokens) && Leaves(first.ending, maxTokens)
                else maxTokens == ANSWER_MAX_TOKENS
      decreases !retryUsed
    {
      var response := reply(if retryUsed then 1 else 0, maxTokens);
      for i := 0 to |response.deltas|
        invariant deltas == Content(response.deltas[..i]) && emitted == (deltas != [])
      {
        assert response.deltas[..i + 1][..i] == response.deltas[..i];
        if response.deltas[i] != "" {
          emitted := true;
          deltas := deltas + [response.deltas[i]];
        }
      }
      assert response.deltas[..|response.deltas|] == response.deltas;
      if !response.ending.Overflow? || emitted || retryUsed {
        return Streamed(deltas, EndOf(response.ending)), requests;
      }
      var reduced := ReducedBudget(response.ending.limit, response.ending.input, maxTokens);
      if reduced == None { return Streamed(deltas, TooLong), requests; }
      assert Leaves(first.ending, reduced.value);
      retryUsed, maxTokens := true, reduced.value;
      requests := requests + [maxTokens];
    }
  }

  /** Skipping the empty deltas loses no text. */
  lemma {:induction false} ContentKeepsTheText(deltas: seq<string>)
    ensures Concat(Content(deltas)) == Concat(deltas)
    ensures forall d :: d in Content(deltas) ==> d != "" && d in deltas
    decreases |deltas|
  {
    if deltas != [] {
      var rest, last := deltas[..|deltas| - 1], deltas[|deltas| - 1];
      ContentKeepsTheText(rest);
      assert deltas == rest + [last];
      ConcatOne(rest, last);
      ConcatOne(Content(rest), last);
      assert Content(rest) + [] == Content(rest);
      hide Concat;
    }
  }

  lemma {:induction false} ContentIsVisible(deltas: seq<string>)
    ensures Content(deltas) == [] <==> forall i :: 0 <= i < |deltas| ==> deltas[i] == ""
    decreases |deltas|
  {
    if deltas != [] {
      ContentIsVisible(deltas[..|deltas| - 1]);
      assert forall i :: 0 <= i < |deltas| - 1 ==> deltas[..|deltas| - 1][i] == deltas[i];
    }
  }

  // ---- the marker that must not be shown ----

  const NO_SOURCE_ANSWER: string := "업로드된 자료에서 확인되지 않습니다."

  /** How the marker is recognised: on a growing prefix (None while undecided), at the start of a stripped
      answer (how long it is), and the sentences that count as the marker. */
  datatype Rules = Rules(detect: string -> Option<bool>, marker: string -> Option<nat>, sentence: string -> bool)

  function DropSeparators(s: string): string {
    if s != "" && s[0] in " :-\n" then DropSeparators(s[1..]) else s
  }

  datatype Decision = Decision(visible: string, grounded: bool)

  function NormalizeSourceDecision(rules: Rules, answer: string): Decision {
    var normalized := Strip(answer);
    var marker := rules.marker(normalized);
    if marker.Some? then
      var visible := DropSeparators(normalized[Min(marker.value, |normalized|)..]);
      Decision(if visible == "" then NO_SOURCE_ANSWER else visible, false)
    else Decision(answer, !rules.sentence(normalized))
  }

  predicate IsSeparator(c: char) {
    c in " :-\n"
  }

  lemma {:induction false} SeparatorsAreDropped(s: string) returns (from: nat)
    ensures from <= |s| && DropSeparators(s) == s[from..]
    ensures (forall k :: 0 <= k < from ==> IsSeparator(s[k])) && (from < |s| ==> !IsSeparator(s[from]))
  {
    if s != "" && IsSeparator(s[0]) {
      from := SeparatorsAreDropped(s[1..]);
      from := from + 1;
    } else {
      from := 0;
    }
  }

  /** `visible` is what follows the first `n` characters and the separators behind them, or the sentence that says
      there is no source if nothing does. */
  ghost predicate Follows(visible: string, s: string, n: nat) {
    exists from: nat ::
      && n <= from <= |s| && (forall k :: n <= k < from ==> IsSeparator(s[k])) && (from < |s| ==> !IsSeparator(s[from]))
      && visible == if from == |s| then NO_SOURCE_ANSWER else s[from..]
  }

  /** The marker is never shown: of an answer that starts with it, only what follows is; every other answer is shown
      as it is, and has sources unless it is one of the sentences that deny them. */
  lemma MarkerIsNotShown(rules: Rules, answer: string)
    ensures var d := NormalizeSourceDecision(rules, answer);
            match rules.marker(Strip(answer))
            case Some(n) => !d.grounded && d.visible != "" && Follows(d.visible, Strip(answer), Min(n, |Strip(answer)|))
            case None => d.visible == answer && d.grounded == !rules.sentence(Strip(answer))
  {
    var s := Strip(answer);
    if rules.marker(s).Some? {
      var n: nat := Min(rules.marker(s).value, |s|);
      var from := SeparatorsAreDropped(s[n..]);
      hide DropSeparators;
      var visible := NormalizeSourceDecision(rules, answer).visible;
      assert n + from <= |s| && s[n..][from..] == s[n + from..];
      forall k | n <= k < n + from ensures IsSeparator(s[k]) { assert s[n..][k - n] == s[k]; }
      assert n + from < |s| ==> s[n + from] == s[n..][from];
      assert visible == if n + from == |s| then NO_SOURCE_ANSWER else s[n + from..];
    }
  }

  datatype Norm = Norm(pending: string, parts: seq<string>, grounded: Option<bool>)

  function Shown(n: Norm, text: string): Norm {
    if text == "" then n else n.(parts := n.parts + [text])
  }

  function Push(rules: Rules, n: Norm, delta: string): Norm {
    if n.grounded.Some? then n.(parts := n.parts + [delta])
    else
      var pending := n.pending + delta;
      match rules.detect(pending)
      case None => n.(pending := pending)
      case Some(true) => Shown(Norm("", n.parts, Some(true)), pending)
      case Some(false) => Shown(Norm("", n.parts, Some(false)), NormalizeSourceDecision(rules, pending).visible)
  }

  function Finish(rules: Rules, n: Norm): Norm {
    var decided :=
      if n.grounded.Some? then n
      else
        var d := NormalizeSourceDecision(rules, n.pending);
        Shown(Norm("", n.parts, Some(d.grounded)), d.visible);
    if Concat(decided.parts) == "" && decided.grounded == Some(false)
    then decided.(parts := decided.parts + [NO_SOURCE_ANSWER]) else decided
  }

  function After(rules: Rules, deltas: seq<string>): Norm {
    if deltas == [] then Norm("", [], None)
    else Push(rules, After(rules, deltas[..|deltas| - 1]), deltas[|deltas| - 1])
  }

  class SourceNormalizer {
    const rules: Rules
    var pending: string
    var parts: seq<string>
    var grounded: Option<bool>

    ghost function State(): Norm
      reads this
    {
      Norm(pending, parts, grounded)
    }

    constructor (rules: Rules)
      ensures State() == After(rules, []) && this.rules == rules
    {
      this.rules := rules;
      pending, parts, grounded := "", [], None;
    }

    method PushDelta(delta: string) returns (emitted: seq<string>)
      modifies this
      ensures State() == Push(rules, old(State()), delta) && parts == old(parts) + emitted
    {
      if grounded.Some? {
        parts := parts + [delta];
        return [delta];
      }
      pending := pending + delta;
      var decision := rules.detect(pending);
      if decision == None { return []; }
      grounded := decision;
      var visible := if decision.value then pending else NormalizeSourceDecision(rules, pending).visible;
      pending := "";
      if visible == "" { return []; }
      parts := parts + [visible];
      return [visible];
    }

    method FinishAnswer() returns (emitted: seq<string>)
      modifies this
      ensures State() == Finish(rules, old(State())) && parts == old(parts) + emitted
    {
      emitted := [];
      if grounded == None {
        var d := NormalizeSourceDecision(rules, pending);
        grounded, pending := Some(d.grounded), "";
        if d.visible != "" {
          parts := parts + [d.visible];
          emitted := emitted + [d.visible];
        }
      }
      if Concat(parts) == "" && grounded == Some(false) {
        parts := parts + [NO_SOURCE_ANSWER];
        emitted := emitted + [NO_SOURCE_ANSWER];
      }
    }
  }

  lemma ConcatOne(parts: seq<string>, last: string)
    ensures Concat(parts + [last]) == Concat(parts) + last
  {
    ConcatSplits(parts, [last]);
    assert [last][1..] == [];
    assert Concat([last]) == last;
  }

  lemma ShownAppends(n: Norm, text: string)
    ensures Concat(Shown(n, text).parts) == Concat(n.parts) + text
  {
    ConcatOne(n.parts, text);
  }

  /** Nothing of the input is lost: it is still held back, or shown, unless it says that there is no source. */
  ghost predicate Keeps(n: Norm, input: string) {
    && (n.grounded == None ==> n.parts == [] && n.pending == input)
    && (n.grounded == Some(true) ==> Concat(n.parts) == input)
  }

  lemma PushKeeps(rules: Rules, n: Norm, delta: string, input: string)
    requires Keeps(n, input)
    ensures Keeps(Push(rules, n, delta), input + delta)
  {
    ConcatOne(n.parts, delta);
    ShownAppends(Norm("", n.parts, Some(true)), n.pending + delta);
    assert Concat([]) == "";
    hide Concat, NormalizeSourceDecision, Shown;
    assert Shown(Norm("", n.parts, Some(false)), "").grounded == Some(false) by { ShownDecides(n.parts); }
    ShownDecides(n.parts);
  }

  lemma ShownDecides(parts: seq<string>)
    ensures forall text, grounded :: Shown(Norm("", parts, grounded), text).grounded == grounded
  {}

  /** While undecided nothing is shown and nothing lost; once decided for a grounded answer, what is shown is
      what the model sent, wherever the deltas were cut. */
  lemma {:induction false} GroundedShowsItsInput(rules: Rules, deltas: seq<string>)
    ensures Keeps(After(rules, deltas), Concat(deltas))
    decreases |deltas|
  {
    if deltas != [] {
      var before, last := deltas[..|deltas| - 1], deltas[|deltas| - 1];
      GroundedShowsItsInput(rules, before);
      assert deltas == before + [last];
      ConcatOne(before, last);
      PushKeeps(rules, After(rules, before), last, Concat(before));
      hide Keeps, Push, Concat;
    }
  }

  /** A finished answer is decided; a grounded one is the input word for word, one without sources never empty. */
  lemma FinishedAnswer(rules: Rules, deltas: seq<string>)
    ensures var n := Finish(rules, After(rules, deltas));
            && n.grounded.Some?
            && (n.grounded.value ==> Concat(n.parts) == Concat(deltas))
            && (!n.grounded.value ==> Concat(n.parts) != "")
  {
    GroundedShowsItsInput(rules, deltas);
    FinishKeeps(rules, After(rules, deltas), Concat(deltas));
  }

  lemma FinishKeeps(rules: Rules, n: Norm, input: string)
    requires Keeps(n, input)
    ensures var f := Finish(rules, n);
            && f.grounded.Some?
            && (f.grounded.value ==> Concat(f.parts) == input)
            && (!f.grounded.value ==> Concat(f.parts) != "")
  {
    var d := NormalizeSourceDecision(rules, n.pending);
    assert d.grounded ==> d.visible == n.pending;
    var decided := if n.grounded.Some? then n else Shown(Norm("", n.parts, Some(d.grounded)), d.visible);
    ShownAppends(Norm("", n.parts, Some(d.grounded)), d.visible);
    ConcatOne(decided.parts, NO_SOURCE_ANSWER);
    assert Concat([]) == "";
    hide Concat, NormalizeSourceDecision;
  }

  /** The first delta after which it is clear whether the answer has sources. */
  ghost predicate DecidedAt(rules: Rules, deltas: seq<string>, k: nat) {
    && 1 <= k <= |deltas| && rules.detect(Concat(deltas[..k])).Some?
    && forall j :: 1 <= j < k ==> rules.detect(Concat(deltas[..j])) == None
  }

  /** What the answer shows that was decided after its first k deltas: those as they are, or without their marker,
      and then every delta as it is. */
  ghost function ShownSince(rules: Rules, deltas: seq<string>, k: nat): string
    requires k <= |deltas|
  {
    var held := Concat(deltas[..k]);
    (if rules.detect(held) == Some(true) then held else NormalizeSourceDecision(rules, held).visible) + Concat(deltas[k..])
  }

  ghost predicate Undecided(rules: Rules, deltas: seq<string>) {
    forall k :: 1 <= k <= |deltas| ==> rules.detect(Concat(deltas[..k])) == None
  }

  /** The normalizer, whatever the deltas: it waits for the first prefix that decides, and passes on the rest. */
  lemma {:induction false} NormalizerWaitsForTheDecision(rules: Rules, deltas: seq<string>)
    ensures Undecided(rules, deltas) ==> After(rules, deltas) == Norm(Concat(deltas), [], None)
    ensures forall k: nat :: DecidedAt(rules, deltas, k) ==>
              && After(rules, deltas).grounded == rules.detect(Concat(deltas[..k]))
              && Concat(After(rules, deltas).parts) == ShownSince(rules, deltas, k)
    decreases |deltas|
  {
    hide Concat, NormalizeSourceDecision, Shown, Push, ShownSince;
    if deltas == [] {
      assert Concat(deltas) == "" by { NoText(); }
    } else {
      var n := |deltas| - 1;
      var rest, last := deltas[..n], deltas[n];
      NormalizerWaitsForTheDecision(rules, rest);
      assert deltas == rest + [last] && deltas[..|deltas|] == deltas;
      assert After(rules, deltas) == Push(rules, After(rules, rest), last);
      ConcatOne(rest, last);
      PrefixesStay(deltas, n);
      if Undecided(rules, rest) { FirstDecision(rules, Concat(rest), last); }
      forall k: nat | DecidedAt(rules, deltas, k)
        ensures After(rules, deltas).grounded == rules.detect(Concat(deltas[..k]))
        ensures Concat(After(rules, deltas).parts) == ShownSince(rules, deltas, k)
      {
        if k <= n {
          assert DecidedAt(rules, rest, k);
          OneMoreDelta(rules, rest, last, k);
        } else {
          assert Undecided(rules, rest);
          ShownAtOnce(rules, deltas);
        }
      }
    }
  }

  lemma NoText()
    ensures Concat([]) == ""
  {}

  lemma PrefixesStay(deltas: seq<string>, n: nat)
    requires n <= |deltas|
    ensures forall k :: 0 <= k <= n ==> deltas[..n][..k] == deltas[..k]
  {}

  /** One delta while nothing is decided. */
  lemma FirstDecision(rules: Rules, pending: string, last: string)
    ensures var text, n := pending + last, Push(rules, Norm(pending, [], None), last);
            && n.grounded == rules.detect(text)
            && (n.grounded == None ==> n == Norm(text, [], None))
            && (n.grounded.Some? ==> Concat(n.parts) == if n.grounded == Some(true) then text
                                                        else NormalizeSourceDecision(rules, text).visible)
  {
    ShownAppends(Norm("", [], Some(true)), pending + last);
    ShownAppends(Norm("", [], Some(false)), NormalizeSourceDecision(rules, pending + last).visible);
    ShownDecides([]);
    hide Concat, NormalizeSourceDecision, Shown;
    NoText();
  }

  lemma ShownAtOnce(rules: Rules, deltas: seq<string>)
    ensures ShownSince(rules, deltas, |deltas|) ==
              if rules.detect(Concat(deltas)) == Some(true) then Concat(deltas)
              else NormalizeSourceDecision(rules, Concat(deltas)).visible
  {
    hide Concat, NormalizeSourceDecision;
    NoText();
    assert deltas[..|deltas|] == deltas;
  }

  /** One more delta once it is decided. */
  lemma OneMoreDelta(rules: Rules, rest: seq<string>, last: string, k: nat)
    requires DecidedAt(rules, rest, k) && After(rules, rest).grounded.Some?
    requires Concat(After(rules, rest).parts) == ShownSince(rules, rest, k)
    ensures var n := Push(rules, After(rules, rest), last);
            n.grounded == After(rules, rest).grounded && Concat(n.parts) == ShownSince(rules, rest + [last], k)
  {
    hide Concat, NormalizeSourceDecision, After;
    ConcatOne(After(rules, rest).parts, last);
    ConcatOne(rest[k..], last);
    assert (rest + [last])[..k] == rest[..k] && (rest + [last])[k..] == rest[k..] + [last];
  }

  /** The whole answer of a stream that ends: what was shown since the decision, or the decision over all of it; the
      sentence that denies sources stands in for an answer without sources that would be empty. */
  lemma AnswerOfAStream(rules: Rules, deltas: seq<string>)
    ensures var n := Finish(rules, After(rules, deltas));
            && (forall k: nat :: DecidedAt(rules, deltas, k) ==>
                  var text := ShownSince(rules, deltas, k);
                  && n.grounded == rules.detect(Concat(deltas[..k]))
                  && Concat(n.parts) == if text == "" && n.grounded == Some(false) then NO_SOURCE_ANSWER else text)
            && (Undecided(rules, deltas) ==>
                  var d := NormalizeSourceDecision(rules, Concat(deltas));
                  && n.grounded == Some(d.grounded)
                  && Concat(n.parts) == if d.visible == "" && !d.grounded then NO_SOURCE_ANSWER else d.visible)
  {
    NormalizerWaitsForTheDecision(rules, deltas);
    FinishShows(rules, After(rules, deltas));
    hide Concat, NormalizeSourceDecision, Shown, After, Finish, ShownSince;
    NoText();
  }

  lemma FinishShows(rules: Rules, n: Norm)
    ensures var f := Finish(rules, n);
            && (n.grounded.Some? ==>
                  && f.grounded == n.grounded
                  && Concat(f.parts) == if Concat(n.parts) == "" && n.grounded == Some(false) then NO_SOURCE_ANSWER
                                        else Concat(n.parts))
            && (n.grounded == None && n.parts == [] ==>
                  var d := NormalizeSourceDecision(rules, n.pending);
                  && f.grounded == Some(d.grounded)
                  && Concat(f.parts) == if d.visible == "" && !d.grounded then NO_SOURCE_ANSWER else d.visible)
  {
    var d := NormalizeSourceDecision(rules, n.pending);
    var decided := if n.grounded.Some? then n else Shown(Norm("", n.parts, Some(d.grounded)), d.visible);
    ShownAppends(Norm("", n.parts, Some(d.grounded)), d.visible);
    ShownDecides(n.parts);
    ConcatOne(decided.parts, NO_SOURCE_ANSWER);
    hide Concat, NormalizeSourceDecision, Shown;
    NoText();
  }

  // ---- three attempts with less and less input ----

  const ATTEMPTS: nat := 3

  datatype Generated = Generated(answer: string, sources: seq<SourceRef>)

  /** `early` is the answer given without asking the model; `final` turns the streamed answer of an attempt
      into the final one, or fails. */
  datatype Input = Input(
    early: Option<string>,
    replies: nat -> Replies,
    final: (nat, string, bool) -> Option<Generated>,
    fallback: Generated)

  /** What one attempt would show: the normalized deltas of its completion. */
  function Normalized(rules: Rules, s: Streamed): Norm {
    if s.end == Complete then Finish(rules, After(rules, s.deltas)) else After(rules, s.deltas)
  }

  datatype PlayEnd = Answered(attempt: nat) | Exhausted | Failed

  datatype Played = Played(visible: seq<string>, end: PlayEnd)

  /** The attempts from number k on, after `visible` was shown: once anything was shown, later attempts are not. */
  function Play(rules: Rules, input: Input, k: nat, visible: seq<string>): Played
    decreases ATTEMPTS - k
  {
    if k >= ATTEMPTS then Played(visible, Exhausted)
    else
      var s := StreamOf(input.replies(k));
      var now := if visible != [] then visible else Normalized(rules, s).parts;
      match s.end
      case Complete => Played(now, Answered(k))
      case Raised => Played(now, Failed)
      case TooLong => Play(rules, input, k + 1, now)
  }

  /** The final answer of a run, or None when an exception ends it. */
  function FinalAnswer(rules: Rules, input: Input): Option<Generated> {
    if input.early.Some? then Some(Generated(input.early.value, []))
    else
      match Play(rules, input, 0, []).end
      case Failed => None
      case Exhausted => Some(input.fallback)
      case Answered(k) =>
        var n := Normalized(rules, StreamOf(input.replies(k)));
        input.final(k, Concat(n.parts), n.grounded == Some(true))
  }

  /** The deltas of a run, in order. */
  function Deltas(rules: Rules, input: Input): seq<string> {
    if input.early.Some? then [input.early.value]
    else
      var p := Play(rules, input, 0, []);
      if p.end == Exhausted && p.visible == [] then [input.fallback.answer] else p.visible
  }

  /** What replaces the deltas of a run at its end, if anything has to. */
  function RevisionOf(rules: Rules, input: Input): Option<string> {
    var p := Play(rules, input, 0, []);
    var answer := FinalAnswer(rules, input);
    if input.early.Some? || answer == None then None
    else if p.end == Exhausted then if p.visible == [] then None else Some(answer.value.answer)
    else if answer.value.answer == Concat(p.visible) then None
    else Some(answer.value.answer)
  }

  class StreamingAnswer {
    var sent: seq<string>
    var generated: Option<Generated>
    var revision: Option<string>

    constructor ()
      ensures sent == [] && generated == None && revision == None
    {
      sent, generated, revision := [], None, None;
    }

    /** One attempt: its deltas are sent unless an earlier attempt has already shown something. */
    method Attempt(rules: Rules, reply: Replies) returns (end: StreamEnd, n: Norm)
      modifies this`sent
      ensures end == StreamOf(reply).end && n == Normalized(rules, StreamOf(reply))
      ensures sent == if old(sent) != [] then old(sent) else n.parts
    {
      var normalizer := new SourceNormalizer(rules);
      var suppress := sent != [];
      var s, _ := StreamChatCompletion(reply);
      hide Push, Finish, NormalizeSourceDecision, StreamOf;
      var emitted;
      for i := 0 to |s.deltas|
        invariant normalizer.State() == After(rules, s.deltas[..i]) && normalizer.rules == rules
        invariant sent == if suppress then old(sent) else normalizer.parts
        invariant fresh(normalizer)
      {
        assert s.deltas[..i + 1][..i] == s.deltas[..i];
        emitted := normalizer.PushDelta(s.deltas[i]);
        if !suppress { sent := sent + emitted; }
      }
      assert s.deltas[..|s.deltas|] == s.deltas;
      if s.end == Complete {
        emitted := normalizer.FinishAnswer();
        if !suppress { sent := sent + emitted; }
      }
      return s.end, Norm(normalizer.pending, normalizer.parts, normalizer.grounded);
    }

    method RunAttempts(rules: Rules, input: Input) returns (end: PlayEnd, n: Norm)
      requires sent == []
      modifies this`sent
      ensures Played(sent, end) == Play(rules, input, 0, [])
      ensures end.Answered? ==> n == Normalized(rules, StreamOf(input.replies(end.attempt)))
    {
      hide Normalized, StreamOf;
      var k, attempt := 0, StreamEnd.TooLong;
      while k < ATTEMPTS
        invariant 0 <= k <= ATTEMPTS && Play(rules, input, 0, []) == Play(rules, input, k, sent)
      {
        attempt, n := Attempt(rules, input.replies(k));
        if attempt == Raised { return Failed, n; }
        if attempt == Complete { return Answered(k), n; }
        k := k + 1;
      }
      return Exhausted, Norm("", [], None);
    }

    /** The generator of the answer, run to its end or to an exception. */
    method Iterate(rules: Rules, input: Input) returns (raised: bool)
      requires sent == [] && generated == None && revision == None
      modifies this
      ensures sent == Deltas(rules, input)
      ensures raised == (FinalAnswer(rules, input) == None) && generated == FinalAnswer(rules, input)
      ensures generated.Some? ==> Settles(sent, revision, generated.value.answer)
      ensures revision == RevisionOf(rules, input)
    {
      hide Concat, Play, Normalized, StreamOf;
      OnePart(if input.early.Some? then input.early.value else input.fallback.answer);
      if input.early.Some? {
        generated := Some(Generated(input.early.value, []));
        sent := sent + [input.early.value];
        return false;
      }
      var end, n := RunAttempts(rules, input);
      if end == Failed { return true; }
      if end.Answered? {
        generated := input.final(end.attempt, Concat(n.parts), n.grounded == Some(true));
        if generated == None { return true; }
        revision := if generated.value.answer != Concat(sent) then Some(generated.value.answer) else None;
        return false;
      }
      if sent != [] {
        revision := Some(input.fallback.answer);
      } else {
        sent := sent + [input.fallback.answer];
      }
      generated := Some(input.fallback);
      return false;
    }
  }

  lemma OnePart(text: string)
    ensures Concat([] + [text]) == text && Concat([text]) == text
  {
    ConcatOne([], text);
    assert [] + [text] == [text];
  }

  /** Without a revision what was sent is the answer; a revision is the answer. */
  ghost predicate Settles(sent: seq<string>, revision: Option<string>, answer: string) {
    if revision == None then Concat(sent) == answer else revision == Some(answer)
  }

  /** Everything shown comes from one request of one attempt, the first attempt that showed anything; every
      attempt before it overflowed. */
  lemma {:induction false} OneRequestIsShown(rules: Rules, input: Input, k: nat) returns (shown: nat)
    requires k <= ATTEMPTS && Play(rules, input, k, []).visible != []
    ensures k <= shown < ATTEMPTS
    ensures Play(rules, input, k, []).visible == Normalized(rules, StreamOf(input.replies(shown))).parts
    ensures forall i :: k <= i < shown ==>
              StreamOf(input.replies(i)).end == TooLong && Normalized(rules, StreamOf(input.replies(i))).parts == []
    decreases ATTEMPTS - k
  {
    hide Normalized, StreamOf;
    var parts := Normalized(rules, StreamOf(input.replies(k))).parts;
    if parts != [] {
      shown := k;
      KeepsWhatWasShown(rules, input, k + 1, parts);
    } else {
      shown := OneRequestIsShown(rules, input, k + 1);
    }
  }

  lemma {:induction false} KeepsWhatWasShown(rules: Rules, input: Input, k: nat, visible: seq<string>)
    requires visible != []
    ensures Play(rules, input, k, visible).visible == visible
    decreases ATTEMPTS - k
  {
    hide Normalized, StreamOf;
    if k < ATTEMPTS { KeepsWhatWasShown(rules, input, k + 1, visible); }
  }

  /** The answer that is kept is made from the first attempt that did not overflow. */
  lemma {:induction false} FirstFittingAttemptAnswers(rules: Rules, input: Input, k: nat, visible: seq<string>)
    requires k <= ATTEMPTS
    ensures match Play(rules, input, k, visible).end
            case Answered(a) => k <= a < ATTEMPTS && StreamOf(input.replies(a)).end == Complete
                                && forall i :: k <= i < a ==> StreamOf(input.replies(i)).end == TooLong
            case Exhausted => forall i :: k <= i < ATTEMPTS ==> StreamOf(input.replies(i)).end == TooLong
            case Failed => exists a :: k <= a < ATTEMPTS && StreamOf(input.replies(a)).end == Raised
    decreases ATTEMPTS - k
  {
    hide Normalized, StreamOf;
    if k < ATTEMPTS {
      var parts := Normalized(rules, StreamOf(input.replies(k))).parts;
      FirstFittingAttemptAnswers(rules, input, k + 1, if visible != [] then visible else parts);
    }
  }

  /** When the marker was not found, the shown deltas are the model's own words, and so is the answer that goes
      into post-processing when the first attempt fits. */
  lemma GroundedAnswerIsTheModelsText(rules: Rules, input: Input)
    requires StreamOf(input.replies(0)).end == Complete
    requires Normalized(rules, StreamOf(input.replies(0))).grounded == Some(true)
    ensures Play(rules, input, 0, []).end == Answered(0)
    ensures Concat(Play(rules, input, 0, []).visible) == Concat(StreamOf(input.replies(0)).deltas)
  {
    FinishedAnswer(rules, StreamOf(input.replies(0)).deltas);
    hide StreamOf, After, Finish;
  }

  // ---- which answer is given ----

  /** The first attempt that did not overflow is number a. */
  ghost predicate FirstToFit(input: Input, a: nat) {
    a < ATTEMPTS && StreamOf(input.replies(a)).end != TooLong
    && forall i :: 0 <= i < a ==> StreamOf(input.replies(i)).end == TooLong
  }

  ghost predicate NoneFits(input: Input) {
    forall i :: 0 <= i < ATTEMPTS ==> StreamOf(input.replies(i)).end == TooLong
  }

  /** The first attempt that showed anything before or when one fitted is number a. */
  ghost predicate FirstToShow(rules: Rules, input: Input, a: nat) {
    && a < ATTEMPTS && Normalized(rules, StreamOf(input.replies(a))).parts != []
    && forall i :: 0 <= i < a ==> StreamOf(input.replies(i)).end == TooLong
                                  && Normalized(rules, StreamOf(input.replies(i))).parts == []
  }

  /**
   The answer: the early one if there is one; otherwise what is made of the whole answer of the first attempt that
   fits, or nothing if that attempt failed; otherwise the fallback. The deltas are those of the first attempt that
   showed any, or the early answer or the fallback as a whole. Only an answer that differs from what was shown is
   revised, and a fallback that something was shown before.
   */
  lemma WhichAnswerIsGiven(rules: Rules, input: Input)
    ensures input.early.Some? ==>
              FinalAnswer(rules, input) == Some(Generated(input.early.value, [])) && Deltas(rules, input) == [input.early.value]
    ensures input.early == None ==>
              && (forall a: nat :: FirstToFit(input, a) ==> FinalAnswer(rules, input) == AnswerFrom(rules, input, a))
              && (NoneFits(input) ==> FinalAnswer(rules, input) == Some(input.fallback))
              && (forall a: nat :: FirstToShow(rules, input, a) ==>
                    Deltas(rules, input) == Normalized(rules, StreamOf(input.replies(a))).parts)
              && ((forall a: nat :: !FirstToShow(rules, input, a)) ==>
                    Deltas(rules, input) == if NoneFits(input) then [input.fallback.answer] else [])
    ensures RevisionOf(rules, input).Some? ==>
              && FinalAnswer(rules, input).Some?
              && (NoneFits(input) || FinalAnswer(rules, input).value.answer != Concat(Deltas(rules, input)))
  {
    hide Play, Normalized, StreamOf, Concat, Finish, After, FirstToShow, NoneFits;
    HowItEnds(rules, input);
    if input.early == None {
      forall a: nat | FirstToFit(input, a) ensures FinalAnswer(rules, input) == AnswerFrom(rules, input, a) {
        EndsAtTheFirstThatFits(rules, input, 0, [], a);
        CompleteIsFinished(rules, StreamOf(input.replies(a)));
      }
      forall a: nat | FirstToShow(rules, input, a)
        ensures Deltas(rules, input) == Normalized(rules, StreamOf(input.replies(a))).parts
      {
        FirstPartsAreShown(rules, input, a);
      }
    }
  }

  lemma HowItEnds(rules: Rules, input: Input)
    ensures Play(rules, input, 0, []).end == Exhausted <==> NoneFits(input)
    ensures Play(rules, input, 0, []).visible != [] ==> exists a: nat :: FirstToShow(rules, input, a)
  {
    hide Play, Normalized, StreamOf;
    FirstFittingAttemptAnswers(rules, input, 0, []);
    if Play(rules, input, 0, []).visible != [] {
      var a := OneRequestIsShown(rules, input, 0);
      assert FirstToShow(rules, input, a);
    }
  }

  lemma {:induction false} EndsAtTheFirstThatFits(rules: Rules, input: Input, k: nat, visible: seq<string>, a: nat)
    requires k <= a < ATTEMPTS && StreamOf(input.replies(a)).end != TooLong
    requires forall i :: k <= i < a ==> StreamOf(input.replies(i)).end == TooLong
    ensures Play(rules, input, k, visible).end == if StreamOf(input.replies(a)).end == Raised then Failed else Answered(a)
    decreases a - k
  {
    hide Normalized, StreamOf;
    var parts := Normalized(rules, StreamOf(input.replies(k))).parts;
    if k < a { EndsAtTheFirstThatFits(rules, input, k + 1, if visible != [] then visible else parts, a); }
  }

  lemma FirstPartsAreShown(rules: Rules, input: Input, a: nat)
    requires FirstToShow(rules, input, a)
    ensures Play(rules, input, 0, []).visible == Normalized(rules, StreamOf(input.replies(a))).parts != []
  {
    hide Normalized, StreamOf;
    ShownFrom(rules, input, 0, a);
  }

  lemma {:induction false} ShownFrom(rules: Rules, input: Input, k: nat, a: nat)
    requires k <= a && FirstToShow(rules, input, a)
    ensures Play(rules, input, k, []).visible == Normalized(rules, StreamOf(input.replies(a))).parts
    decreases a - k
  {
    hide Normalized, StreamOf;
    if k < a {
      ShownFrom(rules, input, k + 1, a);
    } else {
      KeepsWhatWasShown(rules, input, a + 1, Normalized(rules, StreamOf(input.replies(a))).parts);
    }
  }

  lemma CompleteIsFinished(rules: Rules, s: Streamed)
    ensures s.end == Complete ==> Normalized(rules, s) == Finish(rules, After(rules, s.deltas))
    ensures s.end != Complete ==> Normalized(rules, s) == After(rules, s.deltas)
  {}

  /** What an attempt that fits is made into. */
  ghost function AnswerFrom(rules: Rules, input: Input, a: nat): Option<Generated> {
    var s := StreamOf(input.replies(a));
    if s.end == Raised then None
    else
      var n := Finish(rules, After(rules, s.deltas));
      input.final(a, Concat(n.parts), n.grounded == Some(true))
  }
}
