/** The conversation history that fits a character budget, newest characters first. */
module History {
  import opened Prelude

  datatype Message = Message(role: string, content: string)

  predicate Eligible(m: Message) {
    (m.role == "user" || m.role == "assistant") && m.content != ""
  }

  const MAX_CONTEXT_MESSAGES: nat := 8
  const MAX_CONTEXT_CHARS: nat := 8000

  /** The characters of the eligible messages in order, each with the role that said it. */
  function Spoken(history: seq<Message>): seq<(string, char)> {
    if history == [] then []
    else
      var m := history[|history| - 1];
      Spoken(history[..|history| - 1]) +
        if Eligible(m) then Tagged(m) else []
  }

  function Tagged(m: Message): (r: seq<(string, char)>)
    ensures |r| == |m.content|
    ensures forall k :: 0 <= k < |r| ==> r[k] == (m.role, m.content[k])
  {
    seq(|m.content|, i requires 0 <= i < |m.content| => (m.role, m.content[i]))
  }

  function Last<T>(s: seq<T>, n: int): seq<T> {
    if n <= 0 then [] else if n >= |s| then s else s[|s| - n..]
  }

  /** What is kept of the history within `remaining` characters, oldest first. */
  function Limited(history: seq<Message>, remaining: int): seq<Message> {
    if history == [] || remaining <= 0 then []
    else
      var m, older := history[|history| - 1], history[..|history| - 1];
      if !Eligible(m) then Limited(older, remaining)
      else Limited(older, remaining - |m.content|) + [m.(content := Last(m.content, remaining))]
  }

  /** The loop over the history, newest message first. */
  method LimitConversationContext(history: seq<Message>, maxChars: int) returns (selected: seq<Message>)
    ensures selected == Limited(history, maxChars)
  {
    selected := [];
    if maxChars <= 0 { return; }
    var remaining := maxChars;
    var i := |history|;
    assert history[..i] == history;
    while i > 0
      invariant 0 <= i <= |history| && remaining > 0
      invariant Limited(history[..i], remaining) + selected == Limited(history, maxChars)
    {
      i := i - 1;
      assert history[..i + 1][..i] == history[..i];
      if Eligible(history[i]) {
        var content := history[i].content;
        if |content| > remaining { content := content[|content| - remaining..]; }
        selected := [Message(history[i].role, content)] + selected;
        remaining := remaining - |content|;
        if remaining <= 0 {
          assert Limited(history[..i], remaining) == [];
          return;
        }
      }
    }
  }

  lemma SpokenAppends(history: seq<Message>, m: Message)
    ensures Spoken(history + [m]) == Spoken(history) + if Eligible(m) then Tagged(m) else []
  {
    assert (history + [m])[..|history|] == history;
  }

  lemma TaggedLast(m: Message, n: int)
    ensures Tagged(m.(content := Last(m.content, n))) == Last(Tagged(m), n)
  {}

  lemma LastOfConcatenation<T>(a: seq<T>, b: seq<T>, n: int)
    ensures Last(a + b, n) == Last(a, n - |b|) + Last(b, n)
  {}

  /** The kept text is exactly the last `max` characters that were said, each still with its role. */
  lemma {:induction false} LimitKeepsTheLastCharacters(history: seq<Message>, max: int)
    ensures Spoken(Limited(history, max)) == Last(Spoken(history), max)
    decreases |history|
  {
    if history != [] && max > 0 {
      var m, older := history[|history| - 1], history[..|history| - 1];
      var last := m.(content := Last(m.content, max));
      assert Eligible(m) ==> Eligible(last);
      hide Last, Tagged, Eligible;
      if !Eligible(m) {
        LimitKeepsTheLastCharacters(older, max);
      } else {
        LimitKeepsTheLastCharacters(older, max - |m.content|);
        SpokenAppends(Limited(older, max - |m.content|), last);
        TaggedLast(m, max);
        LastOfConcatenation(Spoken(older), Tagged(m), max);
      }
    }
  }

  /** No kept message is empty or of another role. */
  lemma {:induction false} LimitKeepsEligibleMessages(history: seq<Message>, max: int, k: nat)
    requires k < |Limited(history, max)|
    ensures Limited(history, max)[k].role in {"user", "assistant"} && Limited(history, max)[k].content != ""
    decreases |history|
  {
    var m, older := history[|history| - 1], history[..|history| - 1];
    if !Eligible(m) {
      LimitKeepsEligibleMessages(older, max, k);
    } else if k < |Limited(older, max - |m.content|)| {
      LimitKeepsEligibleMessages(older, max - |m.content|, k);
    }
  }

  /** The messages that count, in order. */
  ghost function EligibleOnes(history: seq<Message>): seq<Message> {
    if history == [] then []
    else EligibleOnes(history[..|history| - 1]) + if Eligible(history[|history| - 1]) then [history[|history| - 1]] else []
  }

  /** The kept message is the end of what was said; it is all of it unless it is the oldest kept. */
  ghost predicate EndOf(kept: Message, said: Message, oldest: bool) {
    && kept.role == said.role && kept.role in {"user", "assistant"} && kept.content != ""
    && |kept.content| <= |said.content|
    && kept.content == said.content[|said.content| - |kept.content|..]
    && (!oldest ==> kept == said)
  }

  /** The kept messages are the ends of the last ones. */
  ghost predicate EndsOfTheNewest(kept: seq<Message>, all: seq<Message>) {
    |kept| <= |all| && forall k :: 0 <= k < |kept| ==> EndOf(kept[k], all[|all| - |kept| + k], k == 0)
  }

  /** The newest messages that count are kept, all whole but perhaps the oldest kept, of which the end is. */
  lemma {:induction false} LimitKeepsTheNewestMessages(history: seq<Message>, max: int)
    ensures EndsOfTheNewest(Limited(history, max), EligibleOnes(history))
    decreases |history|
  {
    if history != [] && max > 0 {
      hide EndsOfTheNewest, Last;
      var m, older := history[|history| - 1], history[..|history| - 1];
      if Eligible(m) {
        LimitKeepsTheNewestMessages(older, max - |m.content|);
        if max - |m.content| <= 0 { NothingLeft(older, max - |m.content|); }
        OneMoreKept(Limited(older, max - |m.content|), EligibleOnes(older), m, max);
      } else {
        LimitKeepsTheNewestMessages(older, max);
        assert EligibleOnes(history) == EligibleOnes(older) + [] == EligibleOnes(older);
      }
    }
  }

  lemma OneMoreKept(kept: seq<Message>, all: seq<Message>, m: Message, max: int)
    requires EndsOfTheNewest(kept, all) && Eligible(m) && max > 0 && (max <= |m.content| ==> kept == [])
    ensures EndsOfTheNewest(kept + [m.(content := Last(m.content, max))], all + [m])
  {
    var last := m.(content := Last(m.content, max));
    assert EndOf(last, m, kept == []);
    hide EndOf;
    var longer, more := kept + [last], all + [m];
    forall k | 0 <= k < |longer| ensures EndOf(longer[k], more[|more| - |longer| + k], k == 0) {
      if k < |kept| { assert EndOf(kept[k], all[|all| - |kept| + k], k == 0); }
    }
  }

  lemma LimitedSplits(older: seq<Message>, m: Message, remaining: int)
    requires Eligible(m)
    ensures Limited(older + [m], remaining) ==
              if remaining <= 0 then []
              else Limited(older, remaining - |m.content|) + [m.(content := Last(m.content, remaining))]
  {
    assert (older + [m])[..|older|] == older;
  }

  lemma LimitedSkips(older: seq<Message>, m: Message, remaining: int)
    requires !Eligible(m)
    ensures Limited(older + [m], remaining) == Limited(older, remaining)
  {
    assert (older + [m])[..|older|] == older;
  }

  lemma NothingLeft(history: seq<Message>, remaining: int)
    requires history == [] || remaining <= 0
    ensures Limited(history, remaining) == []
  {}

  lemma LimitTwiceKeepsOne(older: seq<Message>, m: Message, a: int, b: int)
    requires Eligible(m) && a > 0
    requires var after := b - |Last(m.content, a)|;
             Limited(Limited(older, a - |m.content|), after) == Limited(older, Min(a - |m.content|, after))
    ensures Limited(Limited(older + [m], a), b) == Limited(older + [m], Min(a, b))
  {
    hide Limited;
    LimitedSplits(older, m, a);
    LimitedSplits(older, m, Min(a, b));
    var kept, last := Limited(older, a - |m.content|), m.(content := Last(m.content, a));
    LimitedSplits(kept, last, b);
    if b > 0 {
      assert Last(last.content, b) == Last(m.content, Min(a, b));
      if a - |m.content| <= 0 {
        NothingLeft(older, a - |m.content|);
        NothingLeft(older, Min(a - |m.content|, b - |last.content|));
        NothingLeft(older, Min(a, b) - |m.content|);
      }
    }
  }

  /** Limiting twice is limiting once by the smaller budget: the compact attempts of the answer generator see
      the same history whether they start from the full history or from an already limited one. */
  lemma {:induction false} LimitTwiceIsLimitOnce(history: seq<Message>, a: int, b: int)
    ensures Limited(Limited(history, a), b) == Limited(history, Min(a, b))
    decreases |history|
  {
    hide Limited;
    if history == [] || a <= 0 {
      NothingLeft(history, a);
      NothingLeft(history, Min(a, b));
      NothingLeft([], b);
    } else {
      var m, older := history[|history| - 1], history[..|history| - 1];
      assert history == older + [m];
      if !Eligible(m) {
        LimitedSkips(older, m, a);
        LimitedSkips(older, m, Min(a, b));
        LimitTwiceIsLimitOnce(older, a, b);
      } else {
        LimitTwiceIsLimitOnce(older, a - |m.content|, b - |Last(m.content, a)|);
        LimitTwiceKeepsOne(older, m, a, b);
      }
    }
  }

  /** The budget is never exceeded, and used up whenever enough was said. */
  lemma LimitUsesTheBudget(history: seq<Message>, max: int)
    ensures |Spoken(Limited(history, max))| == Min(Max(max, 0), |Spoken(history)|)
  {
    LimitKeepsTheLastCharacters(history, max);
  }

  method BuildConversationContext(messages: seq<Message>) returns (context: seq<Message>)
    ensures context == Limited(Last(messages, MAX_CONTEXT_MESSAGES), MAX_CONTEXT_CHARS)
    ensures |context| <= MAX_CONTEXT_MESSAGES && |Spoken(context)| <= MAX_CONTEXT_CHARS
  {
    var recent := if |messages| > MAX_CONTEXT_MESSAGES then messages[|messages| - MAX_CONTEXT_MESSAGES..] else messages;
    var history := [];
    for i := 0 to |recent|
      invariant Limited(history, MAX_CONTEXT_CHARS) == Limited(recent[..i], MAX_CONTEXT_CHARS)
      invariant forall max :: Limited(history, max) == Limited(recent[..i], max)
      invariant |history| <= i
    {
      assert recent[..i + 1][..i] == recent[..i];
      if Eligible(recent[i]) {
        assert (history + [recent[i]])[..|history|] == history;
        history := history + [recent[i]];
      }
    }
    assert recent[..|recent|] == recent;
    context := LimitConversationContext(history, MAX_CONTEXT_CHARS);
    LimitUsesTheBudget(history, MAX_CONTEXT_CHARS);
    LimitedIsShorter(history, MAX_CONTEXT_CHARS);
  }

  lemma {:induction false} LimitedIsShorter(history: seq<Message>, max: int)
    ensures |Limited(history, max)| <= |history|
    decreases |history|
  {
    if history != [] && max > 0 {
      var m, older := history[|history| - 1], history[..|history| - 1];
      LimitedIsShorter(older, max);
      LimitedIsShorter(older, max - |m.content|);
    }
  }
}
