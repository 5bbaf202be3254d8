/**
 The chat stream from end to end: the endpoint's messages and what it stores, the frames that carry them, and
 the browser that reads whatever fragments arrive and folds the messages into the answer it shows. JSON is a
 pair of functions; the database and the connection may fail at any point.
 */
module ChatStream {
  import opened Prelude
  import opened Text
  import opened Retrieved
  import opened Streaming
  import opened Sse

  type SessionInfo = string

  datatype Message =
    | Session(info: SessionInfo)
    | Delta(text: string)
    | Revision(text: string)
    | Sources(sources: seq<SourceRef>)
    | Done(info: SessionInfo)
    | Error(detail: string)

  // ---- the endpoint ----

  /** Where the endpoint may fail besides the answer: storing the exchange, and reading the session back. */
  datatype Weather = Weather(stores: bool, rereads: bool, before: SessionInfo, after: SessionInfo, detail: string)

  function DeltaMessages(texts: seq<string>): seq<Message> {
    seq(|texts|, k requires 0 <= k < |texts| => Delta(texts[k]))
  }

  /** The messages of an answer: the deltas, and the revision if there is one. */
  function AnswerMessages(w: Weather, sent: seq<string>, revision: Option<string>): seq<Message> {
    [Session(w.before)] + DeltaMessages(sent) + if revision == None then [] else [Revision(revision.value)]
  }

  function Answering(rules: Rules, input: Input, w: Weather): seq<Message> {
    AnswerMessages(w, Deltas(rules, input), RevisionOf(rules, input))
  }

  /** What follows the answer. */
  function Closing(generated: Option<Generated>, w: Weather): seq<Message> {
    if generated == None || !w.stores || !w.rereads then [Error(w.detail)]
    else [Sources(generated.value.sources), Done(w.after)]
  }

  /** All messages, if the client takes them all. */
  function Full(rules: Rules, input: Input, w: Weather, opens: bool): seq<Message> {
    if !opens then [Error(w.detail)] else Answering(rules, input, w) + Closing(FinalAnswer(rules, input), w)
  }

  /** What a client that closes the connection on receiving message number `closeAt` has received. */
  function Delivered(all: seq<Message>, closeAt: Option<nat>): seq<Message> {
    if closeAt.Some? && closeAt.value <= |all| then all[..closeAt.value] else all
  }

  // ---- what a stream says, message by message ----

  /** The session is there, an answer is generated, it is stored, and the session is read back. */
  ghost predicate Succeeds(rules: Rules, input: Input, w: Weather, opens: bool) {
    opens && FinalAnswer(rules, input).Some? && w.stores && w.rereads
  }

  /** The session, the deltas, and the revision if there is one. */
  ghost function AnswerLength(rules: Rules, input: Input): nat {
    1 + |Deltas(rules, input)| + if RevisionOf(rules, input) == None then 0 else 1
  }

  /** Message number k of a stream. */
  ghost predicate MessageAt(rules: Rules, input: Input, w: Weather, opens: bool, k: nat, m: Message) {
    var sent, n := Deltas(rules, input), AnswerLength(rules, input);
    if !opens then k == 0 && m == Error(w.detail)
    else if k == 0 then m == Session(w.before)
    else if k <= |sent| then m == Delta(sent[k - 1])
    else if k < n then m.Revision? && RevisionOf(rules, input) == Some(m.text)
    else if !Succeeds(rules, input, w, opens) then k == n && m == Error(w.detail)
    else if k == n then m == Sources(FinalAnswer(rules, input).value.sources)
    else k == n + 1 && m == Done(w.after)
  }

  ghost predicate Ended(messages: seq<Message>) {
    messages != [] && (messages[|messages| - 1].Done? || messages[|messages| - 1].Error?)
  }

  /** A stream that was taken to its end: with success it ends with the sources of what was stored and "done",
      otherwise with an error, and nothing before that end says either. */
  ghost predicate EndsWell(messages: seq<Message>, success: bool, w: Weather, stored: Option<Generated>) {
    var n := |messages|;
    && n > 0 && Plain(messages[..n - 1])
    && (messages[n - 1].Done? <==> success)
    && (success ==> n > 1 && stored.Some? && messages[n - 2] == Sources(stored.value.sources)
                    && messages[n - 1] == Done(w.after))
    && (!success ==> messages[n - 1] == Error(w.detail))
  }

  lemma FullIsMessageByMessage(rules: Rules, input: Input, w: Weather, opens: bool)
    ensures var all := Full(rules, input, w, opens);
            && (forall k :: 0 <= k < |all| ==> MessageAt(rules, input, w, opens, k, all[k]))
            && all != [] && Plain(all[..|all| - 1]) && Ended(all) && |Answering(rules, input, w)| == AnswerLength(rules, input)
  {
    AnswerIsPlain(w, Deltas(rules, input), RevisionOf(rules, input));
    hide Deltas, RevisionOf, FinalAnswer;
  }

  lemma FullEndsWell(rules: Rules, input: Input, w: Weather, opens: bool, stored: Option<Generated>)
    requires stored == if opens && w.stores && |Full(rules, input, w, opens)| > AnswerLength(rules, input)
                       then FinalAnswer(rules, input) else None
    ensures EndsWell(Full(rules, input, w, opens), Succeeds(rules, input, w, opens), w, stored)
  {
    FullIsMessageByMessage(rules, input, w, opens);
    hide Answering, FinalAnswer;
  }

  method SendAll(sent: seq<Message>, part: seq<Message>, closeAt: Option<nat>) returns (messages: seq<Message>, closed: bool)
    requires closeAt.Some? ==> |sent| < closeAt.value
    ensures messages == Delivered(sent + part, closeAt)
    ensures closed == (closeAt.Some? && closeAt.value <= |sent + part|)
  {
    messages := sent;
    for i := 0 to |part|
      invariant messages == sent + part[..i] && (closeAt.Some? ==> |messages| < closeAt.value)
    {
      messages := messages + [part[i]];
      assert messages == sent + part[..i + 1] == (sent + part)[..|sent| + i + 1];
      if closeAt == Some(|messages|) { return messages, true; }
    }
    assert part[..|part|] == part;
    return messages, false;
  }

  /** The session of one exchange: whether its row exists and how many messages it has. */
  class Exchange {
    var session: Option<nat>
    var stored: Option<Generated>

    constructor (session: Option<nat>)
      ensures this.session == session && stored == None
    {
      this.session, stored := session, None;
    }

    /** A session made for this stream goes if it is still empty. */
    method CleanUp(created: bool)
      modifies this`session
      ensures session == if created && old(session) == Some(0) then None else old(session)
    {
      if created && session == Some(0) { session := None; }
    }

    /**
     The generator of the chat stream, run until its end or until the client closes the connection. The exchange
     is stored only after the whole answer was taken, and then it is the final answer; a session made for the
     stream is there afterwards exactly if the exchange is.
     */
    method ChatEventStream(rules: Rules, input: Input, w: Weather, created: bool, closeAt: Option<nat>)
        returns (messages: seq<Message>, closed: bool)
      requires stored == None && (created && session.Some? ==> session == Some(0)) && (closeAt.Some? ==> closeAt.value >= 1)
      modifies this
      ensures forall k :: 0 <= k < |messages| ==> MessageAt(rules, input, w, old(session).Some?, k, messages[k])
      ensures closed ==> closeAt == Some(|messages|)
      ensures !closed ==> EndsWell(messages, Succeeds(rules, input, w, old(session).Some?), w, stored)
      ensures Ended(messages) ==> Served(messages, stored)
      ensures stored == if old(session).Some? && w.stores && |messages| > AnswerLength(rules, input)
                        then FinalAnswer(rules, input) else None
      ensures session == if stored.Some? then Some(old(session).value + 2) else if created then None else old(session)
    {
      hide Served, FinalAnswer, Answering, Full, Succeeds, MessageAt, EndsWell, Ended, AnswerLength;
      ghost var opens := session.Some?;
      ghost var all := Full(rules, input, w, opens);
      messages, closed := SendExchange(rules, input, w, created, closeAt);
      FullIsMessageByMessage(rules, input, w, opens);
      TakenInPart(all, messages, closeAt);
      assert forall k :: 0 <= k < |messages| ==> MessageAt(rules, input, w, opens, k, messages[k]);
      if !closed { FullEndsWell(rules, input, w, opens, stored); }
    }

    /** The same, by what is delivered of all the messages. */
    method SendExchange(rules: Rules, input: Input, w: Weather, created: bool, closeAt: Option<nat>)
        returns (messages: seq<Message>, closed: bool)
      requires stored == None && (created && session.Some? ==> session == Some(0)) && (closeAt.Some? ==> closeAt.value >= 1)
      modifies this
      ensures var all := Full(rules, input, w, old(session).Some?);
              && messages == Delivered(all, closeAt) && closed == (closeAt.Some? && closeAt.value <= |all|)
              && (messages == all ==> Served(messages, stored))
      ensures stored == if old(session).Some? && w.stores && |messages| > |Answering(rules, input, w)|
                        then FinalAnswer(rules, input) else None
      ensures session == if stored.Some? then Some(old(session).value + 2) else if created then None else old(session)
    {
      if session == None {
        messages, closed := SendAll([], [Error(w.detail)], closeAt);
        FailureIsServed([], w.detail, None);
        return;
      }
      var answer, generated := ComposeAnswer(rules, input, w);
      hide Served, FinalAnswer, Answering;
      messages, closed := SendAll([], answer, closeAt);
      assert [] + answer == answer;
      if closed {
        ClosedEarly(answer, Full(rules, input, w, true), closeAt);
        CleanUp(created);
        return;
      }
      messages, closed := Conclude(answer, generated, w, created, closeAt);
    }

    /** The answer's messages, and what was generated. */
    method ComposeAnswer(rules: Rules, input: Input, w: Weather) returns (answer: seq<Message>, generated: Option<Generated>)
      ensures answer == Answering(rules, input, w) && Plain(answer) && generated == FinalAnswer(rules, input)
      ensures generated.Some? ==> Served(answer + [Sources(generated.value.sources), Done(w.after)], generated)
    {
      hide Served, FinalAnswer, Deltas, RevisionOf, Settles;
      var streamed := new StreamingAnswer();
      var raised := streamed.Iterate(rules, input);
      answer := [Session(w.before)] + DeltaMessages(streamed.sent);
      if streamed.revision.Some? { answer := answer + [Revision(streamed.revision.value)]; }
      assert answer == AnswerMessages(w, streamed.sent, streamed.revision);
      generated := streamed.generated;
      AnswerIsPlain(w, streamed.sent, streamed.revision);
      if generated.Some? { AnswerIsServed(w, streamed.sent, streamed.revision, generated.value); }
    }

    /** Storing, and the last messages. */
    method Conclude(answer: seq<Message>, generated: Option<Generated>, w: Weather, created: bool, closeAt: Option<nat>)
        returns (messages: seq<Message>, closed: bool)
      requires stored == None && session.Some? && (created ==> session == Some(0)) && Plain(answer)
      requires closeAt.Some? ==> |answer| < closeAt.value
      requires generated.Some? ==> Served(answer + [Sources(generated.value.sources), Done(w.after)], generated)
      modifies this
      ensures var all := answer + Closing(generated, w);
              && messages == Delivered(all, closeAt) && closed == (closeAt.Some? && closeAt.value <= |all|)
              && (messages == all ==> Served(messages, stored))
      ensures stored == if w.stores then generated else None
      ensures session == if stored.Some? then Some(old(session).value + 2) else if created then None else old(session)
    {
      FailureIsServed(answer, w.detail, if w.stores then generated else None);
      hide Served;
      if generated == None || !w.stores {
        CleanUp(created);
        messages, closed := SendAll(answer, [Error(w.detail)], closeAt);
        return;
      }
      stored, session := generated, Some(session.value + 2);
      if !w.rereads {
        CleanUp(created);
        messages, closed := SendAll(answer, [Error(w.detail)], closeAt);
        return;
      }
      messages, closed := SendAll(answer, [Sources(stored.value.sources), Done(w.after)], closeAt);
      if closed { CleanUp(created); }
    }
  }

  lemma TakenInPart(all: seq<Message>, messages: seq<Message>, closeAt: Option<nat>)
    requires messages == Delivered(all, closeAt) && all != [] && Plain(all[..|all| - 1])
    ensures messages <= all && (Ended(messages) ==> messages == all)
  {}

  lemma ClosedEarly(answer: seq<Message>, all: seq<Message>, closeAt: Option<nat>)
    requires answer <= all && closeAt.Some? && closeAt.value <= |answer|
    ensures Delivered(answer, closeAt) == Delivered(all, closeAt)
  {}

  // ---- the fold of the browser ----

  /** What the page shows, and whether the stream said that it was done. */
  datatype Page = Page(answer: string, sources: seq<SourceRef>, session: Option<SessionInfo>, completed: bool)

  /** An error event ends the reading with an exception. */
  datatype View = Showing(page: Page) | Thrown

  const Blank: View := Showing(Page("", [], None, false))

  function Show(view: View, m: Message): View {
    match view
    case Thrown => Thrown
    case Showing(p) =>
      match m
      case Session(info) => Showing(p.(session := Some(info)))
      case Delta(text) => Showing(p.(answer := p.answer + text))
      case Revision(text) => Showing(p.(answer := text))
      case Sources(sources) => Showing(p.(sources := sources))
      case Done(info) => Showing(p.(session := Some(info), completed := true))
      case Error(_) => Thrown
  }

  function Fold(view: View, messages: seq<Message>): View {
    if messages == [] then view else Show(Fold(view, messages[..|messages| - 1]), messages[|messages| - 1])
  }

  /** The message sequence ends with "done" or with an error and has neither before; when it ends with "done",
      an exchange was stored and the fold of all messages is exactly what was stored. */
  ghost predicate Served(messages: seq<Message>, stored: Option<Generated>) {
    && messages != []
    && (forall k :: 0 <= k < |messages| - 1 ==> !messages[k].Done? && !messages[k].Error?)
    && (messages[|messages| - 1].Done? || messages[|messages| - 1].Error?)
    && (messages[|messages| - 1].Done? ==>
          stored.Some? &&
          Fold(Blank, messages) == Showing(Page(stored.value.answer, stored.value.sources,
                                                Some(messages[|messages| - 1].info), true)))
  }

  ghost predicate Plain(messages: seq<Message>) {
    forall k :: 0 <= k < |messages| ==> !messages[k].Done? && !messages[k].Error?
  }

  lemma AnswerIsPlain(w: Weather, sent: seq<string>, revision: Option<string>)
    ensures Plain(AnswerMessages(w, sent, revision))
  {}

  lemma FailureIsServed(messages: seq<Message>, detail: string, stored: Option<Generated>)
    requires Plain(messages)
    ensures Served(messages + [Error(detail)], stored)
  {}

  lemma FoldOne(view: View, messages: seq<Message>, last: Message)
    ensures Fold(view, messages + [last]) == Show(Fold(view, messages), last)
  {
    assert (messages + [last])[..|messages|] == messages;
  }

  lemma {:induction false} FoldDeltas(session: Message, sent: seq<string>)
    requires session.Session?
    ensures Fold(Blank, [session] + DeltaMessages(sent)) == Showing(Page(Concat(sent), [], Some(session.info), false))
    decreases |sent|
  {
    if sent == [] {
      assert [session] + DeltaMessages(sent) == [] + [session];
      FoldOne(Blank, [], session);
    } else {
      var before, last := sent[..|sent| - 1], sent[|sent| - 1];
      FoldDeltas(session, before);
      assert [session] + DeltaMessages(sent) == ([session] + DeltaMessages(before)) + [Delta(last)];
      FoldOne(Blank, [session] + DeltaMessages(before), Delta(last));
      assert sent == before + [last];
      ConcatOne(before, last);
      hide Fold, Concat;
    }
  }

  /** What the page shows after "done" is what was stored. */
  lemma AnswerIsServed(w: Weather, sent: seq<string>, revision: Option<string>, g: Generated)
    requires Settles(sent, revision, g.answer)
    ensures Served(AnswerMessages(w, sent, revision) + [Sources(g.sources), Done(w.after)], Some(g))
  {
    var shown := AnswerMessages(w, sent, revision);
    AnswerIsPlain(w, sent, revision);
    hide Concat;
    var start := [Session(w.before)] + DeltaMessages(sent);
    FoldDeltas(Session(w.before), sent);
    FoldOne(Blank, start, Revision(if revision == None then "" else revision.value));
    assert revision == None ==> shown == start;
    FoldOne(Blank, shown, Sources(g.sources));
    FoldOne(Blank, shown + [Sources(g.sources)], Done(w.after));
    hide Fold, DeltaMessages, AnswerMessages;
    assert shown + [Sources(g.sources), Done(w.after)] == (shown + [Sources(g.sources)]) + [Done(w.after)];
  }

  // ---- frames ----

  /** What an event carries: a session summary, an object with a text, a list of sources, an object with a session,
      or an object with a detail. */
  datatype Payload =
    | Summary(info: SessionInfo)
    | Text(text: string)
    | SourceList(sources: seq<SourceRef>)
    | SessionField(info: SessionInfo)
    | Detail(detail: string)

  /** json.dumps of a payload, and JSON.parse of an event's data. */
  datatype Codec = Codec(dump: Payload -> string, parse: string -> Option<Payload>)

  function NameOf(m: Message): string {
    match m
    case Session(_) => "session"
    case Delta(_) => "delta"
    case Revision(_) => "revision"
    case Sources(_) => "sources"
    case Done(_) => "done"
    case Error(_) => "error"
  }

  function PayloadOf(m: Message): Payload {
    match m
    case Session(info) => Summary(info)
    case Delta(text) => Text(text)
    case Revision(text) => Text(text)
    case Sources(sources) => SourceList(sources)
    case Done(info) => SessionField(info)
    case Error(detail) => Detail(detail)
  }

  function EventOf(codec: Codec, m: Message): Event {
    Event(NameOf(m), codec.dump(PayloadOf(m)))
  }

  /** What the browser takes an event for, by its name; other names mean nothing to the page. */
  function MessageNamed(name: string, p: Payload): Option<Message> {
    if name == "session" && p.Summary? then Some(Session(p.info))
    else if name == "delta" && p.Text? then Some(Delta(p.text))
    else if name == "revision" && p.Text? then Some(Revision(p.text))
    else if name == "sources" && p.SourceList? then Some(Sources(p.sources))
    else if name == "done" && p.SessionField? then Some(Done(p.info))
    else if name == "error" && p.Detail? then Some(Error(p.detail))
    else None
  }

  lemma MessageReadsBack(m: Message)
    ensures MessageNamed(NameOf(m), PayloadOf(m)) == Some(m)
  {}

  /** Payloads are one-line JSON objects or arrays: they parse back, and no proper prefix of one parses. */
  ghost predicate Faithful(codec: Codec) {
    forall p: Payload ::
      && var data := codec.dump(p);
      && data != "" && !JsSpace(data[0]) && HasNo(data, '\n') && HasNo(data, '\r')
      && codec.parse(data) == Some(p)
      && forall n :: 0 <= n < |data| ==> codec.parse(data[..n]) == None
  }

  function Events(codec: Codec, messages: seq<Message>): seq<Event> {
    seq(|messages|, k requires 0 <= k < |messages| => EventOf(codec, messages[k]))
  }

  lemma EventsArePrintable(codec: Codec, messages: seq<Message>)
    requires Faithful(codec)
    ensures AllPrintable(Events(codec, messages))
  {
    hide Faithful, Printable, EventOf;
    forall k | 0 <= k < |messages| ensures Printable(Events(codec, messages)[k]) { EventIsPrintable(codec, messages[k]); }
  }

  lemma EventIsPrintable(codec: Codec, m: Message)
    requires Faithful(codec)
    ensures Printable(EventOf(codec, m))
  {
    assert codec.parse(codec.dump(PayloadOf(m))) == Some(PayloadOf(m));
    NamesArePlain(m);
    hide NameOf;
  }

  lemma NamesArePlain(m: Message)
    ensures var name := NameOf(m);
            && name != "" && !JsSpace(name[0]) && !JsSpace(name[|name| - 1]) && HasNo(name, '\n') && HasNo(name, '\r')
  {}

  // ---- the browser's reader ----

  /** One block: no event in it, an unreadable payload, or a message for the page. */
  function Process(codec: Codec, view: View, block: string): View {
    if view.Thrown? then Thrown
    else
      match ReadBlock(block)
      case None => view
      case Some(e) =>
        match codec.parse(e.data)
        case None => Thrown
        case Some(p) =>
          match MessageNamed(e.name, p)
          case None => view
          case Some(m) => Show(view, m)
  }

  function ProcessAll(codec: Codec, view: View, blocks: seq<string>): View {
    if blocks == [] then view
    else Process(codec, ProcessAll(codec, view, blocks[..|blocks| - 1]), blocks[|blocks| - 1])
  }

  /** replaceAll("\r\n", "\n") */
  function ReplaceLineEnds(s: string): string {
    if s == "" then ""
    else if |s| > 1 && s[0] == '\r' && s[1] == '\n' then "\n" + ReplaceLineEnds(s[2..])
    else [s[0]] + ReplaceLineEnds(s[1..])
  }

  lemma {:induction false} NothingToReplace(s: string)
    requires HasNo(s, '\r')
    ensures ReplaceLineEnds(s) == s
    decreases |s|
  {
    if s != "" { NothingToReplace(s[1..]); }
  }

  /** What the reader makes of a text that arrived and then ended. */
  function Final(codec: Codec, text: string): View {
    Process(codec, ProcessAll(codec, Blank, Scan(text).blocks), Scan(text).rest)
  }

  /** What the reader returns for a text that arrived and then ended: the page, or None for an exception. */
  function Outcome(codec: Codec, text: string): Option<Page> {
    match Final(codec, text)
    case Thrown => None
    case Showing(page) => if page.completed then Some(page) else None
  }

  lemma {:induction false} ProcessMore(codec: Codec, view: View, first: seq<string>, second: seq<string>)
    ensures ProcessAll(codec, view, first + second) == ProcessAll(codec, ProcessAll(codec, view, first), second)
    decreases |second|
  {
    if second == [] {
      assert first + second == first;
    } else {
      ProcessMore(codec, view, first, second[..|second| - 1]);
      assert (first + second)[..|first + second| - 1] == first + second[..|second| - 1];
    }
  }

  lemma ProcessFirst(codec: Codec, view: View, block: string, rest: seq<string>)
    ensures ProcessAll(codec, view, [block] + rest) == ProcessAll(codec, Process(codec, view, block), rest)
  {
    ProcessMore(codec, view, [block], rest);
    OneBlock(codec, view, block);
  }

  lemma NothingToProcess(codec: Codec, view: View)
    ensures ProcessAll(codec, view, []) == view
  {}

  class EventReader {
    const codec: Codec
    var buffer: string
    var view: View

    constructor (codec: Codec)
      ensures this.codec == codec && buffer == "" && view == Blank
    {
      this.codec := codec;
      buffer, view := "", Blank;
    }

    /** One fragment from the network: every block it completes is processed, the rest waits in the buffer. */
    method Read(fragment: string)
      modifies this
      ensures view == ProcessAll(codec, old(view), Scan(ReplaceLineEnds(old(buffer) + fragment)).blocks)
      ensures view.Thrown? || buffer == Scan(ReplaceLineEnds(old(buffer) + fragment)).rest
    {
      buffer := ReplaceLineEnds(buffer + fragment);
      ProcessBlocks();
    }

    method ProcessBlocks()
      modifies this
      ensures view == ProcessAll(codec, old(view), Scan(old(buffer)).blocks)
      ensures view.Thrown? || buffer == Scan(old(buffer)).rest
    {
      ghost var all, start := Scan(buffer), view;
      hide Process, Scan, ProcessAll;
      var boundary := Boundary(buffer, 0);
      while boundary != |buffer|
        invariant boundary == Boundary(buffer, 0) && Scan(buffer).rest == all.rest
        invariant ProcessAll(codec, view, Scan(buffer).blocks) == ProcessAll(codec, start, all.blocks)
        decreases |buffer|
      {
        ScanAt(buffer, boundary);
        ProcessFirst(codec, view, buffer[..boundary], Scan(buffer[boundary + 2..]).blocks);
        view := Process(codec, view, buffer[..boundary]);
        if view.Thrown? {
          NothingAfterThrown(codec, Scan(buffer[boundary + 2..]).blocks);
          return;
        }
        buffer := buffer[boundary + 2..];
        boundary := Boundary(buffer, 0);
      }
      ScanOpen(buffer);
      NothingToProcess(codec, view);
    }

    /** The end of the stream: an unfinished block is still looked at. */
    method Close() returns (page: Option<Page>)
      modifies this
      ensures view == Process(codec, old(view), old(buffer))
      ensures page == if view.Showing? && view.page.completed then Some(view.page) else None
    {
      view := Process(codec, view, buffer);
      page := if view.Showing? && view.page.completed then Some(view.page) else None;
    }
  }

  /** The reader's result does not depend on how the text was cut into fragments. */
  method StreamQuestion(codec: Codec, fragments: seq<string>) returns (page: Option<Page>)
    ensures HasNo(Concat(fragments), '\r') ==> page == Outcome(codec, Concat(fragments))
  {
    var reader := new EventReader(codec);
    assert Concat(fragments[..0]) == "";
    ScanOpen("");
    hide Process, ReplaceLineEnds, Scan, Concat;
    for i := 0 to |fragments|
      invariant fresh(reader) && reader.codec == codec
      invariant HasNo(Concat(fragments), '\r') ==>
        ReadSoFar(codec, Concat(fragments[..i]), reader.view, reader.buffer)
    {
      ghost var view, buffer := reader.view, reader.buffer;
      reader.Read(fragments[i]);
      if HasNo(Concat(fragments), '\r') {
        OneMoreFragment(codec, fragments, i, view, buffer);
      }
    }
    assert fragments[..|fragments|] == fragments;
    page := reader.Close();
  }

  ghost predicate ReadSoFar(codec: Codec, text: string, view: View, buffer: string) {
    && view == ProcessAll(codec, Blank, Scan(text).blocks)
    && (view.Thrown? || buffer == Scan(text).rest)
  }

  lemma {:induction false} RestHasNo(s: string, c: char)
    requires HasNo(s, c)
    ensures HasNo(Scan(s).rest, c)
    decreases |s|
  {
    var i := Boundary(s, 0);
    if i < |s| { RestHasNo(s[i + 2..], c); }
  }

  lemma {:induction false} NothingAfterThrown(codec: Codec, blocks: seq<string>)
    ensures ProcessAll(codec, Thrown, blocks) == Thrown
    decreases |blocks|
  {
    if blocks != [] { NothingAfterThrown(codec, blocks[..|blocks| - 1]); }
  }

  lemma OneMoreFragment(codec: Codec, fragments: seq<string>, i: nat, view: View, buffer: string)
    requires i < |fragments| && HasNo(Concat(fragments), '\r')
    requires ReadSoFar(codec, Concat(fragments[..i]), view, buffer)
    ensures var s := Scan(ReplaceLineEnds(buffer + fragments[i]));
            ReadSoFar(codec, Concat(fragments[..i + 1]), ProcessAll(codec, view, s.blocks), s.rest)
  {
    hide Concat, Process, ProcessAll, Scan, ReplaceLineEnds, HasNo;
    var text, f := Concat(fragments[..i]), fragments[i];
    assert fragments[..i + 1] == fragments[..i] + [f] && fragments == fragments[..i + 1] + fragments[i + 1..];
    ConcatOne(fragments[..i], f);
    ConcatSplits(fragments[..i + 1], fragments[i + 1..]);
    PrefixHasNo(text + f, Concat(fragments[i + 1..]), '\r');
    FragmentRead(codec, text, f, view, buffer);
    assert Concat(fragments[..i + 1]) == text + f;
    assert ReadSoFar(codec, text + f, ProcessAll(codec, view, Scan(ReplaceLineEnds(buffer + f)).blocks),
                     Scan(ReplaceLineEnds(buffer + f)).rest);
  }

  lemma PrefixHasNo(a: string, b: string, c: char)
    requires HasNo(a + b, c)
    ensures HasNo(a, c) && HasNo(b, c)
  {
    forall k | 0 <= k < |a| ensures a[k] != c { assert (a + b)[k] == a[k]; }
    forall k | 0 <= k < |b| ensures b[k] != c { assert (a + b)[|a| + k] == b[k]; }
  }

  lemma FragmentRead(codec: Codec, text: string, f: string, view: View, buffer: string)
    requires HasNo(text + f, '\r') && ReadSoFar(codec, text, view, buffer)
    ensures var s := Scan(ReplaceLineEnds(buffer + f));
            var now := ProcessAll(codec, view, s.blocks);
            && now == ProcessAll(codec, Blank, Scan(text + f).blocks)
            && (now.Thrown? || s.rest == Scan(text + f).rest)
  {
    ScanInPieces(text, f);
    var more := Scan(Scan(text).rest + f);
    ProcessMore(codec, Blank, Scan(text).blocks, more.blocks);
    hide Process;
    if view.Thrown? {
      NothingAfterThrown(codec, more.blocks);
      NothingAfterThrown(codec, Scan(ReplaceLineEnds(buffer + f)).blocks);
    } else {
      PrefixHasNo(text, f, '\r');
      RestHasNo(text, '\r');
      NothingToReplace(buffer + f);
    }
  }

  // ---- end to end ----

  lemma BlockShows(codec: Codec, view: View, m: Message)
    requires Faithful(codec)
    ensures Printable(EventOf(codec, m))
    ensures Process(codec, view, Block(EventOf(codec, m))) == Show(view, m)
  {
    assert codec.parse(codec.dump(PayloadOf(m))) == Some(PayloadOf(m));
    MessageReadsBack(m);
    BlockReadsBack(EventOf(codec, m));
    hide ReadBlock, Block;
  }

  lemma {:induction false} BlocksFold(codec: Codec, messages: seq<Message>, k: nat)
    requires Faithful(codec) && k <= |messages|
    ensures ProcessAll(codec, Blank, Blocks(Events(codec, messages)[..k])) == Fold(Blank, messages[..k])
  {
    hide Process, Faithful, Block, EventOf, Show;
    if k > 0 {
      var events, m := Events(codec, messages), messages[k - 1];
      BlocksFold(codec, messages, k - 1);
      BlockShows(codec, Fold(Blank, messages[..k - 1]), m);
      assert Blocks(events[..k]) == Blocks(events[..k - 1]) + [Block(events[k - 1])];
      assert messages[..k] == messages[..k - 1] + [m];
      FoldOne(Blank, messages[..k - 1], m);
      ProcessMore(codec, Blank, Blocks(events[..k - 1]), [Block(events[k - 1])]);
      OneBlock(codec, Fold(Blank, messages[..k - 1]), Block(events[k - 1]));
      hide ProcessAll, Fold;
    } else {
      assert Blocks(Events(codec, messages)[..0]) == [];
      assert messages[..0] == [];
    }
  }

  lemma OneBlock(codec: Codec, view: View, block: string)
    ensures ProcessAll(codec, view, [block]) == Process(codec, view, block)
  {
    var none: seq<string> := [block][..0];
    assert ProcessAll(codec, view, none) == view;
  }

  /** A part of one more frame shows its whole message, nothing, or throws. */
  lemma TailShows(codec: Codec, view: View, m: Message, tail: string)
    requires Faithful(codec) && PartOf(ReadBlock(tail), EventOf(codec, m))
    ensures Process(codec, view, tail) in {Thrown, view, Show(view, m)}
  {
    var data := codec.dump(PayloadOf(m));
    assert codec.parse(data) == Some(PayloadOf(m));
    MessageReadsBack(m);
    if ReadBlock(tail).Some? {
      var n: nat :| n <= |data| && ReadBlock(tail) == Some(Event(NameOf(m), data[..n]));
      if n == |data| { assert data[..n] == data; }
    }
    hide ReadBlock;
  }

  /** Whatever part of the stream arrives, in whatever fragments: the page shows the fold of a prefix of the
      messages, or the reader has thrown. */
  lemma PageShowsAPrefix(codec: Codec, messages: seq<Message>, text: string) returns (k: nat)
    requires Faithful(codec) && text <= Stream(Events(codec, messages))
    ensures k <= |messages|
    ensures Final(codec, text) == Thrown || Final(codec, text) == Fold(Blank, messages[..k])
    ensures text == Stream(Events(codec, messages)) ==> Final(codec, text) == Fold(Blank, messages)
  {
    hide Scan, Stream, Faithful, Fold, ProcessAll, Process, ReadBlock, EventOf, PartOf, Final;
    var tail;
    k, tail := WholeMessages(codec, messages, text);
    var view := Fold(Blank, messages[..k]);
    assert messages[..|messages|] == messages;
    if k < |messages| {
      TailShows(codec, view, messages[k], tail);
      assert messages[..k + 1] == messages[..k] + [messages[k]];
      FoldOne(Blank, messages[..k], messages[k]);
      if Final(codec, text) == Show(view, messages[k]) { k := k + 1; }
    } else {
      EmptyTail(codec, view);
    }
  }

  lemma WholeMessages(codec: Codec, messages: seq<Message>, text: string) returns (k: nat, tail: string)
    requires Faithful(codec) && text <= Stream(Events(codec, messages))
    ensures k <= |messages| && Final(codec, text) == Process(codec, Fold(Blank, messages[..k]), tail)
    ensures k < |messages| ==> PartOf(ReadBlock(tail), EventOf(codec, messages[k]))
    ensures k == |messages| ==> tail == ""
    ensures text == Stream(Events(codec, messages)) ==> k == |messages|
  {
    EventsArePrintable(codec, messages);
    k, tail := PartOfStreamScans(Events(codec, messages), text);
    BlocksFold(codec, messages, k);
    hide Scan, Stream, Faithful, Fold, ProcessAll, Process, ReadBlock, EventOf, PartOf, Blocks;
  }

  lemma EmptyTail(codec: Codec, view: View)
    ensures Process(codec, view, "") == view
  {}

  /** When the reader returns, the exchange was stored, and the page shows the stored answer and sources. */
  lemma BrowserShowsWhatIsStored(codec: Codec, messages: seq<Message>, stored: Option<Generated>, text: string)
    requires Faithful(codec) && Served(messages, stored) && text <= Stream(Events(codec, messages))
    ensures Outcome(codec, text).Some? ==>
              && stored.Some?
              && Outcome(codec, text).value.answer == stored.value.answer
              && Outcome(codec, text).value.sources == stored.value.sources
  {
    var k := PageShowsAPrefix(codec, messages, text);
    hide Final, Stream, Events, Faithful;
    if k < |messages| {
      NotDoneYet(messages, k);
    } else {
      assert messages[..k] == messages;
      FailureIsThrown(messages, stored);
    }
    hide Fold;
  }

  /** A stream that arrives whole makes the reader return exactly when it ends with "done". */
  lemma WholeStreamReturnsExactlyWhenDone(codec: Codec, messages: seq<Message>, stored: Option<Generated>)
    requires Faithful(codec) && Served(messages, stored)
    ensures Outcome(codec, Stream(Events(codec, messages))).Some? <==> messages[|messages| - 1].Done?
  {
    var k := PageShowsAPrefix(codec, messages, Stream(Events(codec, messages)));
    hide Final, Stream, Events, Faithful;
    FailureIsThrown(messages, stored);
    hide Fold;
  }

  lemma FailureIsThrown(messages: seq<Message>, stored: Option<Generated>)
    requires Served(messages, stored)
    ensures messages[|messages| - 1].Error? ==> Fold(Blank, messages) == Thrown
  {
    var last := |messages| - 1;
    FoldOne(Blank, messages[..last], messages[last]);
    assert messages[..last] + [messages[last]] == messages;
    hide Fold;
  }

  lemma {:induction false} NotDoneYet(messages: seq<Message>, k: nat)
    requires k <= |messages| && forall i :: 0 <= i < k ==> !messages[i].Done?
    ensures Fold(Blank, messages[..k]).Showing? ==> !Fold(Blank, messages[..k]).page.completed
  {
    if k > 0 {
      NotDoneYet(messages, k - 1);
      assert messages[..k] == messages[..k - 1] + [messages[k - 1]];
      FoldOne(Blank, messages[..k - 1], messages[k - 1]);
      hide Fold;
    } else {
      assert messages[..0] == [];
    }
  }

  /** No part of a printed stream holds a carriage return, so the reader's line-end replacement changes nothing. */
  lemma PrintedTextHasNoCarriageReturn(codec: Codec, messages: seq<Message>, text: string)
    requires Faithful(codec) && text <= Stream(Events(codec, messages))
    ensures HasNo(text, '\r')
  {
    EventsArePrintable(codec, messages);
    StreamHasNoCarriageReturn(Events(codec, messages));
    hide Stream, Events, Faithful, HasNo;
    PrefixHasNo(text, Stream(Events(codec, messages))[|text|..], '\r');
    assert text + Stream(Events(codec, messages))[|text|..] == Stream(Events(codec, messages));
  }

  /** A stream that ends with "done" and arrives whole makes the reader return what was stored. */
  lemma WholeStreamReturnsWhatIsStored(codec: Codec, messages: seq<Message>, stored: Option<Generated>)
    requires Faithful(codec) && Served(messages, stored) && messages[|messages| - 1].Done?
    ensures stored.Some?
    ensures Outcome(codec, Stream(Events(codec, messages)))
            == Some(Page(stored.value.answer, stored.value.sources, Some(messages[|messages| - 1].info), true))
  {
    var k := PageShowsAPrefix(codec, messages, Stream(Events(codec, messages)));
    hide Final, Stream, Events, Faithful, Fold;
  }

  /**
   One question over a connection that holds: whatever pieces the network cuts the stream into, the page shows the
   stored answer with its sources if the session is there, an answer is generated, stored and read back; in every
   other case the reader throws.
   */
  method AskQuestion(exchange: Exchange, rules: Rules, input: Input, w: Weather, created: bool, codec: Codec,
                     network: string -> seq<string>)
      returns (page: Option<Page>)
    requires Faithful(codec) && forall text :: Concat(network(text)) == text
    requires exchange.stored == None && (created && exchange.session.Some? ==> exchange.session == Some(0))
    modifies exchange
    ensures page.Some? <==> old(exchange.session).Some? && FinalAnswer(rules, input).Some? && w.stores && w.rereads
    ensures page.Some? ==> exchange.stored == FinalAnswer(rules, input)
                           && page == Some(Page(exchange.stored.value.answer, exchange.stored.value.sources, Some(w.after), true))
  {
    ghost var opens := exchange.session.Some?;
    hide Served, Stream, Outcome, FinalAnswer, AnswerLength, Concat, Faithful, MessageAt;
    var messages, closed := exchange.ChatEventStream(rules, input, w, created, None);
    var text := Stream(Events(codec, messages));
    page := StreamQuestion(codec, network(text));
    PrintedTextHasNoCarriageReturn(codec, messages, text);
    WholeStreamReturnsExactlyWhenDone(codec, messages, exchange.stored);
    if Succeeds(rules, input, w, opens) {
      WholeStreamReturnsWhatIsStored(codec, messages, exchange.stored);
      assert messages[|messages| - 1] == Done(w.after);
    }
  }
}
