/** Turning generated tokens into labelled text and tool calls (src/chat-model-parser.ts). */
module OutputParser {
  import opened Wrappers
  import opened IncrementalText

  datatype State = Reasoning | Content | Tool

  datatype ControlTokens = ControlTokens(thinkStart: int, thinkEnd: int, toolCallStart: int, toolCallEnd: int)

  datatype Call = Call(name: Text, arguments: Text)

  datatype Event =
    | ReasoningDelta(text: Text)
    | ContentDelta(text: Text)
    | ToolCall(index: nat, call: Call)
    | ParseError(unfinished: bool, raw: Text)

  /** The model's own tool-call syntax; None where parsing throws. */
  type Parse = Text -> Option<Call>

  // ---------------------------------------------------------------------
  // What a token stream means

  /** A code unit under its label, or a finished or failed tool call. */
  datatype Item = Reasoned(unit: int) | Said(unit: int) | Called(index: nat, call: Call) | Failed(unfinished: bool, raw: Text)

  function Label(state: State, text: Text): (r: seq<Item>)
    ensures |r| == |text|
    ensures forall i :: 0 <= i < |r| ==> r[i] == if state == Reasoning then Reasoned(text[i]) else Said(text[i])
  {
    seq(|text|, i requires 0 <= i < |text| => if state == Reasoning then Reasoned(text[i]) else Said(text[i]))
  }

  function ItemsOf(e: Event): seq<Item> {
    match e
    case ReasoningDelta(text) => Label(Reasoning, text)
    case ContentDelta(text) => Label(Content, text)
    case ToolCall(index, call) => [Called(index, call)]
    case ParseError(unfinished, raw) => [Failed(unfinished, raw)]
  }

  function FirstItems(events: seq<Event>, n: nat): seq<Item>
    requires n <= |events|
  {
    if n == 0 then [] else FirstItems(events, n - 1) + ItemsOf(events[n - 1])
  }

  /** What a list of events says, however the text is cut into deltas. */
  function Items(events: seq<Event>): seq<Item> {
    FirstItems(events, |events|)
  }

  /** The segment being read, the state it is read in, and everything said before. */
  datatype Progress = Progress(state: State, segment: seq<int>, index: nat, done: seq<Item>)

  /** The decoded segment under the state it arrived in. */
  function SegmentItems(decode: Decode, p: Progress): seq<Item> {
    if p.segment == [] then [] else Label(p.state, decode(p.segment))
  }

  /** A control token ends the segment; its text is the decoding of the whole segment. */
  function Feed(decode: Decode, parse: Parse, control: Option<ControlTokens>, p: Progress, t: int): Progress {
    match control
    case None => p.(segment := p.segment + [t])
    case Some(c) =>
      if p.state == Tool then
        if t != c.toolCallEnd then p.(segment := p.segment + [t])
        else
          var raw := decode(p.segment);
          match parse(raw)
          case Some(call) => Progress(Content, [], p.index + 1, p.done + [Called(p.index, call)])
          case None => Progress(Content, [], p.index, p.done + [Failed(false, raw)])
      else if t == c.thinkStart then Progress(Reasoning, [], p.index, p.done + SegmentItems(decode, p))
      else if t == c.thinkEnd then Progress(Content, [], p.index, p.done + SegmentItems(decode, p))
      else if t == c.toolCallStart then Progress(Tool, [], p.index, p.done + SegmentItems(decode, p))
      else p.(segment := p.segment + [t])
  }

  function FeedAll(decode: Decode, parse: Parse, control: Option<ControlTokens>, p: Progress, tokens: seq<int>, n: nat): Progress
    requires n <= |tokens|
  {
    if n == 0 then p else Feed(decode, parse, control, FeedAll(decode, parse, control, p, tokens, n - 1), tokens[n - 1])
  }

  /** All that is said when generation ends here. */
  function Finished(decode: Decode, p: Progress): seq<Item> {
    p.done + if p.state == Tool then [Failed(true, decode(p.segment))] else SegmentItems(decode, p)
  }

  lemma {:induction false} ItemsOfPrefix(events: seq<Event>, e: Event, n: nat)
    requires n <= |events|
    ensures FirstItems(events + [e], n) == FirstItems(events, n)
  {
    if n > 0 { ItemsOfPrefix(events, e, n - 1); }
  }

  lemma ItemsSnoc(events: seq<Event>, e: Event)
    ensures Items(events + [e]) == Items(events) + ItemsOf(e)
  {
    ItemsOfPrefix(events, e, |events|);
  }

  lemma LabelConcat(state: State, a: Text, b: Text)
    ensures Label(state, a + b) == Label(state, a) + Label(state, b)
  {
  }

  /** The events so far say what is done and what of the segment is safe. */
  ghost predicate Account(decode: Decode, log: seq<Event>, p: Progress) {
    Items(log) == if p.state == Tool then p.done else p.done + Label(p.state, Safe(decode, p.segment))
  }

  /** The one event of a text, or none for the empty text. */
  ghost predicate TextEvents(events: seq<Event>, state: State, text: Text) {
    if text == [] then events == [] else |events| == 1 && ItemsOf(events[0]) == Label(state, text)
  }

  lemma OneMore(log: seq<Event>, events: seq<Event>, state: State, text: Text)
    requires TextEvents(events, state, text)
    ensures Items(log + events) == Items(log) + Label(state, text)
  {
    if text == [] {
      assert log + events == log && Label(state, text) == [];
      assert Items(log) + [] == Items(log);
    } else {
      assert events == [events[0]];
      ItemsSnoc(log, events[0]);
    }
  }

  lemma AccountPush(decode: Decode, log: seq<Event>, p: Progress, t: int, text: Text, events: seq<Event>)
    requires Account(decode, log, p) && p.state != Tool && TextEvents(events, p.state, text)
    requires Safe(decode, p.segment) + text == Safe(decode, p.segment + [t])
    ensures Account(decode, log + events, p.(segment := p.segment + [t]))
  {
    OneMore(log, events, p.state, text);
    LabelConcat(p.state, Safe(decode, p.segment), text);
    Associate(p.done, Label(p.state, Safe(decode, p.segment)), Label(p.state, text));
  }

  lemma AccountFlush(decode: Decode, log: seq<Event>, p: Progress, text: Text, events: seq<Event>)
    requires Account(decode, log, p) && p.state != Tool && TextEvents(events, p.state, text)
    requires p.segment == [] ==> text == []
    requires p.segment != [] ==> Safe(decode, p.segment) + text == decode(p.segment)
    ensures Items(log + events) == p.done + SegmentItems(decode, p)
  {
    if p.segment == [] {
      SegmentDone(decode, log, p);
      assert log + events == log && p.done + [] == p.done;
    } else {
      OneMore(log, events, p.state, text);
      LabelConcat(p.state, Safe(decode, p.segment), text);
      Associate(p.done, Label(p.state, Safe(decode, p.segment)), Label(p.state, text));
    }
  }

  lemma Associate(a: seq<Item>, b: seq<Item>, c: seq<Item>)
    ensures (a + b) + c == a + (b + c)
  {
  }

  lemma AccountEmpty(decode: Decode, log: seq<Event>, p: Progress)
    requires Items(log) == p.done && p.segment == []
    ensures Account(decode, log, p)
  {
    assert Label(p.state, Safe(decode, [])) == [];
    assert p.done + [] == p.done;
  }

  lemma SegmentDone(decode: Decode, log: seq<Event>, p: Progress)
    requires Account(decode, log, p) && p.segment == []
    ensures Items(log) == p.done
  {
    assert Label(p.state, Safe(decode, [])) == [];
    assert p.done + [] == p.done;
  }

  lemma ToolEnds(decode: Decode, parse: Parse, control: Option<ControlTokens>, log: seq<Event>, p: Progress, e: Event)
    requires Account(decode, log, p) && p.state == Tool && control.Some?
    requires var raw := decode(p.segment);
             ItemsOf(e) == match parse(raw) case Some(call) => [Called(p.index, call)] case None => [Failed(false, raw)]
    ensures Account(decode, log + [e], Feed(decode, parse, control, p, control.value.toolCallEnd))
  {
    ItemsSnoc(log, e);
    AccountEmpty(decode, log + [e], Feed(decode, parse, control, p, control.value.toolCallEnd));
  }

  // ---------------------------------------------------------------------
  // Segments

  predicate IsControl(control: Option<ControlTokens>, state: State, t: int) {
    control.Some? && var c := control.value;
    if state == Tool then t == c.toolCallEnd else t == c.thinkStart || t == c.thinkEnd || t == c.toolCallStart
  }

  /** Tokens between control tokens only lengthen the segment, so a text segment says
      the decoding of exactly these tokens under one label. */
  lemma {:induction false} SegmentIsDecoded(decode: Decode, parse: Parse, control: Option<ControlTokens>, p: Progress, tokens: seq<int>, n: nat)
    requires n <= |tokens| && forall i :: 0 <= i < n ==> !IsControl(control, p.state, tokens[i])
    ensures FeedAll(decode, parse, control, p, tokens, n) == p.(segment := p.segment + tokens[..n])
    ensures p.state != Tool && p.segment + tokens[..n] != [] ==>
              Finished(decode, FeedAll(decode, parse, control, p, tokens, n))
              == p.done + Label(p.state, decode(p.segment + tokens[..n]))
  {
    if n > 0 {
      SegmentIsDecoded(decode, parse, control, p, tokens, n - 1);
      assert p.segment + tokens[..n - 1] + [tokens[n - 1]] == p.segment + tokens[..n];
    } else {
      assert p.segment + tokens[..0] == p.segment;
    }
  }

  // ---------------------------------------------------------------------
  // Documents

  /** What a control token opens, with the tokens behind it: reasoning, an answer, or a tool
      call and the answer behind it. */
  datatype Part = Think(text: seq<int>) | Speak(text: seq<int>) | Use(raw: seq<int>, text: seq<int>)

  /** A whole response: text, parts, and perhaps a tool call that is never closed. */
  datatype Document = Document(head: seq<int>, parts: seq<Part>, open: Option<seq<int>>)

  function PartTokens(c: ControlTokens, part: Part): seq<int> {
    match part
    case Think(text) => [c.thinkStart] + text
    case Speak(text) => [c.thinkEnd] + text
    case Use(raw, text) => [c.toolCallStart] + raw + [c.toolCallEnd] + text
  }

  function PartsTokens(c: ControlTokens, parts: seq<Part>, n: nat): seq<int>
    requires n <= |parts|
  {
    if n == 0 then [] else PartsTokens(c, parts, n - 1) + PartTokens(c, parts[n - 1])
  }

  function OpenTokens(c: ControlTokens, open: Option<seq<int>>): seq<int> {
    if open.Some? then [c.toolCallStart] + open.value else []
  }

  function Tokens(c: ControlTokens, d: Document): seq<int> {
    d.head + PartsTokens(c, d.parts, |d.parts|) + OpenTokens(c, d.open)
  }

  /** Text: no token that opens anything. */
  predicate Plain(c: ControlTokens, xs: seq<int>) {
    forall i {:trigger xs[i]} :: 0 <= i < |xs| ==> xs[i] != c.thinkStart && xs[i] != c.thinkEnd && xs[i] != c.toolCallStart
  }

  /** The inside of a tool call: anything but its end. */
  predicate Inside(c: ControlTokens, raw: seq<int>) {
    forall i {:trigger raw[i]} :: 0 <= i < |raw| ==> raw[i] != c.toolCallEnd
  }

  /** The token that opens a tool call is not taken for another. */
  predicate OpensTools(c: ControlTokens) { c.toolCallStart != c.thinkStart && c.toolCallStart != c.thinkEnd }

  predicate Marked(c: ControlTokens, part: Part) {
    match part
    case Think(text) => Plain(c, text)
    case Speak(text) => c.thinkEnd != c.thinkStart && Plain(c, text)
    case Use(raw, text) => OpensTools(c) && Inside(c, raw) && Plain(c, text)
  }

  ghost predicate Readable(c: ControlTokens, d: Document) {
    && Plain(c, d.head)
    && (forall i {:trigger d.parts[i]} :: 0 <= i < |d.parts| ==> Marked(c, d.parts[i]))
    && (d.open.Some? ==> OpensTools(c) && Inside(c, d.open.value))
  }

  /** Tokens decoded together, under one label. */
  function Spoken(decode: Decode, state: State, text: seq<int>): seq<Item> {
    if text == [] then [] else Label(state, decode(text))
  }

  function CallItem(decode: Decode, parse: Parse, index: nat, raw: seq<int>): Item {
    match parse(decode(raw))
    case Some(call) => Called(index, call)
    case None => Failed(false, decode(raw))
  }

  /** Calls in one part that parse. */
  function CallsOf(decode: Decode, parse: Parse, part: Part): nat {
    if part.Use? && parse(decode(part.raw)).Some? then 1 else 0
  }

  /** Calls in the first n parts that parse. */
  function CallsIn(decode: Decode, parse: Parse, parts: seq<Part>, n: nat): nat
    requires n <= |parts|
  {
    if n == 0 then 0
    else CallsIn(decode, parse, parts, n - 1) + CallsOf(decode, parse, parts[n - 1])
  }

  function PartSays(decode: Decode, parse: Parse, index: nat, part: Part): seq<Item> {
    match part
    case Think(text) => Spoken(decode, Reasoning, text)
    case Speak(text) => Spoken(decode, Content, text)
    case Use(raw, text) => [CallItem(decode, parse, index, raw)] + Spoken(decode, Content, text)
  }

  /** Calls are numbered from `index` on; those that do not parse take no number. */
  function PartsSay(decode: Decode, parse: Parse, index: nat, parts: seq<Part>, n: nat): seq<Item>
    requires n <= |parts|
  {
    if n == 0 then []
    else PartsSay(decode, parse, index, parts, n - 1)
         + PartSays(decode, parse, index + CallsIn(decode, parse, parts, n - 1), parts[n - 1])
  }

  function OpenSays(decode: Decode, open: Option<seq<int>>): seq<Item> {
    if open.Some? then [Failed(true, decode(open.value))] else []
  }

  /** What a document says when its head is read in `state`. */
  function Says(decode: Decode, parse: Parse, state: State, index: nat, d: Document): seq<Item> {
    Spoken(decode, state, d.head) + PartsSay(decode, parse, index, d.parts, |d.parts|) + OpenSays(decode, d.open)
  }

  lemma {:induction false} FeedConcat(decode: Decode, parse: Parse, control: Option<ControlTokens>, p: Progress, a: seq<int>, b: seq<int>, n: nat,
                                      all: seq<int>, m: nat)
    requires n <= |b| && all == a + b && m == |a| + n
    ensures FeedAll(decode, parse, control, p, all, m)
         == FeedAll(decode, parse, control, FeedAll(decode, parse, control, p, a, |a|), b, n)
  {
    if n > 0 {
      FeedConcat(decode, parse, control, p, a, b, n - 1, all, m - 1);
      assert all[m - 1] == b[n - 1];
    } else {
      FeedPrefix(decode, parse, control, p, a, |a|, all);
    }
  }

  lemma {:induction false} FeedPrefix(decode: Decode, parse: Parse, control: Option<ControlTokens>, p: Progress, a: seq<int>, n: nat, all: seq<int>)
    requires n <= |a| && a <= all
    ensures FeedAll(decode, parse, control, p, all, n) == FeedAll(decode, parse, control, p, a, n)
  {
    if n > 0 { FeedPrefix(decode, parse, control, p, a, n - 1, all); }
  }

  /** One token that opens a segment, and what follows it. */
  lemma FeedOpened(decode: Decode, parse: Parse, control: Option<ControlTokens>, p: Progress, t: int, xs: seq<int>)
    requires Feed(decode, parse, control, p, t).segment == []
    requires forall i :: 0 <= i < |xs| ==> !IsControl(control, Feed(decode, parse, control, p, t).state, xs[i])
    ensures FeedAll(decode, parse, control, p, [t] + xs, |[t] + xs|) == Feed(decode, parse, control, p, t).(segment := xs)
  {
    var q := Feed(decode, parse, control, p, t);
    FeedConcat(decode, parse, control, p, [t], xs, |xs|, [t] + xs, 1 + |xs|);
    assert FeedAll(decode, parse, control, p, [t], 1) == Feed(decode, parse, control, FeedAll(decode, parse, control, p, [t], 0), t);
    SegmentIsDecoded(decode, parse, control, q, xs, |xs|);
    assert [] + xs[..|xs|] == xs;
  }

  /** Everything said once the open segment is closed. */
  function Closed(decode: Decode, p: Progress): seq<Item> { p.done + SegmentItems(decode, p) }

  /** Reading these tokens ends in a text state, after so many calls, with all this said. */
  ghost predicate ReadTo(decode: Decode, parse: Parse, c: ControlTokens, p: Progress, tokens: seq<int>, index: nat, said: seq<Item>) {
    var q := FeedAll(decode, parse, Some(c), p, tokens, |tokens|);
    q.state != Tool && q.index == index && Closed(decode, q) == said
  }

  lemma ReadMore(decode: Decode, parse: Parse, c: ControlTokens, p: Progress, a: seq<int>, b: seq<int>, all: seq<int>, index: nat, said: seq<Item>)
    requires ReadTo(decode, parse, c, FeedAll(decode, parse, Some(c), p, a, |a|), b, index, said) && all == a + b
    ensures ReadTo(decode, parse, c, p, all, index, said)
  {
    FeedConcat(decode, parse, Some(c), p, a, b, |b|, all, |all|);
  }

  lemma TextOpened(decode: Decode, parse: Parse, c: ControlTokens, p: Progress, t: int, next: State, index: nat, done: seq<Item>, text: seq<int>)
    requires Feed(decode, parse, Some(c), p, t) == Progress(next, [], index, done) && next != Tool && Plain(c, text)
    ensures ReadTo(decode, parse, c, p, [t] + text, index, done + Spoken(decode, next, text))
  {
    FeedOpened(decode, parse, Some(c), p, t, text);
  }

  lemma CallClosed(decode: Decode, parse: Parse, c: ControlTokens, p: Progress, raw: seq<int>, text: seq<int>)
    requires p.state == Tool && p.segment == raw && Plain(c, text)
    ensures ReadTo(decode, parse, c, p, [c.toolCallEnd] + text, p.index + (if parse(decode(raw)).Some? then 1 else 0),
                   p.done + [CallItem(decode, parse, p.index, raw)] + Spoken(decode, Content, text))
  {
    TextOpened(decode, parse, c, p, c.toolCallEnd, Content, p.index + (if parse(decode(raw)).Some? then 1 else 0),
               p.done + [CallItem(decode, parse, p.index, raw)], text);
  }

  lemma PartFed(decode: Decode, parse: Parse, c: ControlTokens, p: Progress, part: Part)
    requires p.state != Tool && Marked(c, part)
    ensures ReadTo(decode, parse, c, p, PartTokens(c, part), p.index + CallsOf(decode, parse, part),
                   Closed(decode, p) + PartSays(decode, parse, p.index, part))
  {
    match part
    case Think(text) => TextOpened(decode, parse, c, p, c.thinkStart, Reasoning, p.index, Closed(decode, p), text);
    case Speak(text) => TextOpened(decode, parse, c, p, c.thinkEnd, Content, p.index, Closed(decode, p), text);
    case Use(raw, text) => CallFed(decode, parse, c, p, raw, text);
  }

  lemma CallFed(decode: Decode, parse: Parse, c: ControlTokens, p: Progress, raw: seq<int>, text: seq<int>)
    requires p.state != Tool && Marked(c, Use(raw, text))
    ensures ReadTo(decode, parse, c, p, PartTokens(c, Use(raw, text)), p.index + CallsOf(decode, parse, Use(raw, text)),
                   Closed(decode, p) + PartSays(decode, parse, p.index, Use(raw, text)))
  {
    var opening, closing := [c.toolCallStart] + raw, [c.toolCallEnd] + text;
    FeedOpened(decode, parse, Some(c), p, c.toolCallStart, raw);
    var q := Progress(Tool, raw, p.index, Closed(decode, p));
    CallClosed(decode, parse, c, q, raw, text);
    Associate(Closed(decode, p), [CallItem(decode, parse, p.index, raw)], Spoken(decode, Content, text));
    assert opening + closing == PartTokens(c, Use(raw, text));
    ReadMore(decode, parse, c, p, opening, closing, PartTokens(c, Use(raw, text)), p.index + CallsOf(decode, parse, Use(raw, text)),
             Closed(decode, p) + PartSays(decode, parse, p.index, Use(raw, text)));
  }

  lemma PartFedNext(decode: Decode, parse: Parse, c: ControlTokens, p: Progress, before: seq<int>, index: nat, said: seq<Item>, part: Part,
                    tokens: seq<int>, index': nat, said': seq<Item>)
    requires ReadTo(decode, parse, c, p, before, index, said) && Marked(c, part)
    requires tokens == before + PartTokens(c, part) && index' == index + CallsOf(decode, parse, part)
    requires said' == said + PartSays(decode, parse, index, part)
    ensures ReadTo(decode, parse, c, p, tokens, index', said')
  {
    PartFed(decode, parse, c, FeedAll(decode, parse, Some(c), p, before, |before|), part);
    ReadMore(decode, parse, c, p, before, PartTokens(c, part), tokens, index', said');
  }

  /** The first n parts, in variables of their own. */
  ghost predicate FirstParts(decode: Decode, parse: Parse, c: ControlTokens, p: Progress, parts: seq<Part>, n: nat,
                             tokens: seq<int>, index: nat, said: seq<Item>)
    requires n <= |parts|
  {
    && tokens == PartsTokens(c, parts, n) && index == p.index + CallsIn(decode, parse, parts, n)
    && said == Closed(decode, p) + PartsSay(decode, parse, p.index, parts, n)
  }

  lemma PartsSplit(decode: Decode, parse: Parse, c: ControlTokens, p: Progress, parts: seq<Part>, n: nat)
      returns (before: seq<int>, index: nat, said: seq<Item>)
    requires 0 < n <= |parts|
    ensures FirstParts(decode, parse, c, p, parts, n - 1, before, index, said)
    ensures FirstParts(decode, parse, c, p, parts, n, before + PartTokens(c, parts[n - 1]), index + CallsOf(decode, parse, parts[n - 1]),
                       said + PartSays(decode, parse, index, parts[n - 1]))
  {
    before, index := PartsTokens(c, parts, n - 1), p.index + CallsIn(decode, parse, parts, n - 1);
    said := Closed(decode, p) + PartsSay(decode, parse, p.index, parts, n - 1);
    Associate(Closed(decode, p), PartsSay(decode, parse, p.index, parts, n - 1), PartSays(decode, parse, index, parts[n - 1]));
  }

  lemma NoParts(decode: Decode, parse: Parse, c: ControlTokens, p: Progress, parts: seq<Part>, tokens: seq<int>, index: nat, said: seq<Item>)
    requires p.state != Tool && FirstParts(decode, parse, c, p, parts, 0, tokens, index, said)
    ensures ReadTo(decode, parse, c, p, tokens, index, said)
  {
    assert Closed(decode, p) + [] == Closed(decode, p);
  }

  lemma {:induction false} PartsFed(decode: Decode, parse: Parse, c: ControlTokens, p: Progress, parts: seq<Part>, n: nat,
                                    tokens: seq<int>, index: nat, said: seq<Item>)
    requires p.state != Tool && n <= |parts| && forall i {:trigger parts[i]} :: 0 <= i < n ==> Marked(c, parts[i])
    requires FirstParts(decode, parse, c, p, parts, n, tokens, index, said)
    ensures ReadTo(decode, parse, c, p, tokens, index, said)
  {
    if n > 0 {
      var before, calls, sofar := PartsSplit(decode, parse, c, p, parts, n);
      PartsFed(decode, parse, c, p, parts, n - 1, before, calls, sofar);
      PartFedNext(decode, parse, c, p, before, calls, sofar, parts[n - 1], tokens, index, said);
    } else {
      NoParts(decode, parse, c, p, parts, tokens, index, said);
    }
  }

  /** Reading a document from a text state with nothing open says what the document says:
      text under the label of the last control token in front of it, calls in order. */
  lemma DocumentIsRead(decode: Decode, parse: Parse, c: ControlTokens, p: Progress, d: Document, tokens: seq<int>,
                       all: seq<Item>)
    requires p.state != Tool && p.segment == [] && Readable(c, d) && tokens == Tokens(c, d)
    requires all == p.done + Says(decode, parse, p.state, p.index, d)
    ensures Finished(decode, FeedAll(decode, parse, Some(c), p, tokens, |tokens|)) == all
  {
    var parts, said := PartsTokens(c, d.parts, |d.parts|), PartsSay(decode, parse, p.index, d.parts, |d.parts|);
    var index, before := p.index + CallsIn(decode, parse, d.parts, |d.parts|), p.done + (Spoken(decode, p.state, d.head) + said);
    var headed := HeadIsRead(decode, parse, c, p, d.head);
    Associate(p.done, Spoken(decode, p.state, d.head), said);
    PartsFed(decode, parse, c, headed, d.parts, |d.parts|, parts, index, before);
    ReadMore(decode, parse, c, p, d.head, parts, d.head + parts, index, before);
    Associate(p.done, Spoken(decode, p.state, d.head) + said, OpenSays(decode, d.open));
    OpenIsRead(decode, parse, c, p, d.head + parts, index, before, d.open, tokens, all);
  }

  lemma HeadIsRead(decode: Decode, parse: Parse, c: ControlTokens, p: Progress, head: seq<int>) returns (q: Progress)
    requires p.state != Tool && p.segment == [] && Plain(c, head)
    ensures q == FeedAll(decode, parse, Some(c), p, head, |head|) == p.(segment := head)
    ensures Closed(decode, q) == p.done + Spoken(decode, p.state, head)
  {
    q := FeedAll(decode, parse, Some(c), p, head, |head|);
    SegmentIsDecoded(decode, parse, Some(c), p, head, |head|);
    assert [] + head[..|head|] == head;
  }

  lemma OpenIsRead(decode: Decode, parse: Parse, c: ControlTokens, p: Progress, tokens: seq<int>, index: nat, said: seq<Item>, open: Option<seq<int>>,
                   tokens': seq<int>, said': seq<Item>)
    requires ReadTo(decode, parse, c, p, tokens, index, said) && (open.Some? ==> OpensTools(c) && Inside(c, open.value))
    requires tokens' == tokens + OpenTokens(c, open) && said' == said + OpenSays(decode, open)
    ensures Finished(decode, FeedAll(decode, parse, Some(c), p, tokens', |tokens'|)) == said'
  {
    if open.Some? {
      FeedOpened(decode, parse, Some(c), FeedAll(decode, parse, Some(c), p, tokens, |tokens|), c.toolCallStart, open.value);
      FeedConcat(decode, parse, Some(c), p, tokens, OpenTokens(c, open), |OpenTokens(c, open)|, tokens', |tokens'|);
    } else {
      assert tokens' == tokens && said' == said;
    }
  }

  lemma Silence(c: ControlTokens) returns (d: Document)
    ensures Readable(c, d) && Tokens(c, d) == []
  {
    d := Document([], [], None);
    assert PartsTokens(c, [], 0) == [];
  }

  lemma LastToken(tokens: seq<int>)
    requires tokens != []
    ensures tokens == tokens[..|tokens| - 1] + [tokens[|tokens| - 1]]
  {
  }

  /** Every stream is a document. */
  lemma {:induction false} EveryStreamIsADocument(c: ControlTokens, tokens: seq<int>) returns (d: Document)
    ensures Readable(c, d) && Tokens(c, d) == tokens
  {
    if |tokens| == 0 {
      d := Silence(c);
    } else {
      var before := EveryStreamIsADocument(c, tokens[..|tokens| - 1]);
      LastToken(tokens);
      d := OneTokenOn(c, before, tokens[..|tokens| - 1], tokens[|tokens| - 1], tokens);
    }
  }

  lemma OneTokenOn(c: ControlTokens, d: Document, tokens: seq<int>, t: int, all: seq<int>) returns (d': Document)
    requires Readable(c, d) && Tokens(c, d) == tokens && all == tokens + [t]
    ensures Readable(c, d') && Tokens(c, d') == all
  {
    d' := OneToken(c, d, t);
  }

  lemma OneToken(c: ControlTokens, d: Document, t: int) returns (d': Document)
    requires Readable(c, d)
    ensures Readable(c, d') && Tokens(c, d') == Tokens(c, d) + [t]
  {
    if d.open.Some? {
      if t != c.toolCallEnd {
        d' := d.(open := Some(d.open.value + [t]));
      } else {
        d' := OnePart(c, d, Use(d.open.value, []), t);
      }
    } else if t == c.thinkStart {
      d' := OnePart(c, d, Think([]), t);
    } else if t == c.thinkEnd {
      d' := OnePart(c, d, Speak([]), t);
    } else if t == c.toolCallStart {
      d' := d.(open := Some([]));
    } else if d.parts == [] {
      d' := d.(head := d.head + [t]);
    } else {
      d' := MoreText(c, d, t);
    }
  }

  lemma {:induction false} PartsPrefix(c: ControlTokens, parts: seq<Part>, parts': seq<Part>, n: nat)
    requires n <= |parts| && n <= |parts'| && parts[..n] == parts'[..n]
    ensures PartsTokens(c, parts, n) == PartsTokens(c, parts', n)
  {
    if n > 0 {
      assert parts[n - 1] == parts[..n][n - 1] == parts'[..n][n - 1] == parts'[n - 1];
      assert parts[..n - 1] == parts[..n][..n - 1] == parts'[..n][..n - 1] == parts'[..n - 1];
      PartsPrefix(c, parts, parts', n - 1);
    }
  }

  lemma OnePart(c: ControlTokens, d: Document, part: Part, t: int) returns (d': Document)
    requires Readable(c, d) && Marked(c, part) && OpenTokens(c, d.open) + [t] == PartTokens(c, part)
    ensures Readable(c, d') && Tokens(c, d') == Tokens(c, d) + [t]
  {
    d' := Document(d.head, d.parts + [part], None);
    PartsPrefix(c, d.parts, d'.parts, |d.parts|);
    assert d.head + (PartsTokens(c, d.parts, |d.parts|) + PartTokens(c, part)) + []
        == d.head + PartsTokens(c, d.parts, |d.parts|) + OpenTokens(c, d.open) + [t];
  }

  lemma MoreText(c: ControlTokens, d: Document, t: int) returns (d': Document)
    requires Readable(c, d) && d.open.None? && d.parts != [] && Plain(c, [t])
    ensures Readable(c, d') && Tokens(c, d') == Tokens(c, d) + [t]
  {
    var k := |d.parts| - 1;
    var last := d.parts[k];
    var more := last.(text := last.text + [t]);
    d' := d.(parts := d.parts[..k] + [more]);
    MoreMarked(c, last, t);
    PartsPrefix(c, d.parts, d'.parts, k);
    LongerPart(c, last, t);
    LongerTokens(d.head, PartsTokens(c, d.parts, k), PartTokens(c, last), t, Tokens(c, d), Tokens(c, d'));
  }

  lemma MoreMarked(c: ControlTokens, part: Part, t: int)
    requires Marked(c, part) && Plain(c, [t])
    ensures Marked(c, part.(text := part.text + [t]))
  {
    assert t == [t][0];
  }

  lemma LongerTokens(head: seq<int>, parts: seq<int>, part: seq<int>, t: int, before: seq<int>, after: seq<int>)
    requires before == head + (parts + part) + [] && after == head + (parts + (part + [t])) + []
    ensures after == before + [t]
  {
    Regroup(head, parts, part, [t]);
  }

  lemma LongerPart(c: ControlTokens, part: Part, t: int)
    ensures PartTokens(c, part.(text := part.text + [t])) == PartTokens(c, part) + [t]
  {
    match part
    case Think(text) => assert [c.thinkStart] + (text + [t]) == [c.thinkStart] + text + [t];
    case Speak(text) => assert [c.thinkEnd] + (text + [t]) == [c.thinkEnd] + text + [t];
    case Use(raw, text) =>
      var front := [c.toolCallStart] + raw + [c.toolCallEnd];
      assert front + (text + [t]) == front + text + [t];
  }

  lemma Regroup(a: seq<int>, b: seq<int>, x: seq<int>, y: seq<int>)
    ensures a + (b + (x + y)) + [] == a + (b + x) + [] + y
  {
  }

  lemma Alone(items: seq<Item>)
    ensures [] + items == items
  {
  }

  lemma FirstPart(decode: Decode, parse: Parse, c: ControlTokens, index: nat, parts: seq<Part>)
    requires parts != []
    ensures PartsTokens(c, parts, 1) == PartTokens(c, parts[0]) && CallsIn(decode, parse, parts, 1) == CallsOf(decode, parse, parts[0])
    ensures PartsSay(decode, parse, index, parts, 1) == PartSays(decode, parse, index, parts[0])
  {
    assert PartsTokens(c, parts, 0) == [] && PartsSay(decode, parse, index, parts, 0) == [] && CallsIn(decode, parse, parts, 0) == 0;
  }

  /** Reasoning behind the token that starts it, the answer behind the token that ends it. */
  lemma ThoughtThenAnswer(decode: Decode, parse: Parse, c: ControlTokens, state: State, index: nat, xs: seq<int>, ys: seq<int>, tokens: seq<int>)
    requires state != Tool && c.thinkStart != c.thinkEnd && Plain(c, xs) && Plain(c, ys) && xs != [] && ys != []
    requires tokens == [c.thinkStart] + xs + [c.thinkEnd] + ys
    ensures Finished(decode, FeedAll(decode, parse, Some(c), Progress(state, [], index, []), tokens, |tokens|))
         == Label(Reasoning, decode(xs)) + Label(Content, decode(ys))
  {
    var d := ThoughtDocument(decode, parse, c, state, index, xs, ys);
    Alone(Says(decode, parse, state, index, d));
    DocumentIsRead(decode, parse, c, Progress(state, [], index, []), d, tokens, Label(Reasoning, decode(xs)) + Label(Content, decode(ys)));
  }

  lemma ThoughtDocument(decode: Decode, parse: Parse, c: ControlTokens, state: State, index: nat, xs: seq<int>, ys: seq<int>) returns (d: Document)
    requires c.thinkStart != c.thinkEnd && Plain(c, xs) && Plain(c, ys) && xs != [] && ys != []
    ensures Readable(c, d) && Tokens(c, d) == [c.thinkStart] + xs + [c.thinkEnd] + ys
    ensures Says(decode, parse, state, index, d) == Label(Reasoning, decode(xs)) + Label(Content, decode(ys))
  {
    d := Document([], [Think(xs), Speak(ys)], None);
    FirstPart(decode, parse, c, index, d.parts);
    assert [c.thinkStart] + xs + ([c.thinkEnd] + ys) == [c.thinkStart] + xs + [c.thinkEnd] + ys;
  }

  /** A closed tool call is called or failed, and the answer follows. */
  lemma CallThenAnswer(decode: Decode, parse: Parse, c: ControlTokens, state: State, index: nat, xs: seq<int>, ys: seq<int>, tokens: seq<int>)
    requires state != Tool && OpensTools(c) && Inside(c, xs) && Plain(c, ys) && ys != []
    requires tokens == [c.toolCallStart] + xs + [c.toolCallEnd] + ys
    ensures Finished(decode, FeedAll(decode, parse, Some(c), Progress(state, [], index, []), tokens, |tokens|))
         == (match parse(decode(xs)) case Some(call) => [Called(index, call)] case None => [Failed(false, decode(xs))])
            + Label(Content, decode(ys))
  {
    var d := CallDocument(decode, parse, c, state, index, xs, ys);
    Alone(Says(decode, parse, state, index, d));
    DocumentIsRead(decode, parse, c, Progress(state, [], index, []), d, tokens,
                   [CallItem(decode, parse, index, xs)] + Label(Content, decode(ys)));
  }

  lemma CallDocument(decode: Decode, parse: Parse, c: ControlTokens, state: State, index: nat, xs: seq<int>, ys: seq<int>) returns (d: Document)
    requires OpensTools(c) && Inside(c, xs) && Plain(c, ys) && ys != []
    ensures Readable(c, d) && Tokens(c, d) == [c.toolCallStart] + xs + [c.toolCallEnd] + ys
    ensures Says(decode, parse, state, index, d) == [CallItem(decode, parse, index, xs)] + Label(Content, decode(ys))
  {
    d := Document([], [Use(xs, ys)], None);
    FirstPart(decode, parse, c, index, d.parts);
  }

  /** What tokens read from a text state mean: without control tokens all of them are text;
      with them, whatever document they are, it is what that says. */
  ghost predicate Meant(decode: Decode, parse: Parse, control: Option<ControlTokens>, state: State, index: nat, tokens: seq<int>,
                        said: seq<Item>) {
    && (control.None? ==> said == Spoken(decode, state, tokens))
    && (control.Some? ==> forall d {:trigger Tokens(control.value, d)} ::
          Readable(control.value, d) && Tokens(control.value, d) == tokens ==> said == Says(decode, parse, state, index, d))
  }

  lemma AllMeant(decode: Decode, parse: Parse, control: Option<ControlTokens>, start: Progress, tokens: seq<int>)
    requires start.state != Tool && start.segment == [] && start.done == []
    ensures Meant(decode, parse, control, start.state, start.index, tokens,
                  Finished(decode, FeedAll(decode, parse, control, start, tokens, |tokens|)))
  {
    if control.None? {
      SegmentIsDecoded(decode, parse, control, start, tokens, |tokens|);
      assert [] + tokens[..|tokens|] == tokens;
    } else {
      forall d {:trigger Tokens(control.value, d)} | Readable(control.value, d) && Tokens(control.value, d) == tokens
        ensures Finished(decode, FeedAll(decode, parse, control, start, tokens, |tokens|)) == Says(decode, parse, start.state, start.index, d)
      {
        Alone(Says(decode, parse, start.state, start.index, d));
        DocumentIsRead(decode, parse, control.value, start, d, tokens, Says(decode, parse, start.state, start.index, d));
      }
    }
  }

  // ---------------------------------------------------------------------
  // Events and what they say

  /** The units of one label among the first n items. */
  function UnitsOf(items: seq<Item>, reasoning: bool, n: nat): Text
    requires n <= |items|
  {
    if n == 0 then []
    else
      var last := items[n - 1];
      UnitsOf(items, reasoning, n - 1)
      + (if reasoning && last.Reasoned? then [last.unit] else if !reasoning && last.Said? then [last.unit] else [])
  }

  /** The texts of the first n events of one type, one after the other. */
  function TextsOf(events: seq<Event>, reasoning: bool, n: nat): Text
    requires n <= |events|
  {
    if n == 0 then [] else TextsOf(events, reasoning, n - 1) + TextOf(events[n - 1], reasoning)
  }

  lemma {:induction false} UnitsPrefix(a: seq<Item>, reasoning: bool, n: nat, all: seq<Item>)
    requires n <= |a| && a <= all
    ensures UnitsOf(all, reasoning, n) == UnitsOf(a, reasoning, n)
  {
    if n > 0 { UnitsPrefix(a, reasoning, n - 1, all); }
  }

  lemma {:induction false} UnitsConcat(a: seq<Item>, b: seq<Item>, reasoning: bool, n: nat, all: seq<Item>, m: nat)
    requires n <= |b| && all == a + b && m == |a| + n
    ensures UnitsOf(all, reasoning, m) == UnitsOf(a, reasoning, |a|) + UnitsOf(b, reasoning, n)
  {
    if n > 0 {
      UnitsConcat(a, b, reasoning, n - 1, all, m - 1);
      assert all[m - 1] == b[n - 1];
    } else {
      UnitsPrefix(a, reasoning, |a|, all);
    }
  }

  lemma {:induction false} UnitsOfLabel(state: State, text: Text, reasoning: bool, n: nat)
    requires n <= |text|
    ensures UnitsOf(Label(state, text), reasoning, n) == if reasoning <==> state == Reasoning then text[..n] else []
  {
    if n > 0 { UnitsOfLabel(state, text, reasoning, n - 1); }
  }

  /** The text of one event, if it is of that type. */
  function TextOf(e: Event, reasoning: bool): Text {
    if reasoning && e.ReasoningDelta? then e.text else if !reasoning && e.ContentDelta? then e.text else []
  }

  lemma UnitsOfEvent(e: Event, reasoning: bool)
    ensures UnitsOf(ItemsOf(e), reasoning, |ItemsOf(e)|) == TextOf(e, reasoning)
  {
    match e
    case ReasoningDelta(text) => UnitsOfLabel(Reasoning, text, reasoning, |text|);
    case ContentDelta(text) => UnitsOfLabel(Content, text, reasoning, |text|);
    case ToolCall(index, call) => assert UnitsOf(ItemsOf(e), reasoning, 0) == [];
    case ParseError(unfinished, raw) => assert UnitsOf(ItemsOf(e), reasoning, 0) == [];
  }

  /** What is said under a label is the text of the events of that type, in order. */
  lemma {:induction false} UnitsAreTexts(events: seq<Event>, reasoning: bool, n: nat, items: seq<Item>)
    requires n <= |events| && items == FirstItems(events, n)
    ensures UnitsOf(items, reasoning, |items|) == TextsOf(events, reasoning, n)
  {
    if n > 0 {
      var before := FirstItems(events, n - 1);
      UnitsAreTexts(events, reasoning, n - 1, before);
      UnitsOfEvent(events[n - 1], reasoning);
      UnitsConcat(before, ItemsOf(events[n - 1]), reasoning, |ItemsOf(events[n - 1])|, items, |items|);
    }
  }

  // ---------------------------------------------------------------------
  // The parser

  class ChatModelParser {
    const decode: Decode
    const parse: Parse
    const controlTokens: Option<ControlTokens>
    const textDecoder: IncrementalTokenDecoder
    var state: State
    var toolTokenIds: seq<int>
    var toolCallIndex: nat
    var producedToolCalls: bool
    ghost var progress: Progress
    ghost var log: seq<Event>

    constructor (decode: Decode, canCompactHistory: bool, parse: Parse, controlTokens: Option<ControlTokens>, state: State)
      requires controlTokens.None? ==> state == Content
      ensures Valid() && fresh(textDecoder) && progress == Progress(state, [], 0, []) && log == []
      ensures this.decode == decode && this.parse == parse && this.controlTokens == controlTokens
      ensures textDecoder.decode == decode && textDecoder.canCompactHistory == canCompactHistory
    {
      this.decode, this.parse, this.controlTokens, this.state := decode, parse, controlTokens, state;
      toolTokenIds, toolCallIndex, producedToolCalls := [], 0, false;
      textDecoder := new IncrementalTokenDecoder(decode, canCompactHistory);
      progress, log := Progress(state, [], 0, []), [];
    }

    ghost predicate Valid()
      reads this, textDecoder
    {
      && textDecoder.Valid() && textDecoder.decode == decode
      && (controlTokens.None? ==> state == Content)
      && state == progress.state && toolCallIndex == progress.index
      && (producedToolCalls <==> toolCallIndex > 0)
      && (state == Tool ==> toolTokenIds == progress.segment && textDecoder.full == [])
      && (state != Tool ==> textDecoder.full == progress.segment)
      && Account(decode, log, progress)
    }

    method TextEvent(text: Text) returns (events: seq<Event>)
      requires state != Tool
      ensures TextEvents(events, state, text)
    {
      if text == [] { return []; }
      events := [if state == Reasoning then ReasoningDelta(text) else ContentDelta(text)];
    }

    /** An ordinary token. */
    method PushText(tokenId: int) returns (events: seq<Event>)
      requires textDecoder.Lawful() && Valid() && state != Tool
      modifies this`progress, this`log, textDecoder
      ensures Valid() && log == old(log) + events
      ensures progress == old(progress).(segment := old(progress).segment + [tokenId])
    {
      var text := textDecoder.Push(tokenId);
      events := TextEvent(text);
      AccountPush(decode, log, progress, tokenId, text, events);
      log := log + events;
      progress := progress.(segment := progress.segment + [tokenId]);
    }

    /** End the segment: emit the rest of its text. */
    method FlushText() returns (events: seq<Event>)
      requires Valid() && state != Tool
      modifies this`progress, this`log, textDecoder
      ensures Valid() && log == old(log) + events
      ensures progress == Progress(state, [], old(progress).index, old(progress).done + SegmentItems(decode, old(progress)))
    {
      var text := textDecoder.Flush();
      events := TextEvent(text);
      AccountFlush(decode, log, progress, text, events);
      EndSegment(events);
    }

    ghost method EndSegment(events: seq<Event>)
      requires state == progress.state && Items(log + events) == progress.done + SegmentItems(decode, progress)
      modifies this`progress, this`log
      ensures log == old(log) + events && Account(decode, log, progress)
      ensures progress == Progress(state, [], old(progress).index, old(progress).done + SegmentItems(decode, old(progress)))
    {
      log := log + events;
      progress := Progress(state, [], progress.index, progress.done + SegmentItems(decode, progress));
      AccountEmpty(decode, log, progress);
    }

    /** A token that ends a text segment. */
    method Switch(next: State) returns (events: seq<Event>)
      requires Valid() && state != Tool && controlTokens.Some?
      modifies this`progress, this`log, this`state, this`toolTokenIds, textDecoder
      ensures Valid() && log == old(log) + events
      ensures progress == Progress(next, [], old(progress).index, old(progress).done + SegmentItems(decode, old(progress)))
    {
      events := FlushText();
      SegmentDone(decode, log, progress);
      Enter(next);
    }

    method Enter(next: State)
      requires Valid() && state != Tool && controlTokens.Some? && progress.segment == [] && Items(log) == progress.done
      modifies this`progress, this`state, this`toolTokenIds
      ensures Valid() && progress == old(progress).(state := next)
    {
      state := next;
      if next == Tool { toolTokenIds := []; }
      progress := progress.(state := next);
      AccountEmpty(decode, log, progress);
    }

    /** The token that ends a tool call. */
    method EndTool() returns (events: seq<Event>)
      requires Valid() && state == Tool && controlTokens.Some?
      modifies this
      ensures Valid() && log == old(log) + events
      ensures progress == Feed(decode, parse, controlTokens, old(progress), controlTokens.value.toolCallEnd)
    {
      var raw := decode(toolTokenIds);
      toolTokenIds := [];
      state := Content;
      var call := parse(raw);
      match call {
        case Some(c) =>
          events := [ToolCall(toolCallIndex, c)];
          toolCallIndex := toolCallIndex + 1;
          producedToolCalls := true;
        case None =>
          events := [ParseError(false, raw)];
      }
      ToolEnds(decode, parse, controlTokens, log, progress, events[0]);
      progress := Feed(decode, parse, controlTokens, progress, controlTokens.value.toolCallEnd);
      log := log + events;
    }

    method OnToken(tokenId: int) returns (events: seq<Event>)
      requires textDecoder.Lawful() && Valid()
      modifies this, textDecoder
      ensures Valid() && log == old(log) + events
      ensures progress == Feed(decode, parse, controlTokens, old(progress), tokenId)
    {
      if controlTokens.None? {
        events := PushText(tokenId);
        return;
      }
      var c := controlTokens.value;
      if state == Tool {
        if tokenId != c.toolCallEnd {
          toolTokenIds := toolTokenIds + [tokenId];
          progress := progress.(segment := progress.segment + [tokenId]);
          return [];
        }
        events := EndTool();
      } else if tokenId == c.thinkStart {
        events := Switch(Reasoning);
      } else if tokenId == c.thinkEnd {
        events := Switch(Content);
      } else if tokenId == c.toolCallStart {
        events := Switch(Tool);
      } else {
        events := PushText(tokenId);
      }
    }

    /** End of generation: everything the tokens say has been emitted. */
    method Finish() returns (events: seq<Event>)
      requires Valid()
      modifies this, textDecoder
      ensures Valid() && log == old(log) + events
      ensures Items(log) == Finished(decode, old(progress))
      ensures state == (if old(state) == Tool then Content else old(state))
    {
      if state == Tool {
        var raw := decode(toolTokenIds);
        toolTokenIds := [];
        state := Content;
        events := [ParseError(true, raw)];
        ItemsSnoc(log, events[0]);
        progress := Progress(Content, [], progress.index, progress.done + [Failed(true, raw)]);
        log := log + events;
        AccountEmpty(decode, log, progress);
      } else {
        events := FlushText();
        SegmentDone(decode, log, progress);
      }
    }

    /** The first i tokens are read. */
    ghost predicate Fed(start: Progress, tokenIds: seq<int>, i: nat)
      reads this, textDecoder
    {
      Valid() && i <= |tokenIds| && progress == FeedAll(decode, parse, controlTokens, start, tokenIds, i)
    }

    method FeedOne(ghost start: Progress, tokenIds: seq<int>, i: nat, before: seq<Event>) returns (events: seq<Event>)
      requires textDecoder.Lawful() && Fed(start, tokenIds, i) && i < |tokenIds|
      modifies this, textDecoder
      ensures Fed(start, tokenIds, i + 1) && (old(log) == before ==> log == events)
    {
      var more := OnToken(tokenIds[i]);
      events := before + more;
    }

    /** Read a prefix of the response without emitting it. */
    method ContinueFrom(tokenIds: seq<int>)
      requires textDecoder.Lawful() && Valid()
      modifies this, textDecoder
      ensures Valid() && log == []
      ensures var p := FeedAll(decode, parse, controlTokens, old(progress), tokenIds, |tokenIds|);
              progress == Progress(p.state, if p.state == Tool then p.segment else [], p.index, [])
    {
      var dropped := FeedEach(progress, tokenIds);
      Forget();
    }

    method FeedEach(ghost start: Progress, tokenIds: seq<int>) returns (events: seq<Event>)
      requires textDecoder.Lawful() && Fed(start, tokenIds, 0)
      modifies this, textDecoder
      ensures Fed(start, tokenIds, |tokenIds|) && (old(log) == [] ==> log == events)
    {
      events := [];
      ghost var whole := log == events;
      var i := 0;
      while i < |tokenIds|
        invariant 0 <= i <= |tokenIds| && Fed(start, tokenIds, i) && (whole ==> log == events)
      {
        events := FeedOne(start, tokenIds, i, events);
        i := i + 1;
      }
    }

    /** The flush that ends a prefix, and a new account of what is emitted. */
    method Forget()
      requires Valid()
      modifies this`progress, this`log, textDecoder
      ensures Valid() && log == []
      ensures progress == Progress(state, if state == Tool then old(progress).segment else [], old(progress).index, [])
    {
      if state != Tool { var rest := FlushText(); }
      progress, log := progress.(done := []), [];
      assert Label(state, Safe(decode, [])) == [];
    }

    /** A whole response: the events say, segment by segment, what the tokens mean. */
    method ParseAll(tokenIds: seq<int>) returns (events: seq<Event>)
      requires textDecoder.Lawful() && Valid() && log == []
      modifies this, textDecoder
      ensures Valid()
      ensures Items(events) == Finished(decode, FeedAll(decode, parse, controlTokens, old(progress), tokenIds, |tokenIds|))
      ensures old(state) != Tool && old(progress).segment == [] ==> Meant(decode, parse, controlTokens, old(state), old(toolCallIndex), tokenIds, Items(events))
    {
      if state != Tool && progress.segment == [] { NothingSaid(); }
      ghost var start := progress;
      events := FeedEach(progress, tokenIds);
      var last := Finish();
      events := events + last;
      if start.state != Tool && start.segment == [] { AllMeant(decode, parse, controlTokens, start, tokenIds); }
    }

    lemma NothingSaid()
      requires Valid() && log == [] && progress.segment == [] && state != Tool
      ensures progress.done == []
    {
      SegmentDone(decode, log, progress);
    }
  }
}
