/** The decoder for which history is cut down: byte-level pieces joined and decoded as
    UTF-8 with replacement (WHATWG Encoding Standard, section 8.1.1), restarted at
    every added token. It satisfies the laws of IncrementalText. */
module ByteLevelText {
  import opened IncrementalText

  datatype Piece = Bytes(bytes: seq<int>) | Added(text: Text)

  /** What the tokenizer knows: the piece of each token, and whether a byte order
      mark at the start of a run of bytes is skipped. */
  datatype Vocabulary = Vocabulary(piece: int -> Piece, skipBom: bool)

  /** Between code points, or inside one. */
  datatype Utf8 = Idle(atStart: bool) | Pending(needed: nat, lower: int, upper: int, codePoint: int, atStart: bool)

  const BOM: int := 0xFEFF

  function Units(codePoint: int): Text {
    if codePoint < 0x10000 then [codePoint]
    else [0xD800 + (codePoint - 0x10000) / 0x400, 0xDC00 + (codePoint - 0x10000) % 0x400]
  }

  function Emit(v: Vocabulary, codePoint: int, atStart: bool): Text {
    if v.skipBom && atStart && codePoint == BOM then [] else Units(codePoint)
  }

  /** A byte that may start a code point. */
  function Lead(byte: int, atStart: bool): (Utf8, Text) {
    if 0 <= byte <= 0x7F then (Idle(false), [byte])
    else if 0xC2 <= byte <= 0xDF then (Pending(1, 0x80, 0xBF, byte - 0xC0, atStart), [])
    else if 0xE0 <= byte <= 0xEF then
      (Pending(2, if byte == 0xE0 then 0xA0 else 0x80, if byte == 0xED then 0x9F else 0xBF, byte - 0xE0, atStart), [])
    else if 0xF0 <= byte <= 0xF4 then
      (Pending(3, if byte == 0xF0 then 0x90 else 0x80, if byte == 0xF4 then 0x8F else 0xBF, byte - 0xF0, atStart), [])
    else (Idle(false), [REPLACEMENT])
  }

  /** One byte; a byte that cannot continue ends the code point and starts anew. */
  function Step(v: Vocabulary, s: Utf8, byte: int): (Utf8, Text) {
    match s
    case Idle(atStart) => Lead(byte, atStart)
    case Pending(needed, lower, upper, codePoint, atStart) =>
      if !(lower <= byte <= upper) then
        var (next, text) := Lead(byte, false);
        (next, [REPLACEMENT] + text)
      else
        var more := codePoint * 64 + (byte - 0x80);
        if needed <= 1 then (Idle(false), Emit(v, more, atStart))
        else (Pending(needed - 1, 0x80, 0xBF, more, atStart), [])
  }

  function StepBytes(v: Vocabulary, s: Utf8, bytes: seq<int>): (Utf8, Text) {
    if bytes == [] then (s, [])
    else
      var (before, text) := StepBytes(v, s, bytes[..|bytes| - 1]);
      var (after, more) := Step(v, before, bytes[|bytes| - 1]);
      (after, text + more)
  }

  /** What an unfinished code point decodes to at the end. */
  function Finish(s: Utf8): Text {
    if s.Pending? then [REPLACEMENT] else []
  }

  function StepToken(v: Vocabulary, s: Utf8, token: int): (Utf8, Text) {
    match v.piece(token)
    case Bytes(bytes) => StepBytes(v, s, bytes)
    case Added(text) => (Idle(true), Finish(s) + text)
  }

  function Run(v: Vocabulary, s: Utf8, tokens: seq<int>): (Utf8, Text) {
    if tokens == [] then (s, [])
    else
      var (before, text) := Run(v, s, tokens[..|tokens| - 1]);
      var (after, more) := StepToken(v, before, tokens[|tokens| - 1]);
      (after, text + more)
  }

  function DecodeFrom(v: Vocabulary, s: Utf8, tokens: seq<int>): Text {
    Run(v, s, tokens).1 + Finish(Run(v, s, tokens).0)
  }

  function DecodeWith(v: Vocabulary): Decode {
    (tokens: seq<int>) => DecodeFrom(v, Idle(true), tokens)
  }

  lemma {:induction false} RunSplit(v: Vocabulary, s: Utf8, tokens: seq<int>, more: seq<int>)
    ensures var (middle, text) := Run(v, s, tokens);
            Run(v, s, tokens + more) == (Run(v, middle, more).0, text + Run(v, middle, more).1)
  {
    if more == [] {
      assert tokens + more == tokens;
      assert Run(v, s, tokens).1 + [] == Run(v, s, tokens).1;
    } else {
      var init := more[..|more| - 1];
      RunSplit(v, s, tokens, init);
      assert (tokens + more)[..|tokens + more| - 1] == tokens + init;
      var (middle, text) := Run(v, s, tokens);
      var (before, out) := Run(v, middle, init);
      var (after, last) := StepToken(v, before, more[|more| - 1]);
      assert (text + out) + last == text + (out + last);
    }
  }

  lemma RunOne(v: Vocabulary, s: Utf8, t: int)
    ensures Run(v, s, [t]) == StepToken(v, s, t)
  {
    assert [t][..0] == [];
    var (after, more) := StepToken(v, s, t);
    assert [] + more == more;
  }

  /** Between code points after a byte, the start is past. */
  lemma {:induction false} NotAtStart(v: Vocabulary, s: Utf8, bytes: seq<int>)
    requires bytes != [] && StepBytes(v, s, bytes).0.Idle?
    ensures StepBytes(v, s, bytes).0 == Idle(false)
  {
  }

  lemma StableAt(v: Vocabulary, tokens: seq<int>, t: int)
    ensures Strip(DecodeFrom(v, Idle(true), tokens)) <= Strip(DecodeFrom(v, Idle(true), tokens + [t]))
  {
    RunSplit(v, Idle(true), tokens, [t]);
    var (s, text) := Run(v, Idle(true), tokens);
    StripFinish(text, Finish(s));
    assert text <= DecodeFrom(v, Idle(true), tokens + [t]);
    StripKeepsPrefix(DecodeFrom(v, Idle(true), tokens + [t]), Strip(text));
  }

  /** Text once out stays, whatever follows. */
  lemma ByteLevelStable(v: Vocabulary)
    ensures Stable(DecodeWith(v))
  {
    var decode := DecodeWith(v);
    forall tokens: seq<int>, t: int {:trigger KeepsSafe(decode, tokens, t)} ensures KeepsSafe(decode, tokens, t) {
      StableAt(v, tokens, t);
      assert tokens + [t] != [];
    }
  }

  lemma StripFinish(text: Text, tail: Text)
    requires forall i :: 0 <= i < |tail| ==> tail[i] == REPLACEMENT
    ensures Strip(text + tail) == Strip(text)
  {
    StripUnique(text + tail, Strip(text));
  }

  /** A token that closes its text cleanly leaves the same state whatever came before. */
  lemma SameState(v: Vocabulary, tokens: seq<int>, t: int)
    requires AnchorAt(DecodeWith(v), tokens, t)
    ensures Run(v, Idle(true), tokens + [t]).0 == Run(v, Idle(true), [t]).0
    ensures Run(v, Idle(true), [t]).0.Idle?
  {
    var start := Idle(true);
    var s := Run(v, start, tokens).0;
    RunSplit(v, start, tokens, [t]);
    RunOne(v, s, t);
    RunOne(v, start, t);
    var after, alone := StepToken(v, s, t).0, StepToken(v, start, t).0;
    NoTail(Run(v, start, tokens + [t]).1, after);
    assert REPLACEMENT in Finish(alone) ==> REPLACEMENT in DecodeWith(v)([t]);
    match v.piece(t) {
      case Added(text) =>
      case Bytes(bytes) =>
        assert bytes != [];
        NotAtStart(v, s, bytes);
        NotAtStart(v, start, bytes);
    }
  }

  lemma NoTail(text: Text, s: Utf8)
    requires Strip(text + Finish(s)) == text + Finish(s)
    ensures s.Idle?
  {
  }

  lemma ByteLevelAnchored(v: Vocabulary)
    ensures Anchored(DecodeWith(v))
  {
    var decode := DecodeWith(v);
    forall tokens: seq<int>, t: int {:trigger AnchorAt(decode, tokens, t)} | AnchorAt(decode, tokens, t)
      ensures Continues(decode, tokens + [t], Front(decode, tokens, t), [t])
    {
      AnchorContinues(v, tokens, t);
    }
  }

  lemma DecodeSplit(v: Vocabulary, s: Utf8, tokens: seq<int>, more: seq<int>)
    ensures DecodeFrom(v, s, tokens + more) == Run(v, s, tokens).1 + DecodeFrom(v, Run(v, s, tokens).0, more)
  {
    RunSplit(v, s, tokens, more);
    var (middle, text) := Run(v, s, tokens);
    var (after, out) := Run(v, middle, more);
    assert (text + out) + Finish(after) == text + (out + Finish(after));
  }

  /** At an anchor the text is complete, and the front is what precedes the token's. */
  lemma FrontAtAnchor(v: Vocabulary, tokens: seq<int>, t: int)
    requires AnchorAt(DecodeWith(v), tokens, t)
    ensures Front(DecodeWith(v), tokens, t) + Run(v, Idle(true), [t]).1 == Run(v, Idle(true), tokens + [t]).1
  {
    SameState(v, tokens, t);
    var text, last := Run(v, Idle(true), tokens + [t]).1, Run(v, Idle(true), [t]).1;
    assert text + [] == text && last + [] == last;
  }

  /** Behind the anchor both histories run from the same state. */
  lemma AnchorContinuesWith(v: Vocabulary, tokens: seq<int>, t: int, more: seq<int>)
    requires AnchorAt(DecodeWith(v), tokens, t)
    ensures DecodeFrom(v, Idle(true), tokens + [t] + more)
         == Front(DecodeWith(v), tokens, t) + DecodeFrom(v, Idle(true), [t] + more)
  {
    SameState(v, tokens, t);
    FrontAtAnchor(v, tokens, t);
    DecodeSplit(v, Idle(true), tokens + [t], more);
    DecodeSplit(v, Idle(true), [t], more);
    Associate(Front(DecodeWith(v), tokens, t), Run(v, Idle(true), [t]).1, DecodeFrom(v, Run(v, Idle(true), [t]).0, more));
  }

  lemma Associate(a: Text, b: Text, c: Text)
    ensures (a + b) + c == a + (b + c)
  {
  }

  lemma AnchorContinues(v: Vocabulary, tokens: seq<int>, t: int)
    requires AnchorAt(DecodeWith(v), tokens, t)
    ensures Continues(DecodeWith(v), tokens + [t], Front(DecodeWith(v), tokens, t), [t])
  {
    var decode := DecodeWith(v);
    forall more: seq<int> {:trigger decode([t] + more)}
      ensures decode(tokens + [t] + more) == Front(decode, tokens, t) + decode([t] + more)
    {
      AnchorContinuesWith(v, tokens, t, more);
    }
  }
}
