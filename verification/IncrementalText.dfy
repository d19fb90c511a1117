/** Emitting decoded text while tokens arrive: deltas from a history that may be cut
    down to an anchor token (src/chat-model-parser.ts). Texts are lists of UTF-16
    code units. */
module IncrementalText {
  type Text = seq<int>
  type Decode = seq<int> -> Text

  const REPLACEMENT: int := 0xFFFD

  /** The text without trailing replacement characters. */
  function Strip(text: Text): (r: Text)
    ensures r <= text
    ensures r != [] ==> r[|r| - 1] != REPLACEMENT
    ensures forall i {:trigger text[i]} :: |r| <= i < |text| ==> text[i] == REPLACEMENT
  {
    if text != [] && text[|text| - 1] == REPLACEMENT then Strip(text[..|text| - 1]) else text
  }

  lemma StripUnique(text: Text, r: Text)
    requires r <= text && (r != [] ==> r[|r| - 1] != REPLACEMENT)
    requires forall i {:trigger text[i]} :: |r| <= i < |text| ==> text[i] == REPLACEMENT
    ensures Strip(text) == r
  {
    var s := Strip(text);
    assert r != [] ==> text[|r| - 1] == r[|r| - 1];
    assert s != [] ==> text[|s| - 1] == s[|s| - 1];
  }

  /** A prefix that does not end in a replacement survives stripping. */
  lemma StripKeepsPrefix(text: Text, p: Text)
    requires p <= text && (p != [] ==> p[|p| - 1] != REPLACEMENT)
    ensures p <= Strip(text)
  {
    assert p != [] ==> text[|p| - 1] == p[|p| - 1];
  }

  lemma StripBehind(p: Text, text: Text)
    requires p == [] || Strip(text) != []
    ensures Strip(p + text) == p + Strip(text)
  {
    var r := p + Strip(text);
    assert Strip(text) == [] ==> r == Strip(text);
    forall i {:trigger (p + text)[i]} | |r| <= i < |p + text| ensures (p + text)[i] == REPLACEMENT {
      assert (p + text)[i] == text[i - |p|];
    }
    StripUnique(p + text, r);
  }

  // ---------------------------------------------------------------------
  // Deltas from the whole history

  function CommonPrefix(a: Text, b: Text, n: nat): (k: nat)
    requires n <= |a| && n <= |b| && a[..n] == b[..n]
    ensures n <= k <= |a| && k <= |b| && a[..k] == b[..k]
    ensures k < |a| && k < |b| ==> a[k] != b[k]
    decreases |a| - n
  {
    if n < |a| && n < |b| && a[n] == b[n] then
      assert a[..n + 1] == a[..n] + [a[n]] && b[..n + 1] == b[..n] + [b[n]];
      CommonPrefix(a, b, n + 1)
    else n
  }

  /** What to emit when `emitted` is out and `text` is known. */
  function DeltaFrom(text: Text, emitted: Text): Text {
    if emitted <= text then text[|emitted|..] else text[CommonPrefix(emitted, text, 0)..]
  }

  /** The text that is safe to emit for a history. */
  function Safe(decode: Decode, tokens: seq<int>): Text {
    if tokens == [] then [] else Strip(decode(tokens))
  }

  /** The deltas of the first n tokens, one after the other. */
  function Pushed(decode: Decode, tokens: seq<int>, n: nat): Text
    requires n <= |tokens|
  {
    if n == 0 then []
    else Pushed(decode, tokens, n - 1) + DeltaFrom(Safe(decode, tokens[..n]), Safe(decode, tokens[..n - 1]))
  }

  /** All deltas of a segment, the final flush included. */
  function Emitted(decode: Decode, tokens: seq<int>): Text {
    if tokens == [] then [] else Pushed(decode, tokens, |tokens|) + DeltaFrom(decode(tokens), Safe(decode, tokens))
  }

  /** Text once safe stays at the front of what longer histories decode to. */
  ghost predicate StableAlong(decode: Decode, tokens: seq<int>, n: nat)
    requires n <= |tokens|
  {
    forall i {:trigger StableStep(decode, tokens, i)} :: 0 < i <= n ==> StableStep(decode, tokens, i)
  }

  ghost predicate StableStep(decode: Decode, tokens: seq<int>, n: nat)
    requires 0 < n <= |tokens|
  {
    Safe(decode, tokens[..n - 1]) <= Safe(decode, tokens[..n])
  }

  lemma StableSplit(decode: Decode, tokens: seq<int>, n: nat)
    requires 0 < n <= |tokens|
    ensures StableAlong(decode, tokens, n) <==> StableAlong(decode, tokens, n - 1) && StableStep(decode, tokens, n)
  {
  }

  lemma DeltaLength(text: Text, emitted: Text)
    ensures emitted <= text ==> emitted + DeltaFrom(text, emitted) == text
    ensures |DeltaFrom(text, emitted)| >= |text| - |emitted|
    ensures |DeltaFrom(text, emitted)| == |text| - |emitted| ==> emitted <= text
  {
    var k := CommonPrefix(emitted, text, 0);
    assert emitted[..|emitted|] == emitted;
  }

  /** The emitted text is at least as long as the safe text, and equal to it exactly
      when every step was stable. */
  lemma {:induction false} PushedExact(decode: Decode, tokens: seq<int>, n: nat)
    requires n <= |tokens|
    ensures |Pushed(decode, tokens, n)| >= |Safe(decode, tokens[..n])|
    ensures StableAlong(decode, tokens, n) ==> Pushed(decode, tokens, n) == Safe(decode, tokens[..n])
    ensures |Pushed(decode, tokens, n)| == |Safe(decode, tokens[..n])| ==> StableAlong(decode, tokens, n)
  {
    if n > 0 {
      PushedExact(decode, tokens, n - 1);
      StableSplit(decode, tokens, n);
      DeltaLength(Safe(decode, tokens[..n]), Safe(decode, tokens[..n - 1]));
    }
  }

  /** Deltas from the whole history add up to the decoded segment iff the decoder
      never takes safe text back along it. */
  lemma EmittedExact(decode: Decode, tokens: seq<int>)
    requires tokens != []
    ensures Emitted(decode, tokens) == decode(tokens) <==> StableAlong(decode, tokens, |tokens|)
  {
    PushedExact(decode, tokens, |tokens|);
    assert tokens[..|tokens|] == tokens;
    DeltaLength(decode(tokens), Safe(decode, tokens));
  }

  // ---------------------------------------------------------------------
  // Laws of decoders

  ghost predicate KeepsSafe(decode: Decode, tokens: seq<int>, t: int) {
    Safe(decode, tokens) <= Safe(decode, tokens + [t])
  }

  /** Only a tail of replacement characters may change when a token is added. */
  ghost predicate Stable(decode: Decode) {
    forall tokens: seq<int>, t: int {:trigger KeepsSafe(decode, tokens, t)} :: KeepsSafe(decode, tokens, t)
  }

  /** Token t, decoded alone, closes the text of the tokens up to it cleanly. */
  ghost predicate AnchorAt(decode: Decode, tokens: seq<int>, t: int) {
    var text, last := decode(tokens + [t]), decode([t]);
    && last != [] && REPLACEMENT !in last
    && Strip(text) == text && |last| <= |text| && text[|text| - |last|..] == last
  }

  function Front(decode: Decode, tokens: seq<int>, t: int): Text {
    var text, last := decode(tokens + [t]), decode([t]);
    if |last| <= |text| then text[..|text| - |last|] else []
  }

  /** Everything behind `full` decodes as it does behind `tokens`, after `front`. */
  ghost predicate Continues(decode: Decode, full: seq<int>, front: Text, tokens: seq<int>) {
    forall more: seq<int> {:trigger decode(tokens + more)} :: decode(full + more) == front + decode(tokens + more)
  }

  /** Such a token can stand for the history up to it. */
  ghost predicate Anchored(decode: Decode) {
    forall tokens: seq<int>, t: int {:trigger AnchorAt(decode, tokens, t)} ::
      AnchorAt(decode, tokens, t) ==> Continues(decode, tokens + [t], Front(decode, tokens, t), [t])
  }

  lemma ContinuesMore(decode: Decode, full: seq<int>, front: Text, tokens: seq<int>, t: int)
    requires Continues(decode, full, front, tokens)
    ensures Continues(decode, full + [t], front, tokens + [t])
  {
    forall more: seq<int> {:trigger decode(tokens + [t] + more)}
      ensures decode(full + [t] + more) == front + decode(tokens + [t] + more)
    {
      assert full + [t] + more == full + ([t] + more) && tokens + [t] + more == tokens + ([t] + more);
      assert decode(tokens + ([t] + more)) == decode(tokens + ([t] + more));
    }
  }

  lemma ContinuesFromAnchor(decode: Decode, full: seq<int>, front: Text, tokens: seq<int>, t: int)
    requires Anchored(decode) && AnchorAt(decode, tokens, t) && Continues(decode, full, front, tokens + [t])
    ensures Continues(decode, full, front + Front(decode, tokens, t), [t])
  {
    var middle := Front(decode, tokens, t);
    forall more: seq<int> {:trigger decode([t] + more)}
      ensures decode(full + more) == front + middle + decode([t] + more)
    {
      assert decode(tokens + [t] + more) == middle + decode([t] + more);
      assert front + (middle + decode([t] + more)) == front + middle + decode([t] + more);
    }
  }

  lemma SafeBehind(decode: Decode, full: seq<int>, front: Text, tokens: seq<int>)
    requires Continues(decode, full, front, tokens) && full != [] && tokens != []
    requires front == [] || Safe(decode, tokens) != []
    ensures decode(full) == front + decode(tokens) && Safe(decode, full) == front + Safe(decode, tokens)
  {
    assert full + [] == full && tokens + [] == tokens;
    StripBehind(front, decode(tokens));
  }

  // ---------------------------------------------------------------------
  // The decoder

  class IncrementalTokenDecoder {
    const decode: Decode
    const canCompactHistory: bool
    var tokenIds: seq<int>
    var emittedText: Text
    ghost var full: seq<int>   // every token since the last flush
    ghost var front: Text      // text of the history cut off

    constructor (decode: Decode, canCompactHistory: bool)
      ensures Valid() && full == [] && this.decode == decode && this.canCompactHistory == canCompactHistory
    {
      this.decode, this.canCompactHistory := decode, canCompactHistory;
      tokenIds, emittedText, full, front := [], [], [], [];
    }

    /** The decoder does what incremental text needs of it. */
    ghost predicate Lawful() {
      Stable(decode) && (canCompactHistory ==> Anchored(decode))
    }

    ghost predicate Valid()
      reads this
    {
      && (full == [] <==> tokenIds == []) && (full == [] ==> front == [])
      && emittedText == Safe(decode, tokenIds) && (front == [] || emittedText != [])
      && Continues(decode, full, front, tokenIds)
    }

    method DeltaOf(text: Text) returns (delta: Text)
      ensures delta == DeltaFrom(text, emittedText)
    {
      if emittedText <= text { return text[|emittedText|..]; }
      var commonPrefix := 0;
      while commonPrefix < |emittedText| && commonPrefix < |text| && emittedText[commonPrefix] == text[commonPrefix]
        invariant 0 <= commonPrefix <= |emittedText| && commonPrefix <= |text|
        invariant emittedText[..commonPrefix] == text[..commonPrefix]
        invariant CommonPrefix(emittedText, text, 0) == CommonPrefix(emittedText, text, commonPrefix)
      {
        commonPrefix := commonPrefix + 1;
      }
      delta := text[commonPrefix..];
    }

    method SafeEnd(text: Text) returns (end: nat)
      ensures end <= |text| && text[..end] == Strip(text)
    {
      end := |text|;
      while end > 0 && text[end - 1] == REPLACEMENT
        invariant 0 <= end <= |text|
        invariant forall i {:trigger text[i]} :: end <= i < |text| ==> text[i] == REPLACEMENT
      {
        end := end - 1;
      }
      StripUnique(text, text[..end]);
    }

    /** Add a token; the deltas so far always add up to the safe text of the whole
        segment, whether or not history was cut off. */
    method Push(tokenId: int) returns (delta: Text)
      requires Lawful() && Valid()
      modifies this
      ensures Valid() && full == old(full) + [tokenId]
      ensures Safe(decode, old(full)) + delta == Safe(decode, full)
    {
      ghost var history := tokenIds;
      var text, whole;
      delta, text, whole := Extend(tokenId);
      if canCompactHistory && whole {
        Compact(tokenId, history, text);
      }
    }

    /** Push without cutting history. */
    method Extend(tokenId: int) returns (delta: Text, text: Text, whole: bool)
      requires Lawful() && Valid()
      modifies this`tokenIds, this`emittedText, this`full
      ensures Valid() && full == old(full) + [tokenId] && tokenIds == old(tokenIds) + [tokenId]
      ensures Safe(decode, old(full)) + delta == Safe(decode, full)
      ensures text == decode(tokenIds) && (whole <==> Strip(text) == text)
    {
      BeforePush(tokenId);
      text := decode(tokenIds + [tokenId]);
      var safeEnd := SafeEnd(text);
      whole := safeEnd == |text|;
      delta := DeltaOf(text[..safeEnd]);
      assert front + emittedText + delta == front + text[..safeEnd];
      Record(tokenId, text[..safeEnd]);
    }

    method Record(tokenId: int, safeText: Text)
      requires Valid() && safeText == Safe(decode, tokenIds + [tokenId]) && (front == [] || safeText != [])
      requires Continues(decode, full + [tokenId], front, tokenIds + [tokenId])
      modifies this`tokenIds, this`emittedText, this`full
      ensures Valid() && full == old(full) + [tokenId] && tokenIds == old(tokenIds) + [tokenId]
    {
      tokenIds := tokenIds + [tokenId];
      full := full + [tokenId];
      emittedText := safeText;
    }

    /** What holds once the token is part of the history. */
    lemma BeforePush(tokenId: int)
      requires Lawful() && Valid()
      ensures Continues(decode, full + [tokenId], front, tokenIds + [tokenId])
      ensures emittedText <= Safe(decode, tokenIds + [tokenId])
      ensures front == [] || Safe(decode, tokenIds + [tokenId]) != []
      ensures Safe(decode, full) == front + emittedText
      ensures Safe(decode, full + [tokenId]) == front + Safe(decode, tokenIds + [tokenId])
    {
      ContinuesMore(decode, full, front, tokenIds, tokenId);
      assert KeepsSafe(decode, tokenIds, tokenId);
      SafeBehind(decode, full + [tokenId], front, tokenIds + [tokenId]);
      if full != [] { SafeBehind(decode, full, front, tokenIds); }
    }

    /** Cut the history down to the last token where that token is an anchor. */
    method Compact(tokenId: int, ghost history: seq<int>, text: Text)
      requires Lawful() && Valid() && canCompactHistory && tokenIds == history + [tokenId]
      requires text == decode(tokenIds) && Strip(text) == text
      modifies this`tokenIds, this`emittedText, this`front
      ensures Valid()
    {
      var lastText := if |tokenIds| == 1 then text else decode([tokenId]);
      assert |tokenIds| == 1 ==> tokenIds == [tokenId];
      if lastText != [] && REPLACEMENT !in lastText && |lastText| <= |text| && text[|text| - |lastText|..] == lastText {
        assert AnchorAt(decode, history, tokenId);
        ContinuesFromAnchor(decode, full, front, history, tokenId);
        NothingStripped(lastText);
        front := front + Front(decode, history, tokenId);
        tokenIds := [tokenId];
        emittedText := lastText;
      }
    }

    static lemma NothingStripped(text: Text)
      requires REPLACEMENT !in text
      ensures Strip(text) == text
    {
    }

    /** The rest of the segment; the history starts over. */
    method Flush() returns (delta: Text)
      requires Valid()
      modifies this
      ensures Valid() && full == []
      ensures old(full) == [] ==> delta == []
      ensures old(full) != [] ==> Safe(decode, old(full)) + delta == decode(old(full))
    {
      if tokenIds == [] { return []; }
      var text := decode(tokenIds);
      delta := DeltaOf(text);
      SafeBehind(decode, full, front, tokenIds);
      assert front + emittedText + text[|emittedText|..] == front + text;
      tokenIds, emittedText, full, front := [], [], [], [];
    }
  }
}
