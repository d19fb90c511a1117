/** Greedy decoding as a stream: the target model is an unknown function from the
    tokens so far to the next token. Accepting a verified draft is exact with
    respect to that stream (src/glm51_model.ts, src/chat_model.ts). */
module GreedyStream {
  type Model = seq<int> -> int

  /** The next n tokens after `tokens`. */
  function Extend(model: Model, tokens: seq<int>, n: nat): (r: seq<int>)
    ensures |r| == n
  {
    if n == 0 then [] else
      var r := Extend(model, tokens, n - 1);
      r + [model(tokens + r)]
  }

  lemma {:induction false} ExtendSplit(model: Model, tokens: seq<int>, m: nat, n: nat)
    ensures Extend(model, tokens, m + n) == Extend(model, tokens, m) + Extend(model, tokens + Extend(model, tokens, m), n)
  {
    if n > 0 {
      ExtendSplit(model, tokens, m, n - 1);
      var first := Extend(model, tokens, m);
      var rest := Extend(model, tokens + first, n - 1);
      assert tokens + (first + rest) == (tokens + first) + rest;
    }
  }

  lemma ExtendPrefix(model: Model, tokens: seq<int>, m: nat, n: nat)
    requires m <= n
    ensures Extend(model, tokens, m) <= Extend(model, tokens, n)
  {
    ExtendSplit(model, tokens, m, n - m);
  }

  /** The first n drafts are what greedy decoding yields after `tokens`. */
  ghost predicate Agrees(model: Model, tokens: seq<int>, drafts: seq<int>, n: nat) {
    n <= |drafts| && drafts[..n] == Extend(model, tokens, n)
  }

  /** n is the number of drafts greedy decoding would have produced itself. */
  ghost predicate LongestAgreement(model: Model, tokens: seq<int>, drafts: seq<int>, n: nat) {
    Agrees(model, tokens, drafts, n) && forall m :: n < m <= |drafts| ==> !Agrees(model, tokens, drafts, m)
  }

  /** The number of drafts to be accepted. */
  function Agreement(model: Model, tokens: seq<int>, drafts: seq<int>): (n: nat)
    ensures n <= |drafts|
    decreases |drafts|
  {
    if drafts == [] || drafts[0] != model(tokens) then 0 else 1 + Agreement(model, tokens + [drafts[0]], drafts[1..])
  }

  lemma {:induction false} AgreementIsLongest(model: Model, tokens: seq<int>, drafts: seq<int>)
    ensures LongestAgreement(model, tokens, drafts, Agreement(model, tokens, drafts))
    decreases |drafts|
  {
    if drafts != [] {
      forall m: nat | 0 < m <= |drafts|
        ensures Agrees(model, tokens, drafts, m) <==>
                drafts[0] == model(tokens) && Agrees(model, tokens + [drafts[0]], drafts[1..], m - 1)
      {
        AgreesStep(model, tokens, drafts, m);
      }
      if drafts[0] == model(tokens) { AgreementIsLongest(model, tokens + [drafts[0]], drafts[1..]); }
    }
  }

  lemma AgreesStep(model: Model, tokens: seq<int>, drafts: seq<int>, m: nat)
    requires 0 < m <= |drafts|
    ensures Agrees(model, tokens, drafts, m) <==>
            drafts[0] == model(tokens) && Agrees(model, tokens + [drafts[0]], drafts[1..], m - 1)
  {
    ExtendSplit(model, tokens, 1, m - 1);
    assert Extend(model, tokens, 1) == [model(tokens)] by { assert tokens + [] == tokens; }
    assert drafts[..m] == [drafts[0]] + drafts[1..][..m - 1];
    if Agrees(model, tokens, drafts, m) { assert drafts[..m][0] == Extend(model, tokens, m)[0]; }
  }

  lemma LongestIsAgreement(model: Model, tokens: seq<int>, drafts: seq<int>, n: nat)
    requires LongestAgreement(model, tokens, drafts, n)
    ensures n == Agreement(model, tokens, drafts)
  {
    AgreementIsLongest(model, tokens, drafts);
  }

  /** What verification selects after each input: the model's token for the
      committed history and the inputs up to there. */
  ghost predicate Verified(model: Model, history: seq<int>, inputs: seq<int>, selected: seq<int>) {
    |selected| == |inputs| && forall i :: 0 <= i < |inputs| ==> selected[i] == model(history + inputs[..i + 1])
  }

  lemma {:induction false} MatchingDraftsAgree(model: Model, history: seq<int>, inputs: seq<int>, selected: seq<int>, n: nat)
    requires Verified(model, history, inputs, selected) && n < |inputs|
    requires forall i :: 0 <= i < n ==> inputs[i + 1] == selected[i]
    ensures inputs[1..n + 1] == Extend(model, history + inputs[..1], n)
    ensures inputs[1..n + 1] + [selected[n]] == Extend(model, history + inputs[..1], n + 1)
  {
    if n > 0 { MatchingDraftsAgree(model, history, inputs, selected, n - 1); }
    assert inputs[..n + 1] == inputs[..1] + inputs[1..n + 1];
    assert history + inputs[..n + 1] == (history + inputs[..1]) + inputs[1..n + 1];
    if n > 0 { assert inputs[1..n + 1] == inputs[1..n] + [inputs[n]]; }
  }

  /** A mismatch after n matches makes every longer agreement impossible. */
  lemma MismatchEnds(model: Model, history: seq<int>, inputs: seq<int>, selected: seq<int>, n: nat)
    requires Verified(model, history, inputs, selected) && n + 1 < |inputs|
    requires forall i :: 0 <= i < n ==> inputs[i + 1] == selected[i]
    requires inputs[n + 1] != selected[n]
    ensures forall m :: n < m <= |inputs[1..]| ==> !Agrees(model, history + inputs[..1], inputs[1..], m)
  {
    MatchingDraftsAgree(model, history, inputs, selected, n);
    var tokens := history + inputs[..1];
    forall m | n < m <= |inputs[1..]| ensures !Agrees(model, tokens, inputs[1..], m) {
      ExtendPrefix(model, tokens, n + 1, m);
      assert Extend(model, tokens, m)[n] == Extend(model, tokens, n + 1)[n] == selected[n];
      assert inputs[1..][..m][n] == inputs[n + 1];
    }
  }

  /** The acceptance loop for one row: how many drafts to keep, and the tokens to
      emit, the last of which replaces the first rejected draft. */
  method AcceptRow(model: Model, ghost history: seq<int>, inputs: seq<int>, selected: seq<int>)
      returns (bestAccepted: nat, tokens: seq<int>)
    requires inputs != [] && Verified(model, history, inputs, selected)
    ensures LongestAgreement(model, history + inputs[..1], inputs[1..], bestAccepted)
    ensures tokens == Extend(model, history + inputs[..1], bestAccepted + 1)
    ensures inputs[..bestAccepted + 1] + [tokens[bestAccepted]] == inputs[..1] + tokens
  {
    var numDraftTokens := |inputs| - 1;
    bestAccepted := 0;
    var depth := 0;
    while depth < numDraftTokens
      invariant 0 <= bestAccepted == depth <= numDraftTokens
      invariant forall i :: 0 <= i < bestAccepted ==> inputs[i + 1] == selected[i]
    {
      if inputs[depth + 1] != selected[depth] {
        MismatchEnds(model, history, inputs, selected, bestAccepted);
        break;
      }
      bestAccepted := bestAccepted + 1;
      depth := depth + 1;
    }
    MatchingDraftsAgree(model, history, inputs, selected, bestAccepted);
    var acceptedTokens := [];
    depth := 1;
    while depth <= bestAccepted
      invariant 1 <= depth <= bestAccepted + 1
      invariant acceptedTokens == inputs[1..depth]
    {
      acceptedTokens := acceptedTokens + [inputs[depth]];
      depth := depth + 1;
    }
    tokens := acceptedTokens + [selected[bestAccepted]];
    assert inputs[..bestAccepted + 1] == inputs[..1] + inputs[1..bestAccepted + 1];
    assert inputs[1..bestAccepted + 1] == inputs[1..][..bestAccepted];
  }
}
