/** Greedy decoding of a batch of paged sequences: one token a step, or drafting,
    verifying, committing and rolling back several (src/chat_model.ts,
    src/glm51_model.ts). Both yield the same stream. */
module DecodeRuns {
  import opened Wrappers
  import opened TokenChunks
  import opened PagePool
  import opened PageLaws
  import opened PagedSequence
  import opened SequenceRows
  import opened GreedyStream

  // ---------------------------------------------------------------------
  // Rows and the stream they stand in

  /** A row ready to decode: everything reserved is reported, and a target waits. */
  predicate Committed(r: Row) {
    r.target.Some? && |r.history| == r.allocLen
  }

  /** The history with the pending target as its next token. */
  function Stream(r: Row): (s: seq<int>)
    requires r.target.Some?
  {
    r.history + [r.target.value]
  }

  /** Row r has followed the greedy stream of `origin` for the tokens in `done`. */
  ghost predicate Stands(model: Model, r: Row, origin: seq<int>, done: seq<int>) {
    && r.target.Some? && Stream(r) == origin + done
    && done == Extend(model, origin, |done|)
    && |r.history| <= r.allocLen
  }

  ghost predicate AllStand(model: Model, rows: seq<Row>, origins: seq<seq<int>>, dones: seq<seq<int>>) {
    && |rows| == |origins| == |dones|
    && forall b {:trigger rows[b]} {:trigger dones[b]} :: 0 <= b < |rows| ==> Stands(model, rows[b], origins[b], dones[b])
  }

  ghost function Streams(rows: seq<Row>): (r: seq<seq<int>>)
    requires forall b :: 0 <= b < |rows| ==> rows[b].target.Some?
    ensures |r| == |rows| && forall b :: 0 <= b < |rows| ==> r[b] == Stream(rows[b])
  {
    seq(|rows|, b requires 0 <= b < |rows| => Stream(rows[b]))
  }

  function Repeat<T>(x: T, n: nat): (r: seq<T>)
    ensures |r| == n && forall i :: 0 <= i < n ==> r[i] == x
  {
    seq(n, i requires 0 <= i < n => x)
  }

  /** Row b as the decoders read it. */
  method ReadRow(cache: PageCache, seqs: seq<Sequence>, b: nat) returns (reported: nat, allocLen: nat, target: Option<int>)
    requires Batch(cache, seqs) && b < |seqs|
    ensures var r := BatchRows(cache, seqs)[b];
            reported == |r.history| && allocLen == r.allocLen && target == r.target
  {
    RowFits(cache, seqs, b);
    reported := seqs[b].ReportedTokenCount();
    allocLen, target := seqs[b].allocLen, seqs[b].targetToken;
  }

  ghost predicate AllCommitted(rows: seq<Row>) {
    forall b {:trigger rows[b]} :: 0 <= b < |rows| ==> Committed(rows[b])
  }

  predicate HasTargets(rows: seq<Row>, targets: seq<int>) {
    |rows| == |targets| && forall b {:trigger rows[b]} {:trigger targets[b]} :: 0 <= b < |rows| ==> rows[b].target == Some(targets[b])
  }

  method CommittedTarget(cache: PageCache, seqs: seq<Sequence>, b: nat) returns (target: Option<int>)
    requires Batch(cache, seqs) && b < |seqs|
    ensures target.Some? <==> Committed(BatchRows(cache, seqs)[b])
    ensures target.Some? ==> target == BatchRows(cache, seqs)[b].target
  {
    var reported, allocLen;
    reported, allocLen, target := ReadRow(cache, seqs, b);
    if reported != allocLen { target := None; }
  }

  /** The waiting targets, when every row of a non-empty batch is committed. */
  method PrepareDecodeInput(cache: PageCache, seqs: seq<Sequence>) returns (targets: Option<seq<int>>)
    requires Batch(cache, seqs)
    ensures targets.Some? <==> seqs != [] && AllCommitted(BatchRows(cache, seqs))
    ensures targets.Some? ==> HasTargets(BatchRows(cache, seqs), targets.value)
  {
    if seqs == [] { return None; }
    ghost var rows := BatchRows(cache, seqs);
    var found: seq<int> := [];
    var b := 0;
    while b < |seqs|
      invariant 0 <= b == |found| <= |seqs|
      invariant forall j {:trigger rows[j]} :: 0 <= j < b ==> Committed(rows[j]) && rows[j].target == Some(found[j])
    {
      var target := CommittedTarget(cache, seqs, b);
      if target.None? { return None; }
      found := found + [target.value];
      b := b + 1;
    }
    targets := Some(found);
  }

  method AllocLens(cache: PageCache, seqs: seq<Sequence>) returns (lens: seq<nat>)
    requires Batch(cache, seqs)
    ensures |lens| == |seqs| && forall b :: 0 <= b < |seqs| ==> lens[b] == BatchRows(cache, seqs)[b].allocLen
  {
    ghost var rows := BatchRows(cache, seqs);
    lens := [];
    var b := 0;
    while b < |seqs|
      invariant 0 <= b == |lens| <= |seqs|
      invariant forall j :: 0 <= j < b ==> lens[j] == rows[j].allocLen
    {
      var reported, allocLen, target := ReadRow(cache, seqs, b);
      lens := lens + [allocLen];
      b := b + 1;
    }
  }

  /** One forward pass over row b: the model's choice after each of its inputs. */
  method SelectRow(cache: PageCache, seqs: seq<Sequence>, b: nat, model: Model, inputs: seq<int>) returns (selected: seq<int>)
    requires Batch(cache, seqs) && b < |seqs|
    ensures Verified(model, BatchRows(cache, seqs)[b].history, inputs, selected)
  {
    RowFits(cache, seqs, b);
    var history := seqs[b].GetTokenIds();
    selected := seq(|inputs|, i requires 0 <= i < |inputs| => model(history + inputs[..i + 1]));
  }

  // ---------------------------------------------------------------------
  // One token a step

  lemma StepStands(model: Model, r: Row, r': Row, origin: seq<int>, done: seq<int>, next: int)
    requires Stands(model, r, origin, done) && Committed(r)
    requires next == model(Stream(r))
    requires r' == ReportedRow(r.(allocLen := r.allocLen + 1), [r.target.value], Some(next))
    ensures Stands(model, r', origin, done + [next]) && Committed(r')
  {
    assert origin + done + [next] == origin + (done + [next]);
    assert Extend(model, origin, |done| + 1) == done + [model(origin + done)];
  }

  class DecodeGenerator {
    const cache: PageCache
    const seqs: seq<Sequence>
    const model: Model
    var nextTokens: seq<int>
    ghost var origins: seq<seq<int>>   // per row, history and target at the start
    ghost var emitted: seq<seq<int>>   // per row, the tokens yielded since

    constructor (cache: PageCache, seqs: seq<Sequence>, model: Model)
      ensures this.cache == cache && this.seqs == seqs && this.model == model
    {
      this.cache, this.seqs, this.model := cache, seqs, model;
      nextTokens, origins, emitted := [], [], [];
    }

    ghost predicate Valid()
      reads this, cache, cache.sequences, cache.pages
    {
      Batch(cache, seqs) && Following(BatchRows(cache, seqs))
    }

    ghost predicate Following(rows: seq<Row>)
      reads this
    {
      AllStand(model, rows, origins, emitted) && AllCommitted(rows) && HasTargets(rows, nextTokens)
    }

    method Start() returns (ok: bool)
      requires Batch(cache, seqs)
      modifies this
      ensures ok <==> seqs != [] && AllCommitted(BatchRows(cache, seqs))
      ensures ok ==> Valid() && emitted == Repeat([], |seqs|) && origins == Streams(BatchRows(cache, seqs))
    {
      var prepared := PrepareDecodeInput(cache, seqs);
      ok := prepared.Some?;
      if ok {
        Begin(BatchRows(cache, seqs), prepared.value);
      }
    }

    method Begin(ghost rows: seq<Row>, targets: seq<int>)
      requires AllCommitted(rows) && HasTargets(rows, targets)
      modifies this
      ensures Following(rows) && emitted == Repeat([], |rows|) && origins == Streams(rows)
    {
      nextTokens := targets;
      origins, emitted := Streams(rows), Repeat([], |rows|);
    }

    /** One step: plan one position a row, select, report. It fails iff the pages do not
        suffice, and then nothing changes. */
    method Next() returns (tokens: Option<seq<int>>)
      requires Valid()
      modifies this, cache, cache.sequences, cache.pages
      ensures Valid() && origins == old(origins)
      ensures tokens.Some? <==> Sum(Needs(old(cache.View()), seqs, Repeat(1, |seqs|))) <= |old(cache.availablePages)|
      ensures tokens.None? ==> emitted == old(emitted) && BatchRows(cache, seqs) == old(BatchRows(cache, seqs))
      ensures tokens.Some? ==> |tokens.value| == |seqs| == |emitted| && nextTokens == tokens.value
                               && forall b :: 0 <= b < |seqs| ==> emitted[b] == old(emitted)[b] + [tokens.value[b]]
    {
      ghost var rows := BatchRows(cache, seqs);
      var ok := PlanStep(rows);
      if !ok { return None; }
      var selected := Step(rows);
      tokens := Some(selected);
    }

    /** Select every row's next token and report the step. */
    method Step(ghost rows: seq<Row>) returns (selected: seq<int>)
      requires Batch(cache, seqs) && Following(rows) && |rows| == |seqs|
      requires BatchRows(cache, seqs) == GrownRows(rows, Repeat(1, |rows|))
      modifies this`nextTokens, this`emitted, cache, cache.sequences, cache.pages
      ensures Valid() && nextTokens == selected && |selected| == |seqs| == |emitted|
      ensures forall b :: 0 <= b < |seqs| ==> emitted[b] == old(emitted)[b] + [selected[b]]
    {
      selected := SelectAll(rows);
      Publish(rows, selected);
    }

    /** One more position for every row, or for none. */
    method PlanStep(ghost rows: seq<Row>) returns (ok: bool)
      requires Batch(cache, seqs) && rows == BatchRows(cache, seqs)
      modifies cache, cache.sequences, cache.pages
      ensures SameBatch(cache, seqs)
      ensures ok <==> Sum(Needs(old(cache.View()), seqs, Repeat(1, |seqs|))) <= |old(cache.availablePages)|
      ensures BatchRows(cache, seqs) == if ok then GrownRows(rows, Repeat(1, |rows|)) else rows
    {
      ok := Reserve(cache, seqs, Repeat(1, |seqs|));
    }

    method SelectAll(ghost rows: seq<Row>) returns (selected: seq<int>)
      requires Batch(cache, seqs) && HasTargets(rows, nextTokens)
      requires BatchRows(cache, seqs) == GrownRows(rows, Repeat(1, |rows|))
      ensures |selected| == |rows|
      ensures forall b :: 0 <= b < |rows| ==> selected[b] == model(Stream(rows[b]))
    {
      selected := [];
      var b := 0;
      while b < |seqs|
        invariant 0 <= b == |selected| <= |seqs|
        invariant forall j :: 0 <= j < b ==> selected[j] == model(Stream(rows[j]))
      {
        var next := SelectOne(rows, b);
        selected := selected + [next];
        b := b + 1;
      }
    }

    method SelectOne(ghost rows: seq<Row>, b: nat) returns (next: int)
      requires Batch(cache, seqs) && HasTargets(rows, nextTokens) && b < |seqs|
      requires BatchRows(cache, seqs) == GrownRows(rows, Repeat(1, |rows|))
      ensures next == model(Stream(rows[b]))
    {
      var row := SelectRow(cache, seqs, b, model, [nextTokens[b]]);
      assert [nextTokens[b]][..1] == [nextTokens[b]];
      next := row[0];
    }

    /** Report the step's inputs and its choices. */
    method ReportStep(ghost rows: seq<Row>, selected: seq<int>)
      requires Batch(cache, seqs) && Following(rows) && |selected| == |seqs| == |rows|
      requires forall b :: 0 <= b < |seqs| ==> selected[b] == model(Stream(rows[b]))
      requires BatchRows(cache, seqs) == GrownRows(rows, Repeat(1, |seqs|))
      modifies cache, cache.sequences, cache.pages
      ensures SameBatch(cache, seqs)
      ensures var rows' := BatchRows(cache, seqs);
              && AllStand(model, rows', origins, Appended(emitted, Singles(selected)))
              && AllCommitted(rows') && HasTargets(rows', selected)
    {
      AllStepStand(model, rows, origins, emitted, nextTokens, selected);
      ReportAll(cache, seqs, Singles(nextTokens), Wrapped(selected));
    }

    method Publish(ghost rows: seq<Row>, selected: seq<int>)
      requires Batch(cache, seqs) && Following(rows) && |selected| == |seqs| == |rows|
      requires forall b :: 0 <= b < |seqs| ==> selected[b] == model(Stream(rows[b]))
      requires BatchRows(cache, seqs) == GrownRows(rows, Repeat(1, |seqs|))
      modifies this`nextTokens, this`emitted, cache, cache.sequences, cache.pages
      ensures Valid() && nextTokens == selected && |emitted| == |seqs|
      ensures forall b :: 0 <= b < |seqs| ==> emitted[b] == old(emitted)[b] + [selected[b]]
    {
      ReportStep(rows, selected);
      Follow(BatchRows(cache, seqs), selected);
    }

    method Follow(ghost rows: seq<Row>, selected: seq<int>)
      requires |emitted| == |selected| && AllStand(model, rows, origins, Appended(emitted, Singles(selected)))
      requires AllCommitted(rows) && HasTargets(rows, selected)
      modifies this`nextTokens, this`emitted
      ensures Following(rows) && nextTokens == selected && |emitted| == |selected|
      ensures forall b :: 0 <= b < |selected| ==> emitted[b] == old(emitted)[b] + [selected[b]]
    {
      nextTokens := selected;
      emitted := Appended(emitted, Singles(selected));
    }
  }

  function Singles(tokens: seq<int>): (r: seq<seq<int>>)
    ensures |r| == |tokens| && forall b :: 0 <= b < |tokens| ==> r[b] == [tokens[b]]
  {
    seq(|tokens|, b requires 0 <= b < |tokens| => [tokens[b]])
  }

  function Wrapped(tokens: seq<int>): (r: seq<Option<int>>)
    ensures |r| == |tokens| && forall b :: 0 <= b < |tokens| ==> r[b] == Some(tokens[b])
  {
    seq(|tokens|, b requires 0 <= b < |tokens| => Some(tokens[b]))
  }

  function Appended(lists: seq<seq<int>>, more: seq<seq<int>>): (r: seq<seq<int>>)
    requires |lists| == |more|
    ensures |r| == |lists| && forall b :: 0 <= b < |lists| ==> r[b] == lists[b] + more[b]
  {
    seq(|lists|, b requires 0 <= b < |lists| => lists[b] + more[b])
  }

  lemma AllStepStand(model: Model, rows: seq<Row>, origins: seq<seq<int>>, dones: seq<seq<int>>, targets: seq<int>, selected: seq<int>)
    requires AllStand(model, rows, origins, dones) && AllCommitted(rows) && HasTargets(rows, targets)
    requires |selected| == |rows| && forall b :: 0 <= b < |rows| ==> selected[b] == model(Stream(rows[b]))
    ensures var rows' := ReportedRows(GrownRows(rows, Repeat(1, |rows|)), Singles(targets), Wrapped(selected));
            && AllStand(model, rows', origins, Appended(dones, Singles(selected)))
            && AllCommitted(rows') && HasTargets(rows', selected)
    ensures var planned := GrownRows(rows, Repeat(1, |rows|));
            TokensFit(planned, Singles(targets))
  {
    var rows' := ReportedRows(GrownRows(rows, Repeat(1, |rows|)), Singles(targets), Wrapped(selected));
    forall b | 0 <= b < |rows|
      ensures Stands(model, rows'[b], origins[b], Appended(dones, Singles(selected))[b]) && Committed(rows'[b])
    {
      StepStands(model, rows[b], rows'[b], origins[b], dones[b], selected[b]);
    }
  }

  // ---------------------------------------------------------------------
  // Drafting and verifying several tokens a step

  /** The row after replaying nothing: its last token is the pending target again. */
  function RewoundRow(r: Row): Row
    requires r.history != []
  {
    Row(r.history[..|r.history| - 1], |r.history| - 1, Some(r.history[|r.history| - 1]))
  }

  /** Committing one verified row: keep acc + 1 reserved positions, report the
      target and the accepted drafts, and wait for the replacement. */
  function CommittedRow(r: Row, inputs: seq<int>, acc: nat, replacement: int): Row
    requires acc < |inputs|
  {
    ReportedRow(CutRow(r, |r.history| + acc + 1), inputs[..acc + 1], Some(replacement))
  }

  lemma CommitStands(model: Model, r: Row, origin: seq<int>, done: seq<int>, inputs: seq<int>, acc: nat, tokens: seq<int>)
    requires Stands(model, r, origin, done) && |inputs| > acc && r.allocLen == |r.history| + |inputs|
    requires r.target == Some(inputs[0]) && |tokens| == acc + 1
    requires tokens == Extend(model, Stream(r), acc + 1)
    requires inputs[..acc + 1] + [tokens[acc]] == inputs[..1] + tokens
    ensures var r' := CommittedRow(r, inputs, acc, tokens[acc]);
            Stands(model, r', origin, done + tokens) && Committed(r')
  {
    var r' := CommittedRow(r, inputs, acc, tokens[acc]);
    var cut := CutRow(r, |r.history| + acc + 1);
    assert cut.history == r.history;
    ExtendSplit(model, origin, |done|, acc + 1);
    calc {
      r'.history + [tokens[acc]];
      r.history + (inputs[..acc + 1] + [tokens[acc]]);
      r.history + (inputs[..1] + tokens);
      { assert inputs[..1] == [r.target.value]; }
      Stream(r) + tokens;
      origin + (done + tokens);
    }
  }
}
