/** Speculative decoding of a batch: draft, verify, commit the accepted prefix and
    roll the rest back (src/glm51_model.ts). */
module MtpDecode {
  import opened Wrappers
  import opened TokenChunks
  import opened PagePool
  import opened PageLaws
  import opened PageStock
  import opened PageTally
  import opened PagedSequence
  import opened SequenceRows
  import opened GreedyStream
  import opened DecodeRuns

  // ---------------------------------------------------------------------
  // Rows

  /** The rows with n positions reserved beyond what is reported. */
  function Holding(rows: seq<Row>, n: nat): (r: seq<Row>)
    ensures |r| == |rows|
    ensures forall b {:trigger r[b]} :: 0 <= b < |rows| ==> r[b] == rows[b].(allocLen := |rows[b].history| + n)
  {
    seq(|rows|, b requires 0 <= b < |rows| => rows[b].(allocLen := |rows[b].history| + n))
  }

  predicate HasLens(rows: seq<Row>, lens: seq<nat>) {
    |lens| == |rows| && forall b {:trigger lens[b]} {:trigger rows[b]} :: 0 <= b < |rows| ==> lens[b] == |rows[b].history|
  }

  lemma HoldMore(rows: seq<Row>, m: nat, n: nat)
    ensures GrownRows(Holding(rows, m), Repeat(n, |rows|)) == Holding(rows, m + n)
    ensures Holding(Holding(rows, m), n) == Holding(rows, n)
  {
  }

  /** Moving the reserved length back, or truncating to it, undoes a reservation. */
  lemma HoldNone(rows: seq<Row>, n: nat, lens: seq<nat>)
    requires HasLens(rows, lens)
    ensures ResizedRows(Holding(rows, n), lens) == Holding(rows, 0)
    ensures CutRows(Holding(rows, n), lens) == Holding(rows, 0)
    ensures LensBehind(Holding(rows, n), lens)
  {
    forall b | 0 <= b < |rows| ensures CutRows(Holding(rows, n), lens)[b] == Holding(rows, 0)[b] {
      var h := rows[b].history;
      assert h[..|h|] == h;
      assert lens[b] == |h|;
    }
  }

  lemma LensUnique(rows: seq<Row>, lens: seq<nat>, kept: seq<nat>)
    requires AllCommitted(rows) && HasLens(rows, kept)
    requires |lens| == |rows| && forall b :: 0 <= b < |rows| ==> lens[b] == rows[b].allocLen
    ensures lens == kept
  {
  }

  lemma CommittedHoldNone(rows: seq<Row>)
    ensures AllCommitted(rows) ==> rows == Holding(rows, 0)
  {
  }

  /** Reserved space does not move a row in its stream. */
  lemma HoldingStands(model: Model, rows: seq<Row>, n: nat, origins: seq<seq<int>>, dones: seq<seq<int>>)
    requires AllStand(model, rows, origins, dones)
    ensures AllStand(model, Holding(rows, n), origins, dones)
    ensures AllCommitted(Holding(rows, 0))
  {
  }

  function RewoundRows(rows: seq<Row>): (r: seq<Row>)
    requires forall b :: 0 <= b < |rows| ==> rows[b].history != []
    ensures |r| == |rows| && forall b :: 0 <= b < |rows| ==> r[b] == RewoundRow(rows[b])
  {
    seq(|rows|, b requires 0 <= b < |rows| => RewoundRow(rows[b]))
  }

  /** Row b of a verified step. */
  ghost predicate Accepted(model: Model, r: Row, inputs: seq<int>, acc: nat, tokens: seq<int>) {
    && inputs != [] && r.target == Some(inputs[0]) && acc < |inputs| && |tokens| == acc + 1
    && LongestAgreement(model, Stream(r), inputs[1..], acc)
    && tokens == Extend(model, Stream(r), acc + 1)
    && inputs[..acc + 1] + [tokens[acc]] == inputs[..1] + tokens
  }

  datatype StepResult = StepResult(tokens: seq<seq<int>>, numAccepted: seq<nat>)

  ghost predicate AllAccepted(model: Model, rows: seq<Row>, inputs: seq<seq<int>>, result: StepResult) {
    && |rows| == |inputs| == |result.tokens| == |result.numAccepted|
    && forall b {:trigger rows[b]} {:trigger result.tokens[b]} :: 0 <= b < |rows| ==>
         Accepted(model, rows[b], inputs[b], result.numAccepted[b], result.tokens[b])
  }

  function WithDrafts(targets: seq<int>, drafts: seq<seq<int>>): (r: seq<seq<int>>)
    requires |targets| == |drafts|
    ensures |r| == |targets| && forall b :: 0 <= b < |r| ==> r[b] == [targets[b]] + drafts[b]
  {
    seq(|targets|, b requires 0 <= b < |targets| => [targets[b]] + drafts[b])
  }

  /** What a step will find, told from the rows and the drafts. */
  ghost function Foreseen(model: Model, rows: seq<Row>, drafts: seq<seq<int>>): (r: StepResult)
    requires AllCommitted(rows) && |drafts| == |rows|
    ensures |r.tokens| == |r.numAccepted| == |rows|
    ensures forall b {:trigger r.numAccepted[b]} :: 0 <= b < |rows| ==>
              r.numAccepted[b] == Agreement(model, Stream(rows[b]), drafts[b])
    ensures forall b {:trigger r.tokens[b]} :: 0 <= b < |rows| ==>
              r.tokens[b] == Extend(model, Stream(rows[b]), r.numAccepted[b] + 1)
  {
    StepResult(
      seq(|rows|, b requires 0 <= b < |rows| => Extend(model, Stream(rows[b]), Agreement(model, Stream(rows[b]), drafts[b]) + 1)),
      seq(|rows|, b requires 0 <= b < |rows| => Agreement(model, Stream(rows[b]), drafts[b])))
  }

  lemma AcceptedForeseen(model: Model, rows: seq<Row>, targets: seq<int>, drafts: seq<seq<int>>, result: StepResult)
    requires AllCommitted(rows) && |targets| == |drafts| == |rows|
    requires AllAccepted(model, rows, WithDrafts(targets, drafts), result)
    ensures result == Foreseen(model, rows, drafts)
  {
    forall b | 0 <= b < |rows|
      ensures result.numAccepted[b] == Agreement(model, Stream(rows[b]), drafts[b])
      ensures result.tokens[b] == Extend(model, Stream(rows[b]), result.numAccepted[b] + 1)
    {
      assert Accepted(model, rows[b], WithDrafts(targets, drafts)[b], result.numAccepted[b], result.tokens[b]);
      assert WithDrafts(targets, drafts)[b][1..] == drafts[b];
      LongestIsAgreement(model, Stream(rows[b]), drafts[b], result.numAccepted[b]);
    }
    assert result.tokens == Foreseen(model, rows, drafts).tokens;
    assert result.numAccepted == Foreseen(model, rows, drafts).numAccepted;
  }

  /** committed length + accepted drafts + the target itself */
  function KeptLens(lens: seq<nat>, result: StepResult): (r: seq<nat>)
    requires |lens| == |result.numAccepted|
    ensures |r| == |lens| && forall b :: 0 <= b < |r| ==> r[b] == lens[b] + result.numAccepted[b] + 1
  {
    seq(|lens|, b requires 0 <= b < |lens| => lens[b] + result.numAccepted[b] + 1)
  }

  function KeptInputs(inputs: seq<seq<int>>, result: StepResult): (r: seq<seq<int>>)
    requires |inputs| == |result.numAccepted|
    requires forall b :: 0 <= b < |inputs| ==> result.numAccepted[b] < |inputs[b]|
    ensures |r| == |inputs| && forall b :: 0 <= b < |r| ==> r[b] == inputs[b][..result.numAccepted[b] + 1]
  {
    seq(|inputs|, b requires 0 <= b < |inputs| => inputs[b][..result.numAccepted[b] + 1])
  }

  /** The last token of each row. */
  ghost predicate AllNonNil(tokens: seq<seq<int>>) {
    forall b {:trigger tokens[b]} :: 0 <= b < |tokens| ==> tokens[b] != []
  }

  function Replacements(tokens: seq<seq<int>>): (r: seq<int>)
    requires AllNonNil(tokens)
    ensures |r| == |tokens| && forall b :: 0 <= b < |r| ==> r[b] == tokens[b][|tokens[b]| - 1]
  {
    seq(|tokens|, b requires 0 <= b < |tokens| => tokens[b][|tokens[b]| - 1])
  }

  ghost predicate Shapes(rows: seq<Row>, inputs: seq<seq<int>>, result: StepResult) {
    && |rows| == |inputs| == |result.tokens| == |result.numAccepted|
    && forall b {:trigger inputs[b]} {:trigger result.tokens[b]} :: 0 <= b < |inputs| ==>
         result.numAccepted[b] < |inputs[b]| && |result.tokens[b]| == result.numAccepted[b] + 1
  }

  /** Truncating and reporting every row commits every row. */
  lemma CommitRows(model: Model, rows: seq<Row>, origins: seq<seq<int>>, dones: seq<seq<int>>, lens: seq<nat>,
                   inputs: seq<seq<int>>, result: StepResult)
    requires AllStand(model, rows, origins, dones) && HasLens(rows, lens)
    requires Shapes(rows, inputs, result) && AllAccepted(model, rows, inputs, result)
    requires forall b {:trigger inputs[b]} :: 0 <= b < |rows| ==> rows[b].allocLen == |rows[b].history| + |inputs[b]|
    ensures var rows' := ReportedRows(CutRows(rows, KeptLens(lens, result)), KeptInputs(inputs, result),
                                      Wrapped(Replacements(result.tokens)));
            && AllStand(model, rows', origins, Appended(dones, result.tokens))
            && AllCommitted(rows') && HasTargets(rows', Replacements(result.tokens)) && HasLens(rows', KeptLens(lens, result))
  {
    var rows' := ReportedRows(CutRows(rows, KeptLens(lens, result)), KeptInputs(inputs, result),
                              Wrapped(Replacements(result.tokens)));
    forall b | 0 <= b < |rows|
      ensures Stands(model, rows'[b], origins[b], dones[b] + result.tokens[b]) && Committed(rows'[b])
      ensures rows'[b].target == Some(Replacements(result.tokens)[b]) && |rows'[b].history| == KeptLens(lens, result)[b]
    {
      var acc := result.numAccepted[b];
      assert inputs[b][..acc + 1] != [];
      assert rows'[b] == CommittedRow(rows[b], inputs[b], acc, result.tokens[b][acc]);
      CommitStands(model, rows[b], origins[b], dones[b], inputs[b], acc, result.tokens[b]);
    }
  }

  /** The verification plan of a step fits after the cut. */
  lemma CutRoom(rows: seq<Row>, lens: seq<nat>, inputs: seq<seq<int>>, result: StepResult)
    requires HasLens(rows, lens) && Shapes(rows, inputs, result)
    requires forall b {:trigger inputs[b]} :: 0 <= b < |rows| ==> rows[b].allocLen == |rows[b].history| + |inputs[b]|
    ensures LensBehind(rows, KeptLens(lens, result))
    ensures TokensFit(CutRows(rows, KeptLens(lens, result)), KeptInputs(inputs, result))
  {
    forall b | 0 <= b < |rows| ensures |rows[b].history| <= KeptLens(lens, result)[b] <= rows[b].allocLen {
      assert rows[b].allocLen == |rows[b].history| + |inputs[b]|;
      assert result.numAccepted[b] < |inputs[b]|;
    }
  }

  // ---------------------------------------------------------------------
  // Pages

  /** The pages of the first n rows once row b reaches lens[b] + m positions. */
  function Wanted(ps: seq<Paged>, lens: seq<nat>, m: nat, size: nat, n: nat): nat
    requires n <= |ps| == |lens| && size > 0
  {
    if n == 0 then 0 else Wanted(ps, lens, m, size, n - 1) + Max(ps[n - 1].pages, PagesFor(lens[n - 1] + m, size))
  }

  ghost predicate Reserved(ps: seq<Paged>, lens: seq<nat>, k: nat) {
    |ps| == |lens| && forall b {:trigger ps[b]} {:trigger lens[b]} :: 0 <= b < |ps| ==> ps[b].row.allocLen == lens[b] + k
  }

  /** Reserving m positions behind k reserved ones takes what k + m want. */
  lemma {:induction false} GrownTotal(ps: seq<Paged>, lens: seq<nat>, k: nat, m: nat, size: nat, n: nat)
    requires Reserved(ps, lens, k) && n <= |ps| && size > 0
    ensures TotalPages(GrownAll(ps, Repeat(m, |ps|), size), n) == Wanted(ps, lens, k + m, size, n)
  {
    if n > 0 { GrownTotal(ps, lens, k, m, size, n - 1); }
  }

  /** It changes nothing about what more positions will want. */
  lemma {:induction false} WantedGrown(ps: seq<Paged>, lens: seq<nat>, k: nat, m: nat, more: nat, size: nat, n: nat)
    requires Reserved(ps, lens, k) && n <= |ps| && size > 0 && k + m <= more
    ensures Wanted(GrownAll(ps, Repeat(m, |ps|), size), lens, more, size, n) == Wanted(ps, lens, more, size, n)
  {
    if n > 0 {
      WantedGrown(ps, lens, k, m, more, size, n - 1);
      PagesForMono(lens[n - 1] + k + m, lens[n - 1] + more, size);
    }
  }

  lemma {:induction false} WantedMono(ps: seq<Paged>, lens: seq<nat>, m: nat, more: nat, size: nat, n: nat)
    requires n <= |ps| == |lens| && size > 0 && m <= more
    ensures Wanted(ps, lens, m, size, n) <= Wanted(ps, lens, more, size, n)
  {
    if n > 0 {
      WantedMono(ps, lens, m, more, size, n - 1);
      PagesForMono(lens[n - 1] + m, lens[n - 1] + more, size);
    }
  }

  /** Rows that change without their pages want what they wanted. */
  lemma {:induction false} WantedWith(ps: seq<Paged>, rows: seq<Row>, lens: seq<nat>, m: nat, size: nat, n: nat)
    requires |rows| == |ps| == |lens| && n <= |ps| && size > 0
    ensures Wanted(WithRows(ps, rows), lens, m, size, n) == Wanted(ps, lens, m, size, n)
    ensures TotalPages(WithRows(ps, rows), n) == TotalPages(ps, n)
  {
    if n > 0 { WantedWith(ps, rows, lens, m, size, n - 1); }
  }

  /** Rows with no more pages than m further positions want. */
  ghost predicate Covered(xs: seq<Paged>, ps: seq<Paged>, lens: seq<nat>, m: nat, size: nat)
    requires size > 0
  {
    && |xs| == |ps| == |lens|
    && forall b {:trigger xs[b]} :: 0 <= b < |ps| ==> xs[b].pages <= Max(ps[b].pages, PagesFor(lens[b] + m, size))
  }

  lemma {:induction false} WantedCovers(xs: seq<Paged>, ps: seq<Paged>, lens: seq<nat>, m: nat, size: nat, n: nat)
    requires size > 0 && Covered(xs, ps, lens, m, size) && n <= |ps|
    ensures TotalPages(xs, n) <= Wanted(xs, lens, m, size, n) <= Wanted(ps, lens, m, size, n)
  {
    if n > 0 {
      WantedCovers(xs, ps, lens, m, size, n - 1);
      assert xs[n - 1].pages <= Max(ps[n - 1].pages, PagesFor(lens[n - 1] + m, size));
    }
  }

  lemma {:induction false} TotalWith(ps: seq<Paged>, rows: seq<Row>, n: nat)
    requires |rows| == |ps| && n <= |ps|
    ensures TotalPages(WithRows(ps, rows), n) == TotalPages(ps, n)
  {
    if n > 0 { TotalWith(ps, rows, n - 1); }
  }

  lemma {:induction false} SumRepeat(m: nat, k: nat)
    ensures Sum(Repeat(m, k)) == Times(k, m)
  {
    if k > 0 {
      assert Repeat(m, k)[1..] == Repeat(m, k - 1);
      SumRepeat(m, k - 1);
    }
  }

  lemma {:induction false} TimesGrows(k: nat, m: nat, more: nat)
    requires m <= more
    ensures Times(k, m) <= Times(k, more)
  {
    if k > 0 { TimesGrows(k - 1, m, more); }
  }

  // ---------------------------------------------------------------------
  // The generator

  /** The workspace takes these inputs, and the pages for them are there, attached or free. */
  ghost predicate Plannable(ps: seq<Paged>, lens: seq<nat>, maxSeqLen: nat, size: nat, budget: int)
    requires |ps| == |lens| && size > 0
  {
    Sum(lens) <= maxSeqLen && TotalPages(GrownAll(ps, lens, size), |ps|) <= budget
  }

  /** The pages of a batch of cut rows and the free ones, told from the cache before. */
  ghost function CutStock<S, P>(pool: Pool<S, P>, seqs: seq<S>, cuts: seq<nat>): int
    requires Listed(pool, seqs, cuts)
  {
    FreeAfter(pool, seqs, cuts, |seqs|) + TotalPages(CutAll(PagedRows(pool, seqs), cuts, pool.pageSize), |seqs|)
  }

  /** The batch can be cut to `cuts` and grown by `lens` from there: no cut runs out of
      pages, the workspace takes the inputs, and the pages for them are there then. */
  ghost predicate CutPlannable<S, P>(pool: Pool<S, P>, seqs: seq<S>, cuts: seq<nat>, lens: seq<nat>, maxSeqLen: nat) {
    && Listed(pool, seqs, cuts) && |lens| == |seqs| && CutsFit(pool, seqs, cuts, |seqs|)
    && Plannable(CutAll(PagedRows(pool, seqs), cuts, pool.pageSize), lens, maxSeqLen, pool.pageSize, CutStock(pool, seqs, cuts))
  }

  lemma CutHolds(cache: PageCache, seqs: seq<Sequence>, start: Pool<Sequence, Page>, first: seq<Paged>, cuts: seq<nat>)
    requires AllCut(cache, seqs, start, first, cuts) && cache.pageSize == start.pageSize && first == PagedRows(start, seqs)
    ensures BatchPaged(cache, seqs) == CutAll(first, cuts, cache.pageSize)
    ensures |cache.availablePages| + TotalPages(BatchPaged(cache, seqs), |seqs|) == CutStock(start, seqs, cuts)
  {
  }

  function LensOf(rows: seq<Row>): (r: seq<nat>)
    ensures |r| == |rows| && forall b {:trigger r[b]} :: 0 <= b < |r| ==> r[b] == |rows[b].history|
  {
    seq(|rows|, b requires 0 <= b < |rows| => |rows[b].history|)
  }

  /** Every row's length, less one token. */
  function Shorter(rows: seq<Row>): (r: seq<nat>)
    ensures |r| == |rows| && forall b {:trigger r[b]} :: 0 <= b < |r| ==> r[b] == Max(0, rows[b].allocLen - 1)
  {
    seq(|rows|, b requires 0 <= b < |rows| => Max(0, rows[b].allocLen - 1))
  }

  /** The rows as they were, on the pages left when they are cut and grown by one again. */
  function Restarted(ps: seq<Paged>, cuts: seq<nat>, size: nat): seq<Paged>
    requires |cuts| == |ps| && size > 0
  {
    WithRows(GrownAll(CutAll(ps, cuts, size), Repeat(1, |ps|), size), Bare(ps))
  }

  /** No plan of these inputs can be made now. */
  ghost predicate NoPlan(cache: PageCache, seqs: seq<Sequence>, lens: seq<nat>, maxSeqLen: nat)
    reads cache, cache.sequences, cache.pages
  {
    && Batch(cache, seqs) && |lens| == |seqs|
    && !Plannable(BatchPaged(cache, seqs), lens, maxSeqLen, cache.pageSize,
                  |cache.availablePages| + TotalPages(BatchPaged(cache, seqs), |seqs|))
  }

  /** The rows with their pages, and how many pages they and the free list have. */
  ghost predicate HeldBy(cache: PageCache, seqs: seq<Sequence>, ps: seq<Paged>, budget: nat)
    reads cache, cache.sequences, cache.pages
  {
    Batch(cache, seqs) && BatchPaged(cache, seqs) == ps && Stocked(cache, ps, budget)
  }

  method CountTokens(lens: seq<nat>) returns (totalTokens: nat)
    ensures totalTokens == Sum(lens)
  {
    totalTokens := 0;
    var b := 0;
    while b < |lens|
      invariant 0 <= b <= |lens| && totalTokens + Sum(lens[b..]) == Sum(lens)
    {
      assert lens[b..][1..] == lens[b + 1..];
      totalTokens := totalTokens + lens[b];
      b := b + 1;
    }
  }

  /** planPrefill: refuse more inputs than the workspace takes, then reserve. */
  method Plan(cache: PageCache, seqs: seq<Sequence>, lens: seq<nat>, maxSeqLen: nat, ghost ps: seq<Paged>, ghost budget: nat)
      returns (ok: bool)
    requires HeldBy(cache, seqs, ps, budget) && |lens| == |seqs|
    modifies cache, cache.sequences, cache.pages
    ensures SameBatch(cache, seqs) && KeepsPrivate(old(cache.View()), cache.View())
    ensures |ps| == |seqs| && (ok <==> Plannable(ps, lens, maxSeqLen, cache.pageSize, budget))
    ensures HeldBy(cache, seqs, if ok then GrownAll(ps, lens, cache.pageSize) else ps, budget)
    ensures BatchRows(cache, seqs)
         == if ok then GrownRows(old(BatchRows(cache, seqs)), lens) else old(BatchRows(cache, seqs))
  {
    var totalTokens := CountTokens(lens);
    if totalTokens > maxSeqLen { return false; }
    ok := Reserve(cache, seqs, lens);
  }

  class MtpGenerator {
    const cache: PageCache
    const seqs: seq<Sequence>
    const model: Model
    const numDraftTokens: nat
    const maxSeqLen: nat
    var nextTargets: seq<int>
    var committedLens: seq<nat>
    var speculative: bool
    var pending: Option<StepResult>
    ghost var origins: seq<seq<int>>     // per row, history and target at the start
    ghost var committed: seq<seq<int>>   // per row, the tokens committed since

    constructor (cache: PageCache, seqs: seq<Sequence>, model: Model, numDraftTokens: nat, maxSeqLen: nat)
      ensures this.cache == cache && this.seqs == seqs && this.model == model
      ensures this.numDraftTokens == numDraftTokens && this.maxSeqLen == maxSeqLen
    {
      this.cache, this.seqs, this.model := cache, seqs, model;
      this.numDraftTokens, this.maxSeqLen := numDraftTokens, maxSeqLen;
      nextTargets, committedLens, speculative, pending := [], [], false, None;
      origins, committed := [], [];
    }

    /** Every row, whatever it has reserved, stands at the tokens committed so far. */
    ghost predicate Following(rows: seq<Row>)
      reads this
    {
      AllStand(model, rows, origins, committed) && HasTargets(rows, nextTargets) && HasLens(rows, committedLens)
    }

    /** The committed rows, each with n reserved positions in flight. */
    ghost predicate Flying(rows: seq<Row>, n: nat)
      reads this, cache, cache.sequences, cache.pages
    {
      Batch(cache, seqs) && Following(rows) && AllCommitted(rows) && BatchRows(cache, seqs) == Holding(rows, n)
    }

    /** Roll an unfinished step back (the finally block). */
    method Close(ghost rows: seq<Row>, ghost n: nat)
      requires Flying(rows, n) && (speculative || n == 0)
      modifies cache, cache.sequences, cache.pages
      ensures SameBatch(cache, seqs) && Flying(rows, 0) && BatchRows(cache, seqs) == rows
    {
      HoldNone(rows, n, committedLens);
      CommittedHoldNone(rows);
      if speculative {
        TruncateBehind(cache, seqs, committedLens);
      }
    }

    /** The workspace takes the verification inputs of every row, and the pages for
        `ahead` positions behind each are there, attached (as in ps) or free. */
    ghost predicate Capable(ps: seq<Paged>, lens: seq<nat>, ahead: nat, budget: nat) {
      && |ps| == |lens| == |seqs| && Times(|seqs|, numDraftTokens + 1) <= maxSeqLen
      && Wanted(ps, lens, ahead, cache.pageSize, |ps|) <= budget
    }

    /** The same once this step is committed: the pages that stay with the accepted
        prefixes and those that become free count. */
    ghost predicate Prospect(ps: seq<Paged>, lens: seq<nat>, step: StepResult, ahead: nat, budget: nat) {
      && |ps| == |lens| == |step.numAccepted|
      && Capable(CutAll(ps, KeptLens(lens, step), cache.pageSize), KeptLens(lens, step), ahead, budget)
    }

    ghost predicate Held(ps: seq<Paged>, budget: nat)
      reads cache, cache.sequences, cache.pages
    {
      HeldBy(cache, seqs, ps, budget)
    }

    ghost predicate CanVerify(ahead: nat)
      reads this, cache, cache.sequences, cache.pages
    {
      && Batch(cache, seqs)
      && Capable(BatchPaged(cache, seqs), committedLens, ahead, |cache.availablePages| + TotalPages(BatchPaged(cache, seqs), |seqs|))
    }

    /** In flight, with or without what the verification plan needs. */
    ghost predicate Aloft(rows: seq<Row>, n: nat, ahead: nat, can: bool)
      reads this, cache, cache.sequences, cache.pages
    {
      Flying(rows, n) && CanVerify(ahead) == can
    }

    lemma FlyingReserved(rows: seq<Row>, n: nat)
      requires Flying(rows, n)
      ensures Reserved(BatchPaged(cache, seqs), committedLens, n)
    {
      BarePaged(cache, seqs);
      forall b | 0 <= b < |seqs| ensures BatchPaged(cache, seqs)[b].row.allocLen == committedLens[b] + n {
        assert Bare(BatchPaged(cache, seqs))[b] == Holding(rows, n)[b];
      }
    }

    /** Reserving m more positions takes nothing from what `ahead` positions need. */
    lemma StaysCapable(ps: seq<Paged>, n: nat, m: nat, ahead: nat, budget: nat)
      requires Reserved(ps, committedLens, n) && |ps| == |seqs| && n + m <= ahead
      ensures Capable(GrownAll(ps, Repeat(m, |ps|), cache.pageSize), committedLens, ahead, budget)
           == Capable(ps, committedLens, ahead, budget)
    {
      WantedGrown(ps, committedLens, n, m, ahead, cache.pageSize, |ps|);
    }

    /** A plan of m positions fits whenever `ahead` positions would, and only then if it
        is the verification's and looks no further ahead. */
    lemma Forecast(ps: seq<Paged>, n: nat, m: nat, ahead: nat, budget: nat)
      requires Reserved(ps, committedLens, n) && |ps| == |seqs| && n + m <= ahead && m <= numDraftTokens + 1
      ensures Capable(ps, committedLens, ahead, budget) ==> PlanFits(ps, m, budget)
      ensures m == numDraftTokens + 1 == ahead && PlanFits(ps, m, budget) ==> Capable(ps, committedLens, ahead, budget)
    {
      SumRepeat(m, |ps|);
      TimesGrows(|ps|, m, numDraftTokens + 1);
      GrownTotal(ps, committedLens, n, m, cache.pageSize, |ps|);
      WantedMono(ps, committedLens, n + m, ahead, cache.pageSize, |ps|);
    }

    ghost predicate PlanFits(ps: seq<Paged>, m: nat, budget: int) {
      Plannable(ps, Repeat(m, |ps|), maxSeqLen, cache.pageSize, budget)
    }

    /** Reserve m more positions in every row, all or none. It never fails while the
        verification could still be planned. */
    method PlanMore(ghost rows: seq<Row>, ghost n: nat, m: nat, ghost ahead: nat, ghost can: bool) returns (ok: bool, ghost held: nat)
      requires Aloft(rows, n, ahead, can) && n + m <= numDraftTokens + 1 <= ahead
      modifies cache, cache.sequences, cache.pages
      ensures SameBatch(cache, seqs) && Aloft(rows, held, ahead, can) && held == (if ok then n + m else n)
      ensures !ok ==> !can
      ensures m == numDraftTokens + 1 == ahead && ok ==> can
    {
      HoldMore(rows, n, m);
      FlyingReserved(rows, n);
      ghost var ps, budget := BatchPaged(cache, seqs), |cache.availablePages| + TotalPages(BatchPaged(cache, seqs), |seqs|);
      Forecast(ps, n, m, ahead, budget);
      StaysCapable(ps, n, m, ahead, budget);
      ok := PlanPositions(m, ps, budget);
      held := if ok then n + m else n;
    }

    method PlanPositions(m: nat, ghost ps: seq<Paged>, ghost budget: nat) returns (ok: bool)
      requires Held(ps, budget)
      modifies cache, cache.sequences, cache.pages
      ensures SameBatch(cache, seqs)
      ensures BatchRows(cache, seqs)
           == if ok then GrownRows(old(BatchRows(cache, seqs)), Repeat(m, |seqs|)) else old(BatchRows(cache, seqs))
      ensures |ps| == |seqs| && (ok <==> PlanFits(ps, m, budget))
      ensures Held(if ok then GrownAll(ps, Repeat(m, |ps|), cache.pageSize) else ps, budget)
    {
      ok := Plan(cache, seqs, Repeat(m, |seqs|), maxSeqLen, ps, budget);
    }

    /** Draft and verification plans start at the same committed boundary. */
    method Unreserve(ghost rows: seq<Row>, ghost n: nat, ghost ahead: nat, ghost can: bool)
      requires Aloft(rows, n, ahead, can)
      modifies cache, cache.sequences, cache.pages
      ensures SameBatch(cache, seqs) && Aloft(rows, 0, ahead, can)
    {
      HoldNone(rows, n, committedLens);
      WantedWith(BatchPaged(cache, seqs), ResizedRows(BatchRows(cache, seqs), committedLens), committedLens,
                 ahead, cache.pageSize, |seqs|);
      ResizeAll(cache, seqs, committedLens);
    }

    /** One plan of one position per row for every draft but the last. */
    method PlanDrafts(ghost rows: seq<Row>, ghost ahead: nat, ghost can: bool) returns (ok: bool, ghost n: nat)
      requires Aloft(rows, 0, ahead, can) && 1 <= numDraftTokens < ahead
      modifies cache, cache.sequences, cache.pages
      ensures SameBatch(cache, seqs) && Aloft(rows, n, ahead, can)
      ensures !ok ==> !can
    {
      n := 0;
      var depth := 1;
      while depth < numDraftTokens
        invariant 1 <= depth <= numDraftTokens && n == depth - 1
        invariant SameBatch(cache, seqs) && Aloft(rows, n, ahead, can)
      {
        ok, n := PlanMore(rows, n, 1, ahead, can);
        if !ok { return; }
        depth := depth + 1;
      }
      ok := true;
    }

    /** Submit a step: the draft plans and the verification plan, rolled back when one of
        them fails. They succeed iff the workspace takes the verification inputs and the
        pages for them are there; the drafts never need more. */
    method Submit(ghost rows: seq<Row>, ghost ahead: nat, ghost can: bool) returns (ok: bool)
      requires Aloft(rows, 0, ahead, can) && 1 <= numDraftTokens < ahead
      modifies this`speculative, cache, cache.sequences, cache.pages
      ensures SameBatch(cache, seqs) && speculative
      ensures (can ==> ok) && (ahead == numDraftTokens + 1 && ok ==> can)
      ensures ok ==> Aloft(rows, numDraftTokens + 1, ahead, can)
      ensures !ok ==> Flying(rows, 0)
    {
      MarkSpeculative(rows, ahead, can);
      ok := PlanOrClose(rows, ahead, can);
    }

    method PlanOrClose(ghost rows: seq<Row>, ghost ahead: nat, ghost can: bool) returns (ok: bool)
      requires Aloft(rows, 0, ahead, can) && 1 <= numDraftTokens < ahead && speculative
      modifies cache, cache.sequences, cache.pages
      ensures SameBatch(cache, seqs)
      ensures (can ==> ok) && (ahead == numDraftTokens + 1 && ok ==> can)
      ensures ok ==> Aloft(rows, numDraftTokens + 1, ahead, can)
      ensures !ok ==> Flying(rows, 0)
    {
      ghost var n;
      ok, n := PlanStep(rows, ahead, can);
      if !ok { Close(rows, n); }
    }

    method PlanStep(ghost rows: seq<Row>, ghost ahead: nat, ghost can: bool) returns (ok: bool, ghost n: nat)
      requires Aloft(rows, 0, ahead, can) && 1 <= numDraftTokens < ahead
      modifies cache, cache.sequences, cache.pages
      ensures SameBatch(cache, seqs) && Aloft(rows, n, ahead, can) && (ok ==> n == numDraftTokens + 1)
      ensures (can ==> ok) && (ahead == numDraftTokens + 1 && ok ==> can)
    {
      ok, n := PlanDrafts(rows, ahead, can);
      if ok {
        ok, n := PlanVerification(rows, n, ahead, can);
      }
    }

    method MarkSpeculative(ghost rows: seq<Row>, ghost ahead: nat, ghost can: bool)
      requires Aloft(rows, 0, ahead, can)
      modifies this`speculative
      ensures speculative && Aloft(rows, 0, ahead, can)
    {
      speculative := true;
    }

    method PlanVerification(ghost rows: seq<Row>, ghost n: nat, ghost ahead: nat, ghost can: bool) returns (ok: bool, ghost m: nat)
      requires Aloft(rows, n, ahead, can) && numDraftTokens < ahead
      modifies cache, cache.sequences, cache.pages
      ensures SameBatch(cache, seqs) && Aloft(rows, m, ahead, can) && (ok ==> m == numDraftTokens + 1)
      ensures (can ==> ok) && (ahead == numDraftTokens + 1 && ok ==> can)
    {
      Unreserve(rows, n, ahead, can);
      ok, m := PlanMore(rows, 0, numDraftTokens + 1, ahead, can);
    }

    /** Run the verification pass and the acceptance loop over the batch. */
    method VerifyAll(ghost rows: seq<Row>, inputs: seq<seq<int>>) returns (result: StepResult)
      requires Flying(rows, numDraftTokens + 1) && |inputs| == |rows|
      requires forall b {:trigger inputs[b]} :: 0 <= b < |inputs| ==> inputs[b] != [] && inputs[b][0] == nextTargets[b]
      ensures AllAccepted(model, rows, inputs, result)
    {
      var tokens: seq<seq<int>>, numAccepted: seq<nat> := [], [];
      var b := 0;
      while b < |seqs|
        invariant 0 <= b == |tokens| == |numAccepted| <= |seqs|
        invariant forall j {:trigger tokens[j]} :: 0 <= j < b ==> Accepted(model, rows[j], inputs[j], numAccepted[j], tokens[j])
      {
        var acc, emitted := VerifyRow(rows, b, inputs[b]);
        tokens, numAccepted := tokens + [emitted], numAccepted + [acc];
        b := b + 1;
      }
      result := StepResult(tokens, numAccepted);
    }

    method VerifyRow(ghost rows: seq<Row>, b: nat, inputs: seq<int>) returns (acc: nat, tokens: seq<int>)
      requires Flying(rows, numDraftTokens + 1) && b < |rows| && inputs != [] && inputs[0] == nextTargets[b]
      ensures Accepted(model, rows[b], inputs, acc, tokens)
    {
      var selected := SelectRow(cache, seqs, b, model, inputs);
      assert rows[b].target == Some(nextTargets[b]) && inputs[..1] == [nextTargets[b]];
      acc, tokens := AcceptRow(model, rows[b].history, inputs, selected);
    }

    /** Truncate every row to its accepted prefix and report the inputs kept. */
    method Commit(ghost rows: seq<Row>, inputs: seq<seq<int>>, result: StepResult,
                  ghost ps: seq<Paged>, ghost ahead: nat, ghost budget: nat) returns (ghost ps': seq<Paged>)
      requires Flying(rows, numDraftTokens + 1) && |inputs| == |rows| && Held(ps, budget)
      requires forall b {:trigger inputs[b]} :: 0 <= b < |inputs| ==> |inputs[b]| == numDraftTokens + 1
      requires AllAccepted(model, rows, inputs, result)
      modifies cache, cache.sequences, cache.pages
      ensures SameBatch(cache, seqs)
      ensures Landing(BatchRows(cache, seqs), result, KeptLens(committedLens, result))
      ensures Held(ps', budget)
      ensures Capable(ps', KeptLens(committedLens, result), ahead, budget) == Prospect(ps, committedLens, result, ahead, budget)
    {
      ghost var flying := Holding(rows, numDraftTokens + 1);
      FlyingRows(rows, inputs, result);
      CutRoom(flying, committedLens, inputs, result);
      CommitRows(model, flying, origins, committed, committedLens, inputs, result);
      ps' := CutAndReport(flying, KeptLens(committedLens, result), KeptInputs(inputs, result), Replacements(result.tokens), ps, ahead, budget);
    }

    /** The two loops that end a step; no page is lost. */
    method CutAndReport(ghost rows: seq<Row>, lens: seq<nat>, tokens: seq<seq<int>>, targets: seq<int>,
                        ghost ps: seq<Paged>, ghost ahead: nat, ghost budget: nat) returns (ghost ps': seq<Paged>)
      requires Held(ps, budget) && BatchRows(cache, seqs) == rows && |lens| == |tokens| == |targets| == |seqs|
      requires LensBehind(rows, lens) && TokensFit(CutRows(rows, lens), tokens)
      modifies cache, cache.sequences, cache.pages
      ensures SameBatch(cache, seqs)
      ensures BatchRows(cache, seqs) == ReportedRows(CutRows(rows, lens), tokens, Wrapped(targets))
      ensures |ps| == |seqs| && Held(ps', budget)
      ensures Capable(ps', lens, ahead, budget) == Capable(CutAll(ps, lens, cache.pageSize), lens, ahead, budget)
    {
      ghost var cut := CutAll(ps, lens, cache.pageSize);
      ps' := WithRows(cut, ReportedRows(CutRows(rows, lens), tokens, Wrapped(targets)));
      StaysCapableWith(cut, ReportedRows(CutRows(rows, lens), tokens, Wrapped(targets)), lens, ahead, budget);
      TruncateBehind(cache, seqs, lens);
      ReportAll(cache, seqs, tokens, Wrapped(targets));
    }

    lemma StaysCapableWith(ps: seq<Paged>, rows: seq<Row>, lens: seq<nat>, ahead: nat, budget: nat)
      requires |ps| == |rows| == |lens| == |seqs|
      ensures Capable(WithRows(ps, rows), lens, ahead, budget) == Capable(ps, lens, ahead, budget)
      ensures TotalPages(WithRows(ps, rows), |ps|) == TotalPages(ps, |ps|)
    {
      WantedWith(ps, rows, lens, ahead, cache.pageSize, |ps|);
    }

    lemma FlyingRows(rows: seq<Row>, inputs: seq<seq<int>>, result: StepResult)
      requires Following(rows) && |inputs| == |rows| && AllAccepted(model, rows, inputs, result)
      requires forall b {:trigger inputs[b]} :: 0 <= b < |inputs| ==> |inputs[b]| == numDraftTokens + 1
      ensures var flying := Holding(rows, numDraftTokens + 1);
              && AllStand(model, flying, origins, committed) && HasLens(flying, committedLens)
              && Shapes(flying, inputs, result) && AllAccepted(model, flying, inputs, result)
              && forall b {:trigger inputs[b]} :: 0 <= b < |rows| ==> flying[b].allocLen == |flying[b].history| + |inputs[b]|
    {
      HoldingStands(model, rows, numDraftTokens + 1, origins, committed);
      var flying := Holding(rows, numDraftTokens + 1);
      forall b | 0 <= b < |rows|
        ensures Accepted(model, flying[b], inputs[b], result.numAccepted[b], result.tokens[b])
      {
        assert Accepted(model, rows[b], inputs[b], result.numAccepted[b], result.tokens[b]);
        assert Stream(flying[b]) == Stream(rows[b]);
      }
    }

    /** Finish the step in flight, whose drafts are given. */
    method Accept(ghost rows: seq<Row>, drafts: seq<seq<int>>, ghost ps: seq<Paged>, ghost ahead: nat, ghost budget: nat)
        returns (ghost rows': seq<Row>, ghost can: bool)
      requires Flying(rows, numDraftTokens + 1) && WellDrafted(drafts) && Held(ps, budget)
      modifies this, cache, cache.sequences, cache.pages
      ensures SameBatch(cache, seqs) && !speculative && origins == old(origins)
      ensures rows' == BatchRows(cache, seqs) && Aloft(rows', 0, ahead, can)
      ensures pending.Some? && AllAccepted(model, rows, WithDrafts(old(nextTargets), drafts), pending.value)
      ensures committed == Appended(old(committed), pending.value.tokens)
      ensures pending.value == Foreseen(model, rows, drafts)
      ensures can == Prospect(ps, old(committedLens), pending.value, ahead, budget)
    {
      var inputs := WithDrafts(nextTargets, drafts);
      DraftedInputs(inputs, drafts);
      var result := VerifyAll(rows, inputs);
      AcceptedForeseen(model, rows, nextTargets, drafts, result);
      can := Prospect(ps, committedLens, result, ahead, budget);
      rows' := CommitStep(rows, inputs, result, ps, budget, ahead, can);
    }

    lemma DraftedInputs(inputs: seq<seq<int>>, drafts: seq<seq<int>>)
      requires WellDrafted(drafts) && |nextTargets| == |seqs| && inputs == WithDrafts(nextTargets, drafts)
      ensures forall b {:trigger inputs[b]} :: 0 <= b < |inputs| ==>
                |inputs[b]| == numDraftTokens + 1 && inputs[b][0] == nextTargets[b]
    {
    }

    method CommitStep(ghost rows: seq<Row>, inputs: seq<seq<int>>, result: StepResult,
                      ghost ps: seq<Paged>, ghost budget: nat, ghost ahead: nat, ghost can: bool)
        returns (ghost rows': seq<Row>)
      requires Flying(rows, numDraftTokens + 1) && |inputs| == |rows| && Held(ps, budget)
      requires forall b {:trigger inputs[b]} :: 0 <= b < |inputs| ==> |inputs[b]| == numDraftTokens + 1
      requires AllAccepted(model, rows, inputs, result) && can == Prospect(ps, committedLens, result, ahead, budget)
      modifies this, cache, cache.sequences, cache.pages
      ensures SameBatch(cache, seqs) && !speculative && origins == old(origins)
      ensures rows' == BatchRows(cache, seqs) && Aloft(rows', 0, ahead, can)
      ensures pending == Some(result) && committed == Appended(old(committed), result.tokens)
    {
      ghost var kept := KeptLens(committedLens, result);
      ghost var ps' := Commit(rows, inputs, result, ps, ahead, budget);
      rows' := BatchRows(cache, seqs);
      Land(rows', result, kept, ps', budget, ahead, can);
    }

    method Land(ghost rows: seq<Row>, result: StepResult, ghost kept: seq<nat>,
                ghost ps: seq<Paged>, ghost budget: nat, ghost ahead: nat, ghost can: bool)
      requires Landing(rows, result, kept)
      requires Held(ps, budget) && Capable(ps, kept, ahead, budget) == can
      modifies this
      ensures !speculative && pending == Some(result) && origins == old(origins)
      ensures committed == Appended(old(committed), result.tokens)
      ensures Aloft(rows, 0, ahead, can)
    {
      Advance(rows, result, kept);
      Alights(rows, ps, budget, ahead, can);
    }

    /** The committed rows of a step, before the generator's own fields follow. */
    ghost predicate Landing(rows: seq<Row>, result: StepResult, kept: seq<nat>)
      reads this, cache, cache.sequences, cache.pages
    {
      && Batch(cache, seqs) && rows == BatchRows(cache, seqs) && AllCommitted(rows)
      && |committed| == |result.tokens| && AllNonNil(result.tokens)
      && AllStand(model, rows, origins, Appended(committed, result.tokens))
      && HasTargets(rows, Replacements(result.tokens)) && HasLens(rows, kept)
    }

    lemma Alights(rows: seq<Row>, ps: seq<Paged>, budget: nat, ahead: nat, can: bool)
      requires Flying(rows, 0) && Held(ps, budget) && Capable(ps, committedLens, ahead, budget) == can
      ensures Aloft(rows, 0, ahead, can)
    {
    }

    method Advance(ghost rows: seq<Row>, result: StepResult, ghost kept: seq<nat>)
      requires Landing(rows, result, kept)
      modifies this
      ensures !speculative && pending == Some(result) && origins == old(origins)
      ensures committed == Appended(old(committed), result.tokens)
      ensures Flying(rows, 0) && committedLens == kept
    {
      var lens := AllocLens(cache, seqs);
      CommittedHoldNone(rows);
      LensUnique(rows, lens, kept);
      SetState(rows, Replacements(result.tokens), lens, Some(result), origins, Appended(committed, result.tokens));
    }

    /** The fields a committed step leaves behind. */
    method SetState(ghost rows: seq<Row>, targets: seq<int>, lens: seq<nat>, step: Option<StepResult>,
                    ghost starts: seq<seq<int>>, ghost done: seq<seq<int>>)
      requires AllStand(model, rows, starts, done) && HasTargets(rows, targets) && HasLens(rows, lens)
      modifies this
      ensures Following(rows) && !speculative && pending == step && origins == starts && committed == done
      ensures committedLens == lens
    {
      nextTargets, committedLens, speculative, pending := targets, lens, false, step;
      origins, committed := starts, done;
    }

    ghost predicate WellDrafted(drafts: seq<seq<int>>) {
      |drafts| == |seqs| && forall b {:trigger drafts[b]} :: 0 <= b < |drafts| ==> |drafts[b]| == numDraftTokens
    }

    /** From one yield to the next: finish the step in flight, submit another, and
        only then yield the finished one. The submission fails iff the workspace or the
        pages do not suffice for another verification; the finished step is then
        committed but never yielded, and the generator is closed. With pages for
        `ahead` positions the submission succeeds, and they are still there. */
    method Next(ghost rows: seq<Row>, drafts: seq<seq<int>>, ghost ps: seq<Paged>, ghost ahead: nat, ghost budget: nat)
        returns (result: Option<StepResult>, ghost rows': seq<Row>)
      requires Flying(rows, numDraftTokens + 1) && 1 <= numDraftTokens < ahead && WellDrafted(drafts) && Held(ps, budget)
      modifies this, cache, cache.sequences, cache.pages
      ensures SameBatch(cache, seqs) && speculative && origins == old(origins)
      ensures Flying(rows', if result.Some? then numDraftTokens + 1 else 0)
      ensures var step := Foreseen(model, rows, drafts);
              && (if result.Some? then result else pending) == Some(step)
              && AllAccepted(model, rows, WithDrafts(old(nextTargets), drafts), step)
              && committed == Appended(old(committed), step.tokens)
              && (Prospect(ps, old(committedLens), step, ahead, budget) ==> result.Some? && CanVerify(ahead))
              && (ahead == numDraftTokens + 1 && result.Some? ==> Prospect(ps, old(committedLens), step, ahead, budget))
    {
      ghost var can;
      rows', can := Accept(rows, drafts, ps, ahead, budget);
      result := SubmitStep(rows', ahead, can);
    }

    method SubmitStep(ghost rows: seq<Row>, ghost ahead: nat, ghost can: bool) returns (result: Option<StepResult>)
      requires Aloft(rows, 0, ahead, can) && 1 <= numDraftTokens < ahead && pending.Some?
      modifies this`speculative, this`pending, cache, cache.sequences, cache.pages
      ensures SameBatch(cache, seqs) && speculative
      ensures (can ==> result.Some?) && (ahead == numDraftTokens + 1 && result.Some? ==> can)
      ensures if result.Some? then result == old(pending) && Aloft(rows, numDraftTokens + 1, ahead, can)
              else pending == old(pending) && Flying(rows, 0)
    {
      var ok := Submit(rows, ahead, can);
      result := if ok then pending else None;
      if ok { ClearPending(rows, ahead, can); }
    }

    method ClearPending(ghost rows: seq<Row>, ghost ahead: nat, ghost can: bool)
      requires Aloft(rows, numDraftTokens + 1, ahead, can)
      modifies this`pending
      ensures Aloft(rows, numDraftTokens + 1, ahead, can)
    {
      pending := None;
    }

    // -------------------------------------------------------------------
    // Startup

    /** Startup needs a committed, non-empty history and a target in every row. */
    ghost predicate CanStart(rows: seq<Row>) {
      seqs != [] && numDraftTokens >= 1 && AllCommitted(rows) && AllNonEmpty(rows)
    }

    /** The last token of every row can be taken back and planned again, as told from the
        cache before. */
    ghost predicate CanReplay(pool: Pool<Sequence, Page>, rows: seq<Row>) {
      CutPlannable(pool, seqs, Shorter(rows), Repeat(1, |seqs|), maxSeqLen)
    }

    /** The end of a startup from these rows: back at the rows, or stopped at the first row
        without a page for its copy, or one token short with no plan to be had. */
    ghost predicate Reconditioned(pool: Pool<Sequence, Page>, rows: seq<Row>, status: StartStatus, at: nat)
      reads this, cache, cache.sequences, cache.pages
    {
      && Listed(pool, seqs, Shorter(rows))
      && (status == Started <==> CanReplay(pool, rows))
      && (status == NoCopyPage <==> !CutsFit(pool, seqs, Shorter(rows), |seqs|))
      && (status == Started ==> Begun(rows) && cache.pageSize == pool.pageSize && Replayed(pool, Shorter(rows)))
      && (status == NoRoom ==> Short(rows))
      && (status == NoCopyPage ==> CutsStopped(cache, seqs, pool, rows, Shorter(rows), at))
    }

    /** The rows have the pages of their lengths, and the others are free. */
    ghost predicate Replayed(pool: Pool<Sequence, Page>, cuts: seq<nat>)
      requires Listed(pool, seqs, cuts) && cache.pageSize == pool.pageSize
      reads cache, cache.sequences, cache.pages
    {
      CutStock(pool, seqs, cuts) >= 0 && Held(Restarted(PagedRows(pool, seqs), cuts, cache.pageSize), CutStock(pool, seqs, cuts))
    }

    /** Check the batch, rewind every row by one token, plan that token again, and
        report it with the target the caller had published. It succeeds iff the batch is
        ready, no rewind runs out of pages for its copy, and the pages for the last tokens
        are there after the rewinds; all of it is decided by the state before. */
    method Start(ghost rows: seq<Row>, ghost start: Pool<Sequence, Page>) returns (status: StartStatus, ghost at: nat)
      requires Batch(cache, seqs) && rows == BatchRows(cache, seqs) && start == cache.View()
      modifies this, cache, cache.sequences, cache.pages
      ensures cache.sequences == old(cache.sequences) && fresh(cache.pages - old(cache.pages))
      ensures status == NotReady <==> !CanStart(rows)
      ensures status == NotReady ==> Batch(cache, seqs) && BatchRows(cache, seqs) == rows
      ensures status != NotReady ==> Reconditioned(start, rows, status, at)
    {
      at := 0;
      var prepared := Prepare();
      if prepared.None? { return NotReady, at; }
      status, at := Recondition(rows, prepared.value, start);
    }

    method Recondition(ghost rows: seq<Row>, targets: seq<int>, ghost start: Pool<Sequence, Page>)
        returns (status: StartStatus, ghost at: nat)
      requires Batch(cache, seqs) && rows == BatchRows(cache, seqs) && start == cache.View()
      requires CanStart(rows) && HasTargets(rows, targets)
      modifies this, cache, cache.sequences, cache.pages
      ensures cache.sequences == old(cache.sequences) && fresh(cache.pages - old(cache.pages))
      ensures status != NotReady && Reconditioned(start, rows, status, at)
    {
      var ok;
      ok, at := RewindInput(rows, start);
      if !ok { return NoCopyPage, at; }
      status := Restart(rows, targets, start);
    }

    method Restart(ghost rows: seq<Row>, targets: seq<int>, ghost start: Pool<Sequence, Page>) returns (status: StartStatus)
      requires CanStart(rows) && HasTargets(rows, targets) && |rows| == |seqs| && cache.pageSize == start.pageSize
      requires Listed(start, seqs, Shorter(rows)) && Bare(PagedRows(start, seqs)) == rows
      requires AllCut(cache, seqs, start, PagedRows(start, seqs), Shorter(rows))
      modifies this, cache, cache.sequences, cache.pages
      ensures SameBatch(cache, seqs) && status != NotReady && status != NoCopyPage
      ensures status == Started <==> CanReplay(start, rows)
      ensures status == Started ==> Begun(rows) && Replayed(start, Shorter(rows))
      ensures status == NoRoom ==> Short(rows)
    {
      CutHolds(cache, seqs, start, PagedRows(start, seqs), Shorter(rows));
      RewindIsCut(rows, Shorter(rows));
      ghost var ps, budget := BatchPaged(cache, seqs), CutStock(start, seqs, Shorter(rows));
      CanReplayFits(start, rows, ps);
      status := ReplayAndBegin(rows, targets, ps, budget);
    }

    lemma CanReplayFits(start: Pool<Sequence, Page>, rows: seq<Row>, ps: seq<Paged>)
      requires |rows| == |seqs| && cache.pageSize == start.pageSize && Listed(start, seqs, Shorter(rows))
      requires CutsFit(start, seqs, Shorter(rows), |seqs|) && ps == CutAll(PagedRows(start, seqs), Shorter(rows), cache.pageSize)
      ensures CanReplay(start, rows) == PlanFits(ps, 1, CutStock(start, seqs, Shorter(rows)))
    {
    }

    method ReplayAndBegin(ghost rows: seq<Row>, targets: seq<int>, ghost ps: seq<Paged>, ghost budget: nat) returns (status: StartStatus)
      requires Held(ps, budget) && CanStart(rows) && HasTargets(rows, targets)
      requires |ps| == |rows| == |seqs| && BatchRows(cache, seqs) == RewoundRows(rows)
      modifies this, cache, cache.sequences, cache.pages
      ensures SameBatch(cache, seqs)
      ensures status == if PlanFits(ps, 1, budget) then Started else NoRoom
      ensures status == Started ==> Begun(rows) && Held(WithRows(GrownAll(ps, Repeat(1, |ps|), cache.pageSize), rows), budget)
      ensures status == NoRoom ==> Short(rows)
    {
      var ok := Replay(rows, targets, ps, budget);
      if ok {
        Begin(rows, targets);
        return Started;
      }
      RefusedPlan(ps, 1, budget);
      status := NoRoom;
    }

    /** Nothing is committed yet, and nothing in flight. */
    ghost predicate Begun(rows: seq<Row>)
      reads this, cache, cache.sequences, cache.pages
    {
      Flying(rows, 0) && origins == Streams(rows) && committed == Repeat([], |seqs|)
    }

    /** Every row is one token short, and no plan of that token can be made. */
    ghost predicate Short(rows: seq<Row>)
      reads cache, cache.sequences, cache.pages
    {
      && AllNonEmpty(rows) && Batch(cache, seqs) && BatchRows(cache, seqs) == RewoundRows(rows)
      && NoPlan(cache, seqs, Repeat(1, |seqs|), maxSeqLen)
    }

    /** Enough free pages before a startup for it and for `ahead` positions behind every row:
        what the rows then want, and one page for each that a rewind gives up while other
        sequences hold it. */
    ghost predicate Ample(pool: Pool<Sequence, Page>, rows: seq<Row>, ahead: nat) {
      && Listed(pool, seqs, Shorter(rows)) && |rows| == |seqs| && Times(|seqs|, numDraftTokens + 1) <= maxSeqLen
      && Wanted(PagedRows(pool, seqs), LensOf(rows), ahead, pool.pageSize, |seqs|) + SumTo(Dues(pool, seqs, Shorter(rows)), |seqs|)
         <= |pool.available| + TotalPages(PagedRows(pool, seqs), |seqs|)
    }

    lemma RestartedCovered(ps: seq<Paged>, rows: seq<Row>, ahead: nat, size: nat)
      requires size > 0 && rows == Bare(ps) && AllCommitted(rows) && AllNonEmpty(rows)
      ensures Covered(Restarted(ps, Shorter(rows), size), ps, LensOf(rows), ahead, size)
      ensures forall b {:trigger Restarted(ps, Shorter(rows), size)[b]} :: 0 <= b < |ps| ==>
                GrownAll(CutAll(ps, Shorter(rows), size), Repeat(1, |ps|), size)[b].pages == Restarted(ps, Shorter(rows), size)[b].pages
    {
      forall b | 0 <= b < |ps|
        ensures Restarted(ps, Shorter(rows), size)[b].pages <= Max(ps[b].pages, PagesFor(LensOf(rows)[b] + ahead, size))
      {
        var a := rows[b].allocLen;
        assert Committed(rows[b]) && rows[b].history != [];
        PagesForMono(a - 1, a, size);
        PagesForMono(a, a + ahead, size);
      }
    }

    lemma AmpleStock(pool: Pool<Sequence, Page>, rows: seq<Row>, ahead: nat)
      requires Ample(pool, rows, ahead) && Valid(pool)
      ensures CutsFit(pool, seqs, Shorter(rows), |seqs|)
      ensures Wanted(PagedRows(pool, seqs), LensOf(rows), ahead, pool.pageSize, |seqs|) <= CutStock(pool, seqs, Shorter(rows))
    {
      CutsBudget(pool, seqs, Shorter(rows));
      var ps := PagedRows(pool, seqs);
      WantedCovers(ps, ps, LensOf(rows), ahead, pool.pageSize, |seqs|);
      DuesCovered(pool, seqs, Shorter(rows));
    }

    lemma RestartFits(ps: seq<Paged>, rows: seq<Row>, ahead: nat, budget: int)
      requires |ps| == |rows| == |seqs| && CanStart(rows) && rows == Bare(ps) && Times(|seqs|, numDraftTokens + 1) <= maxSeqLen
      requires Wanted(ps, LensOf(rows), ahead, cache.pageSize, |ps|) <= budget
      ensures PlanFits(CutAll(ps, Shorter(rows), cache.pageSize), 1, budget)
      ensures budget >= 0 && Capable(Restarted(ps, Shorter(rows), cache.pageSize), LensOf(rows), ahead, budget)
    {
      var size, n := cache.pageSize, |seqs|;
      var grown := GrownAll(CutAll(ps, Shorter(rows), size), Repeat(1, n), size);
      RestartedCovered(ps, rows, ahead, size);
      WantedCovers(Restarted(ps, Shorter(rows), size), ps, LensOf(rows), ahead, size, n);
      TotalWith(grown, rows, n);
      SumRepeat(1, n);
      TimesGrows(n, 1, numDraftTokens + 1);
    }

    /** With ample pages a startup succeeds, and the steps behind it can be verified. */
    lemma AmpleReplays(pool: Pool<Sequence, Page>, rows: seq<Row>, ahead: nat)
      requires Ample(pool, rows, ahead) && Valid(pool) && CanStart(rows) && rows == Bare(PagedRows(pool, seqs))
      requires cache.pageSize == pool.pageSize
      ensures CanReplay(pool, rows) && CutStock(pool, seqs, Shorter(rows)) >= 0
      ensures Capable(Restarted(PagedRows(pool, seqs), Shorter(rows), cache.pageSize), LensOf(rows), ahead,
                      CutStock(pool, seqs, Shorter(rows)))
    {
      var ps := PagedRows(pool, seqs);
      AmpleStock(pool, rows, ahead);
      RestartFits(ps, rows, ahead, CutStock(pool, seqs, Shorter(rows)));
      CanReplayFits(pool, rows, CutAll(ps, Shorter(rows), cache.pageSize));
    }

    lemma AmplyBegun(pool: Pool<Sequence, Page>, rows: seq<Row>, ahead: nat)
      requires Begun(rows) && cache.pageSize == pool.pageSize && Listed(pool, seqs, Shorter(rows)) && Replayed(pool, Shorter(rows))
      requires Capable(Restarted(PagedRows(pool, seqs), Shorter(rows), cache.pageSize), LensOf(rows), ahead,
                       CutStock(pool, seqs, Shorter(rows)))
      ensures CanVerify(ahead)
    {
      assert committedLens == LensOf(rows);
    }

    /** The checks before anything changes. */
    method Prepare() returns (targets: Option<seq<int>>)
      requires Batch(cache, seqs)
      ensures targets.Some? <==> CanStart(BatchRows(cache, seqs))
      ensures targets.Some? ==> HasTargets(BatchRows(cache, seqs), targets.value)
    {
      if seqs == [] || numDraftTokens < 1 { return None; }
      targets := PrepareDecodeInput(cache, seqs);
      if targets.Some? {
        var nonEmpty := HasHistory(cache, seqs);
        if !nonEmpty { targets := None; }
      }
    }

    /** The truncations of rewindMtpDecodeInput. */
    method RewindInput(ghost rows: seq<Row>, ghost start: Pool<Sequence, Page>) returns (ok: bool, ghost at: nat)
      requires Batch(cache, seqs) && rows == BatchRows(cache, seqs) && start == cache.View()
      modifies cache, cache.sequences, cache.pages
      ensures cache.sequences == old(cache.sequences) && fresh(cache.pages - old(cache.pages))
      ensures Listed(start, seqs, Shorter(rows)) && (ok <==> CutsFit(start, seqs, Shorter(rows), |seqs|))
      ensures ok ==> AllCut(cache, seqs, start, PagedRows(start, seqs), Shorter(rows))
      ensures !ok ==> CutsStopped(cache, seqs, start, rows, Shorter(rows), at)
    {
      var shorter := ShorterLens();
      ok, at := TruncateAll(cache, seqs, shorter);
    }

    /** Every row's length, less one token. */
    method ShorterLens() returns (shorter: seq<nat>)
      requires Batch(cache, seqs)
      ensures shorter == Shorter(BatchRows(cache, seqs))
    {
      var lens := AllocLens(cache, seqs);
      shorter := seq(|lens|, b requires 0 <= b < |lens| => if lens[b] == 0 then 0 else lens[b] - 1);
    }

    /** Plan the last token of every row again and report it. */
    method Replay(ghost rows: seq<Row>, targets: seq<int>, ghost ps: seq<Paged>, ghost budget: nat) returns (ok: bool)
      requires Held(ps, budget) && AllCommitted(rows) && AllNonEmpty(rows) && HasTargets(rows, targets)
      requires |ps| == |rows| == |seqs| && BatchRows(cache, seqs) == RewoundRows(rows)
      modifies cache, cache.sequences, cache.pages
      ensures SameBatch(cache, seqs) && ok == PlanFits(ps, 1, budget)
      ensures BatchRows(cache, seqs) == if ok then rows else RewoundRows(rows)
      ensures Held(if ok then WithRows(GrownAll(ps, Repeat(1, |ps|), cache.pageSize), rows) else ps, budget)
    {
      var initialTargets := ReplayInputs(rows);
      ok := PlanPositions(1, ps, budget);
      if !ok { return; }
      ReportReplay(rows, targets, initialTargets, GrownAll(ps, Repeat(1, |ps|), cache.pageSize), budget);
    }

    lemma RefusedPlan(ps: seq<Paged>, m: nat, budget: nat)
      requires Held(ps, budget) && !PlanFits(ps, m, budget)
      ensures NoPlan(cache, seqs, Repeat(m, |seqs|), maxSeqLen)
    {
    }

    /** The targets of the rows one token short are their last tokens. */
    method ReplayInputs(ghost rows: seq<Row>) returns (initialTargets: seq<int>)
      requires Batch(cache, seqs) && AllNonEmpty(rows) && BatchRows(cache, seqs) == RewoundRows(rows)
      ensures initialTargets == LastTokens(rows)
    {
      ReplayTargets(rows);
      initialTargets := ReadTargets(cache, seqs);
      TargetsUnique(RewoundRows(rows), initialTargets, LastTokens(rows));
    }

    method ReportReplay(ghost rows: seq<Row>, targets: seq<int>, initialTargets: seq<int>, ghost ps: seq<Paged>, ghost budget: nat)
      requires Held(ps, budget) && AllCommitted(rows) && AllNonEmpty(rows) && HasTargets(rows, targets)
      requires BatchRows(cache, seqs) == GrownRows(RewoundRows(rows), Repeat(1, |rows|)) && initialTargets == LastTokens(rows)
      modifies cache, cache.sequences, cache.pages
      ensures SameBatch(cache, seqs) && cache.pages == old(cache.pages) && BatchRows(cache, seqs) == rows
      ensures |ps| == |rows| && Held(WithRows(ps, rows), budget)
    {
      ReplayRestores(rows, targets);
      TotalWith(ps, rows, |ps|);
      ReportAll(cache, seqs, Singles(initialTargets), Wrapped(targets));
    }

    method Begin(ghost rows: seq<Row>, targets: seq<int>)
      requires Batch(cache, seqs) && rows == BatchRows(cache, seqs) && AllCommitted(rows) && HasTargets(rows, targets)
      modifies this
      ensures Flying(rows, 0) && origins == Streams(rows) && committed == Repeat([], |rows|)
    {
      var lens := AllocLens(cache, seqs);
      CommittedHoldNone(rows);
      StartsStand(model, rows);
      SetState(rows, targets, lens, None, Streams(rows), Repeat([], |rows|));
    }
  }

  // ---------------------------------------------------------------------
  // Whole runs

  /** Per row, the tokens of all steps in order. */
  ghost function Emitted(n: nat, steps: seq<StepResult>): (r: seq<seq<int>>)
    requires forall k :: 0 <= k < |steps| ==> |steps[k].tokens| == n
    ensures |r| == n
  {
    if steps == [] then Repeat([], n)
    else Appended(Emitted(n, steps[..|steps| - 1]), steps[|steps| - 1].tokens)
  }

  /** One to depth + 1 tokens for each of n rows. */
  ghost predicate Sized(step: StepResult, n: nat, depth: nat) {
    && |step.tokens| == |step.numAccepted| == n
    && forall b {:trigger step.tokens[b]} :: 0 <= b < n ==> 1 <= |step.tokens[b]| == step.numAccepted[b] + 1 <= depth + 1
  }

  ghost predicate AllSized(steps: seq<StepResult>, n: nat, depth: nat) {
    forall k {:trigger steps[k]} :: 0 <= k < |steps| ==> Sized(steps[k], n, depth)
  }

  lemma EmittedSnoc(n: nat, depth: nat, steps: seq<StepResult>, step: StepResult)
    requires AllSized(steps, n, depth) && Sized(step, n, depth)
    ensures AllSized(steps + [step], n, depth)
    ensures Emitted(n, steps + [step]) == Appended(Emitted(n, steps), step.tokens)
  {
    assert (steps + [step])[..|steps|] == steps;
  }

  lemma AcceptedSized(model: Model, rows: seq<Row>, targets: seq<int>, drafts: seq<seq<int>>, depth: nat, step: StepResult)
    requires |targets| == |drafts| == |rows| && AllAccepted(model, rows, WithDrafts(targets, drafts), step)
    requires forall b {:trigger drafts[b]} :: 0 <= b < |drafts| ==> |drafts[b]| == depth
    ensures Sized(step, |rows|, depth)
  {
    forall b | 0 <= b < |rows| ensures 1 <= |step.tokens[b]| == step.numAccepted[b] + 1 <= depth + 1 {
      assert Accepted(model, rows[b], WithDrafts(targets, drafts)[b], step.numAccepted[b], step.tokens[b]);
    }
  }

  /** The life of a generator: start, one step per list of drafts, close. `steps`
      are the yielded steps, then the committed step that was never yielded when
      a submission failed after a commit. */
  method Run(generator: MtpGenerator, drafts: seq<seq<seq<int>>>)
      returns (status: StartStatus, yielded: seq<StepResult>, finished: bool, ghost steps: seq<StepResult>, ghost at: nat)
    requires Batch(generator.cache, generator.seqs)
    requires forall k {:trigger drafts[k]} :: 0 <= k < |drafts| ==> generator.WellDrafted(drafts[k])
    modifies generator, generator.cache, generator.cache.sequences, generator.cache.pages
    ensures status == Started ==>
              && Batch(generator.cache, generator.seqs)
              && AllSized(steps, |generator.seqs|, generator.numDraftTokens)
              && var rows, rows' := old(BatchRows(generator.cache, generator.seqs)), BatchRows(generator.cache, generator.seqs);
                 && AllCommitted(rows) && AllCommitted(rows')
                 && AllStand(generator.model, rows', Streams(rows), Emitted(|generator.seqs|, steps))
    ensures status == Started ==>
              && yielded <= steps && |steps| <= |yielded| + 1 && |steps| <= |drafts|
              && (finished ==> yielded == steps && |yielded| == |drafts|)
    ensures var rows := old(BatchRows(generator.cache, generator.seqs));
            && (status == Started <==> generator.CanStart(rows) && generator.CanReplay(old(generator.cache.View()), rows))
            && (generator.CanStart(rows) && generator.Ample(old(generator.cache.View()), rows, Positions(generator, |drafts| + 1)) ==>
                  status == Started && finished)
  {
    yielded, steps, finished := [], [], false;
    ghost var rows, start := BatchRows(generator.cache, generator.seqs), generator.cache.View();
    BarePaged(generator.cache, generator.seqs);
    ghost var ample := generator.CanStart(rows) && generator.Ample(start, rows, Positions(generator, |drafts| + 1));
    if ample { generator.AmpleReplays(start, rows, Positions(generator, |drafts| + 1)); }
    status, at := generator.Start(rows, start);
    if status == Started {
      if ample { generator.AmplyBegun(start, rows, Positions(generator, |drafts| + 1)); }
      ghost var rows';
      yielded, finished, steps, rows' := Steps(generator, rows, drafts);
      CommittedHoldNone(rows');
    }
  }

  /** Submit the first step, run one step per list of drafts, roll the last one back.
      Nothing stops it early while the pages, attached or free, cover one verification
      for each list of drafts and one more. */
  method Steps(generator: MtpGenerator, ghost rows: seq<Row>, drafts: seq<seq<seq<int>>>)
      returns (yielded: seq<StepResult>, finished: bool, ghost steps: seq<StepResult>, ghost rows': seq<Row>)
    requires Along(generator, rows, generator.origins, [], 0) && generator.numDraftTokens >= 1
    requires forall k {:trigger drafts[k]} :: 0 <= k < |drafts| ==> generator.WellDrafted(drafts[k])
    modifies generator, generator.cache, generator.cache.sequences, generator.cache.pages
    ensures SameBatch(generator.cache, generator.seqs) && Along(generator, rows', old(generator.origins), steps, 0)
    ensures yielded <= steps && |steps| <= |yielded| + 1 && |steps| <= |drafts|
    ensures finished ==> yielded == steps && |yielded| == |drafts|
    ensures old(generator.CanVerify(Positions(generator, |drafts| + 1))) ==> finished
  {
    yielded, steps, rows', finished := [], [], rows, false;
    ghost var ample := generator.CanVerify(Positions(generator, |drafts| + 1));
    var ok := FirstSubmit(generator, rows, Positions(generator, |drafts| + 1), ample);
    if ok {
      yielded, finished, steps, rows' := LoopAndClose(generator, rows, generator.origins, drafts, ample);
    }
  }

  method LoopAndClose(generator: MtpGenerator, ghost rows: seq<Row>, ghost starts: seq<seq<int>>, drafts: seq<seq<seq<int>>>,
                      ghost ample: bool)
      returns (yielded: seq<StepResult>, finished: bool, ghost steps: seq<StepResult>, ghost rows': seq<Row>)
    requires Along(generator, rows, starts, [], generator.numDraftTokens + 1)
    requires ample ==> generator.CanVerify(Positions(generator, |drafts| + 1))
    requires generator.numDraftTokens >= 1 && generator.speculative
    requires forall k {:trigger drafts[k]} :: 0 <= k < |drafts| ==> generator.WellDrafted(drafts[k])
    modifies generator, generator.cache, generator.cache.sequences, generator.cache.pages
    ensures SameBatch(generator.cache, generator.seqs) && Along(generator, rows', starts, steps, 0)
    ensures yielded <= steps && |steps| <= |yielded| + 1 && |steps| <= |drafts|
    ensures (finished ==> yielded == steps && |yielded| == |drafts|) && (ample ==> finished)
  {
    yielded, finished, steps, rows' := StepLoop(generator, rows, starts, drafts, ample);
    if finished { CloseAlong(generator, rows', starts, steps); }
  }

  /** The positions of k verifications. */
  function Positions(generator: MtpGenerator, k: nat): nat { Times(k, generator.numDraftTokens + 1) }

  lemma NextPositions(generator: MtpGenerator, k: nat)
    requires k >= 1
    ensures Positions(generator, k + 1) == Positions(generator, k) + generator.numDraftTokens + 1
    ensures Positions(generator, k) > generator.numDraftTokens
  {
  }

  method FirstSubmit(generator: MtpGenerator, ghost rows: seq<Row>, ghost ahead: nat, ghost ample: bool) returns (ok: bool)
    requires Along(generator, rows, generator.origins, [], 0) && 1 <= generator.numDraftTokens < ahead
    requires ample == generator.CanVerify(ahead)
    modifies generator, generator.cache, generator.cache.sequences, generator.cache.pages
    ensures SameBatch(generator.cache, generator.seqs) && generator.origins == old(generator.origins) && generator.speculative
    ensures Along(generator, rows, generator.origins, [], if ok then generator.numDraftTokens + 1 else 0)
    ensures ample ==> ok && generator.CanVerify(ahead)
  {
    ok := generator.Submit(rows, ahead, ample);
  }

  method CloseAlong(generator: MtpGenerator, ghost rows: seq<Row>, ghost starts: seq<seq<int>>, ghost steps: seq<StepResult>)
    requires Along(generator, rows, starts, steps, generator.numDraftTokens + 1) && generator.speculative
    modifies generator.cache, generator.cache.sequences, generator.cache.pages
    ensures SameBatch(generator.cache, generator.seqs) && Along(generator, rows, starts, steps, 0)
  {
    generator.Close(rows, generator.numDraftTokens + 1);
  }

  method StepLoop(generator: MtpGenerator, ghost rows: seq<Row>, ghost starts: seq<seq<int>>, drafts: seq<seq<seq<int>>>,
                  ghost ample: bool)
      returns (yielded: seq<StepResult>, finished: bool, ghost steps: seq<StepResult>, ghost rows': seq<Row>)
    requires Along(generator, rows, starts, [], generator.numDraftTokens + 1)
    requires ample ==> generator.CanVerify(Positions(generator, |drafts| + 1))
    requires generator.numDraftTokens >= 1 && generator.speculative
    requires forall k {:trigger drafts[k]} :: 0 <= k < |drafts| ==> generator.WellDrafted(drafts[k])
    modifies generator, generator.cache, generator.cache.sequences, generator.cache.pages
    ensures SameBatch(generator.cache, generator.seqs) && generator.speculative
    ensures Along(generator, rows', starts, steps, if finished then generator.numDraftTokens + 1 else 0)
    ensures yielded <= steps && |steps| <= |yielded| + 1 && |steps| <= |drafts|
    ensures finished ==> yielded == steps && |yielded| == |drafts|
    ensures ample ==> finished
  {
    yielded, steps, rows' := [], [], rows;
    ghost var ahead := Positions(generator, |drafts| + 1);
    var k := 0;
    while k < |drafts|
      invariant 0 <= k <= |drafts| && k == |yielded| && steps == yielded
      invariant SameBatch(generator.cache, generator.seqs) && generator.speculative
      invariant Along(generator, rows', starts, steps, generator.numDraftTokens + 1)
      invariant ahead == Positions(generator, |drafts| + 1 - k) && (ample ==> generator.CanVerify(ahead))
    {
      var result;
      ghost var next := Positions(generator, |drafts| - k);
      NextPositions(generator, |drafts| - k);
      result, rows', steps := Advance(generator, rows', starts, steps, drafts[k], ahead, next, ample);
      if result.None? { return yielded, false, steps, rows'; }
      ahead := next;
      yielded := yielded + [result.value];
      k := k + 1;
    }
    finished := true;
  }

  /** Between yields: the rows are committed up to the steps so far, with n more
      positions reserved. */
  ghost predicate Along(generator: MtpGenerator, rows: seq<Row>, starts: seq<seq<int>>, steps: seq<StepResult>, n: nat)
    reads generator, generator.cache, generator.cache.sequences, generator.cache.pages
  {
    && generator.Flying(rows, n) && generator.origins == starts
    && AllSized(steps, |generator.seqs|, generator.numDraftTokens)
    && generator.committed == Emitted(|generator.seqs|, steps)
  }

  method Advance(generator: MtpGenerator, ghost rows: seq<Row>, ghost starts: seq<seq<int>>, ghost steps: seq<StepResult>,
                 drafts: seq<seq<int>>, ghost ahead: nat, ghost next: nat, ghost ample: bool)
      returns (result: Option<StepResult>, ghost rows': seq<Row>, ghost steps': seq<StepResult>)
    requires Along(generator, rows, starts, steps, generator.numDraftTokens + 1)
    requires 1 <= generator.numDraftTokens < next && generator.WellDrafted(drafts)
    requires ahead == next + generator.numDraftTokens + 1 && (ample ==> generator.CanVerify(ahead))
    modifies generator, generator.cache, generator.cache.sequences, generator.cache.pages
    ensures SameBatch(generator.cache, generator.seqs) && generator.speculative
    ensures Along(generator, rows', starts, steps', if result.Some? then generator.numDraftTokens + 1 else 0)
    ensures |steps'| == |steps| + 1 && steps <= steps' && (result.Some? ==> steps' == steps + [result.value])
    ensures ample ==> result.Some? && generator.CanVerify(next)
  {
    ghost var step;
    result, rows', step := TakeStep(generator, rows, drafts, ahead, next, ample);
    EmittedSnoc(|generator.seqs|, generator.numDraftTokens, steps, step);
    steps' := steps + [step];
  }

  /** One step, yielded or not. */
  method TakeStep(generator: MtpGenerator, ghost rows: seq<Row>, drafts: seq<seq<int>>,
                  ghost ahead: nat, ghost next: nat, ghost ample: bool)
      returns (result: Option<StepResult>, ghost rows': seq<Row>, ghost step: StepResult)
    requires generator.Flying(rows, generator.numDraftTokens + 1)
    requires 1 <= generator.numDraftTokens < next && generator.WellDrafted(drafts)
    requires ahead == next + generator.numDraftTokens + 1 && (ample ==> generator.CanVerify(ahead))
    modifies generator, generator.cache, generator.cache.sequences, generator.cache.pages
    ensures SameBatch(generator.cache, generator.seqs) && generator.speculative && generator.origins == old(generator.origins)
    ensures generator.Flying(rows', if result.Some? then generator.numDraftTokens + 1 else 0)
    ensures Sized(step, |generator.seqs|, generator.numDraftTokens) && (result.Some? ==> result.value == step)
    ensures |old(generator.committed)| == |generator.seqs| && generator.committed == Appended(old(generator.committed), step.tokens)
    ensures ample ==> result.Some? && generator.CanVerify(next)
  {
    ghost var targets, lens := generator.nextTargets, generator.committedLens;
    ghost var ps, budget := BatchPaged(generator.cache, generator.seqs), Stock(generator);
    assert ample ==> generator.Capable(ps, lens, ahead, budget);
    result, rows' := generator.Next(rows, drafts, ps, next, budget);
    step := if result.Some? then result.value else generator.pending.value;
    AcceptedSized(generator.model, rows, targets, drafts, generator.numDraftTokens, step);
    if ample { AmplyAhead(generator, ps, lens, step, ahead, next, budget); }
  }

  /** The pages attached to the rows and the free ones. */
  ghost function Stock(generator: MtpGenerator): nat
    reads generator.cache, generator.cache.sequences, generator.cache.pages
    requires Batch(generator.cache, generator.seqs)
  {
    |generator.cache.availablePages| + TotalPages(BatchPaged(generator.cache, generator.seqs), |generator.seqs|)
  }

  /** A step consumes at most one verification's positions. */
  lemma AmplyAhead(generator: MtpGenerator, ps: seq<Paged>, lens: seq<nat>, step: StepResult, ahead: nat, next: nat, budget: nat)
    requires ahead == next + generator.numDraftTokens + 1 && generator.Capable(ps, lens, ahead, budget)
    requires Sized(step, |generator.seqs|, generator.numDraftTokens)
    ensures generator.Prospect(ps, lens, step, next, budget)
  {
    WantedCut(ps, lens, step, next, generator.numDraftTokens, generator.cache.pageSize, |ps|);
  }

  lemma {:induction false} WantedCut(ps: seq<Paged>, lens: seq<nat>, step: StepResult, ahead: nat, depth: nat, size: nat, n: nat)
    requires n <= |ps| == |lens| && size > 0 && Sized(step, |ps|, depth)
    ensures Wanted(CutAll(ps, KeptLens(lens, step), size), KeptLens(lens, step), ahead, size, n)
            <= Wanted(ps, lens, ahead + depth + 1, size, n)
  {
    if n > 0 {
      WantedCut(ps, lens, step, ahead, depth, size, n - 1);
      var kept := KeptLens(lens, step)[n - 1];
      assert |step.tokens[n - 1]| <= depth + 1;
      PagesForMono(kept, kept + ahead, size);
      PagesForMono(kept + ahead, lens[n - 1] + ahead + depth + 1, size);
    }
  }

  // ---------------------------------------------------------------------
  // Refinement of the one-token decoder

  /** Two rows that followed the same stream: the shorter run is a prefix of the
      longer, and runs of equal length leave the same row. */
  lemma SameStream(model: Model, r: Row, r': Row, origin: seq<int>, done: seq<int>, done': seq<int>)
    requires Stands(model, r, origin, done) && Stands(model, r', origin, done')
    ensures |done| <= |done'| ==> done <= done'
    ensures |done| == |done'| && Committed(r) && Committed(r') ==> r == r'
  {
    if |done| <= |done'| { ExtendPrefix(model, origin, |done|, |done'|); }
    if |done| == |done'| {
      assert Stream(r)[..|r.history|] == r.history && Stream(r')[..|r'.history|] == r'.history;
      assert Stream(r)[|r.history|] == r.target.value && Stream(r')[|r'.history|] == r'.target.value;
    }
  }

  /** From the same histories and targets the speculative decoder commits, row by
      row, what the one-token decoder emits, whatever was drafted; when both have
      produced equally many tokens, their committed rows are equal. */
  lemma MtpRefinesDecode(mtp: MtpGenerator, plain: DecodeGenerator, rows: seq<Row>, b: nat)
    requires mtp.Flying(rows, 0) && plain.Valid()
    requires mtp.model == plain.model && mtp.origins == plain.origins && b < |rows|
    ensures |mtp.committed[b]| <= |plain.emitted[b]| ==> mtp.committed[b] <= plain.emitted[b]
    ensures |plain.emitted[b]| <= |mtp.committed[b]| ==> plain.emitted[b] <= mtp.committed[b]
    ensures |mtp.committed[b]| == |plain.emitted[b]| ==>
              b < |plain.seqs| && BatchRows(plain.cache, plain.seqs)[b] == BatchRows(mtp.cache, mtp.seqs)[b]
  {
    CommittedHoldNone(rows);
    var plainRows := BatchRows(plain.cache, plain.seqs);
    assert Stands(mtp.model, rows[b], mtp.origins[b], mtp.committed[b]);
    assert Stands(plain.model, plainRows[b], plain.origins[b], plain.emitted[b]);
    SameStream(mtp.model, rows[b], plainRows[b], mtp.origins[b], mtp.committed[b], plain.emitted[b]);
    SameStream(mtp.model, plainRows[b], rows[b], mtp.origins[b], plain.emitted[b], mtp.committed[b]);
  }

  lemma StartsStand(model: Model, rows: seq<Row>)
    requires AllCommitted(rows)
    ensures AllStand(model, rows, Streams(rows), Repeat([], |rows|))
  {
  }

  datatype StartStatus = Started | NotReady | NoCopyPage | NoRoom

  ghost predicate AllNonEmpty(rows: seq<Row>) {
    forall b {:trigger rows[b]} :: 0 <= b < |rows| ==> rows[b].history != []
  }

  method HasHistory(cache: PageCache, seqs: seq<Sequence>) returns (ok: bool)
    requires Batch(cache, seqs) && AllCommitted(BatchRows(cache, seqs))
    ensures ok <==> AllNonEmpty(BatchRows(cache, seqs))
  {
    ghost var rows := BatchRows(cache, seqs);
    var b := 0;
    while b < |seqs|
      invariant 0 <= b <= |seqs| && forall j {:trigger rows[j]} :: 0 <= j < b ==> rows[j].history != []
    {
      var reported, allocLen, target := ReadRow(cache, seqs, b);
      if allocLen == 0 || reported != allocLen {
        assert rows[b].history == [];
        return false;
      }
      b := b + 1;
    }
    ok := true;
  }

  ghost predicate Targeted(rows: seq<Row>) {
    forall b {:trigger rows[b]} :: 0 <= b < |rows| ==> rows[b].target.Some?
  }

  method ReadTargets(cache: PageCache, seqs: seq<Sequence>) returns (targets: seq<int>)
    requires Batch(cache, seqs) && Targeted(BatchRows(cache, seqs))
    ensures HasTargets(BatchRows(cache, seqs), targets)
  {
    ghost var rows := BatchRows(cache, seqs);
    targets := [];
    var b := 0;
    while b < |seqs|
      invariant 0 <= b == |targets| <= |seqs|
      invariant forall j {:trigger rows[j]} :: 0 <= j < b ==> rows[j].target == Some(targets[j])
    {
      var reported, allocLen, target := ReadRow(cache, seqs, b);
      targets := targets + [target.value];
      b := b + 1;
    }
  }

  lemma RewindIsCut(rows: seq<Row>, lens: seq<nat>)
    requires AllCommitted(rows) && AllNonEmpty(rows) && lens == Shorter(rows)
    ensures CutRows(rows, lens) == RewoundRows(rows)
  {
  }

  function LastTokens(rows: seq<Row>): (r: seq<int>)
    requires forall b :: 0 <= b < |rows| ==> rows[b].history != []
    ensures |r| == |rows| && forall b :: 0 <= b < |rows| ==> r[b] == rows[b].history[|rows[b].history| - 1]
  {
    seq(|rows|, b requires 0 <= b < |rows| => rows[b].history[|rows[b].history| - 1])
  }

  lemma ReplayTargets(rows: seq<Row>)
    requires AllNonEmpty(rows)
    ensures HasTargets(RewoundRows(rows), LastTokens(rows)) && Targeted(RewoundRows(rows))
  {
  }

  lemma TargetsUnique(rows: seq<Row>, targets: seq<int>, others: seq<int>)
    requires HasTargets(rows, targets) && HasTargets(rows, others)
    ensures targets == others
  {
    forall b | 0 <= b < |rows| ensures targets[b] == others[b] { assert rows[b].target == Some(targets[b]); }
  }

  /** Replaying the last token with the published target changes nothing. */
  lemma ReplayRestores(rows: seq<Row>, targets: seq<int>)
    requires AllCommitted(rows) && AllNonEmpty(rows) && HasTargets(rows, targets)
    ensures var planned := GrownRows(RewoundRows(rows), Repeat(1, |rows|));
            && ReportedRows(planned, Singles(LastTokens(rows)), Wrapped(targets)) == rows
            && TokensFit(planned, Singles(LastTokens(rows)))
  {
    var planned := GrownRows(RewoundRows(rows), Repeat(1, |rows|));
    forall b | 0 <= b < |rows|
      ensures ReportedRows(planned, Singles(LastTokens(rows)), Wrapped(targets))[b] == rows[b]
    {
      var h := rows[b].history;
      assert h == h[..|h| - 1] + [h[|h| - 1]];
    }
  }
}
