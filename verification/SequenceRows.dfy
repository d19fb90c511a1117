/** The batch view of paged sequences: per row the reported history, the allocated
    length and the pending target. Each row operation changes its own row only. */
module SequenceRows {
  import opened Wrappers
  import opened TokenChunks
  import opened PagePool
  import opened PageLaws
  import opened PageGrowth
  import opened PagedSequence
  import opened PageStock
  import opened PageTally

  datatype Row = Row(history: seq<int>, allocLen: nat, target: Option<int>)

  ghost function RowOf<S, P>(pool: Pool<S, P>, s: S): Row
    requires s in pool.sequences
  {
    Row(History(pool, s), pool.sequences[s].allocLen, pool.sequences[s].targetToken)
  }

  ghost function Rows<S, P>(pool: Pool<S, P>, seqs: seq<S>): (rows: seq<Row>)
    requires forall b :: 0 <= b < |seqs| ==> seqs[b] in pool.sequences
    ensures |rows| == |seqs|
    ensures forall b :: 0 <= b < |seqs| ==> rows[b] == RowOf(pool, seqs[b])
  {
    seq(|seqs|, b requires 0 <= b < |seqs| => RowOf(pool, seqs[b]))
  }

  /** Distinct sequences of one consistent cache. */
  ghost predicate Batch(cache: PageCache, seqs: seq<Sequence>)
    reads cache, cache.sequences, cache.pages
  {
    && Distinct(seqs) && Valid(cache.View())
    && forall b :: 0 <= b < |seqs| ==> seqs[b] in cache.sequences && seqs[b].cache == cache
  }

  ghost function BatchRows(cache: PageCache, seqs: seq<Sequence>): (rows: seq<Row>)
    reads cache, cache.sequences, cache.pages
    requires Batch(cache, seqs)
    ensures |rows| == |seqs|
  {
    Rows(cache.View(), seqs)
  }

  /** A step on row b that leaves what others read alone updates only row b. */
  lemma OneRowChanges<S, P>(pool: Pool<S, P>, pool': Pool<S, P>, seqs: seq<S>, b: nat)
    requires Distinct(seqs) && b < |seqs| && OthersUntouched(pool, pool', seqs[b]) && seqs[b] in pool'.sequences
    requires forall j :: 0 <= j < |seqs| ==> seqs[j] in pool.sequences && seqs[j] in pool'.sequences
    ensures Rows(pool', seqs) == Rows(pool, seqs)[b := RowOf(pool', seqs[b])]
  {
    forall j | 0 <= j < |seqs| && j != b ensures RowOf(pool', seqs[j]) == RowOf(pool, seqs[j]) {
      assert Differ(seqs, j, b);
      assert ReadsSame(pool, pool', seqs[j]);
      ReadsSameHistory(pool, pool', seqs[j]);
    }
  }

  lemma RowFits(cache: PageCache, seqs: seq<Sequence>, b: nat)
    requires Batch(cache, seqs) && b < |seqs|
    ensures BatchRows(cache, seqs)[b] == Row(History(cache.View(), seqs[b]), seqs[b].allocLen, seqs[b].targetToken)
    ensures |BatchRows(cache, seqs)[b].history| <= seqs[b].allocLen
    ensures forall i :: 0 <= i < |seqs[b].pages| ==> seqs[b].pages[i] in cache.pages
  {
    assert cache.View().sequences[seqs[b]] == seqs[b].View();
    HistoryFits(cache.View(), seqs[b]);
    seqs[b].IsKnown();
  }

  /** Row r cut back to n tokens. */
  function CutRow(r: Row, n: nat): Row {
    if n >= r.allocLen then r
    else Row(r.history[..Min(|r.history|, n)], n, TargetAt(r.history, r.target, n))
  }

  // ---------------------------------------------------------------------
  // Rows with their pages

  /** A row and the number of pages attached to it. */
  datatype Paged = Paged(row: Row, pages: nat)

  ghost function PagedOf<S, P>(pool: Pool<S, P>, s: S): Paged
    requires s in pool.sequences
  {
    Paged(RowOf(pool, s), |pool.sequences[s].pages|)
  }

  ghost function PagedRows<S, P>(pool: Pool<S, P>, seqs: seq<S>): (r: seq<Paged>)
    requires forall b :: 0 <= b < |seqs| ==> seqs[b] in pool.sequences
    ensures |r| == |seqs| && forall b :: 0 <= b < |seqs| ==> r[b] == PagedOf(pool, seqs[b])
  {
    seq(|seqs|, b requires 0 <= b < |seqs| => PagedOf(pool, seqs[b]))
  }

  ghost function BatchPaged(cache: PageCache, seqs: seq<Sequence>): (r: seq<Paged>)
    reads cache, cache.sequences, cache.pages
    requires Batch(cache, seqs)
    ensures |r| == |seqs|
  {
    PagedRows(cache.View(), seqs)
  }

  function Bare(ps: seq<Paged>): (r: seq<Row>)
    ensures |r| == |ps| && forall b :: 0 <= b < |ps| ==> r[b] == ps[b].row
  {
    seq(|ps|, b requires 0 <= b < |ps| => ps[b].row)
  }

  lemma BarePaged(cache: PageCache, seqs: seq<Sequence>)
    requires Batch(cache, seqs)
    ensures Bare(BatchPaged(cache, seqs)) == BatchRows(cache, seqs)
  {
  }

  /** A step on row b that leaves what others read alone updates only row b. */
  lemma OnePagedChanges<S, P>(pool: Pool<S, P>, pool': Pool<S, P>, seqs: seq<S>, b: nat)
    requires Distinct(seqs) && b < |seqs| && OthersUntouched(pool, pool', seqs[b]) && seqs[b] in pool'.sequences
    requires forall j :: 0 <= j < |seqs| ==> seqs[j] in pool.sequences && seqs[j] in pool'.sequences
    ensures PagedRows(pool', seqs) == PagedRows(pool, seqs)[b := PagedOf(pool', seqs[b])]
  {
    forall j | 0 <= j < |seqs| && j != b ensures PagedOf(pool', seqs[j]) == PagedOf(pool, seqs[j]) {
      assert Differ(seqs, j, b);
      assert ReadsSame(pool, pool', seqs[j]);
      ReadsSameHistory(pool, pool', seqs[j]);
    }
  }

  /** A cut leaves the pages its positions need. */
  function CutPaged(p: Paged, n: nat, size: nat): Paged
    requires size > 0
  {
    if n >= p.row.allocLen then p else Paged(CutRow(p.row, n), PagesFor(n, size))
  }

  function GrownPaged(p: Paged, len: nat, size: nat): Paged
    requires size > 0
  {
    Paged(p.row.(allocLen := p.row.allocLen + len), Max(p.pages, PagesFor(p.row.allocLen + len, size)))
  }

  /** The pages of the first n rows. */
  function TotalPages(ps: seq<Paged>, n: nat): nat
    requires n <= |ps|
  {
    if n == 0 then 0 else TotalPages(ps, n - 1) + ps[n - 1].pages
  }

  lemma {:induction false} TotalUpdate(ps: seq<Paged>, b: nat, p: Paged, n: nat)
    requires b < |ps| && n <= |ps|
    ensures TotalPages(ps[b := p], n) == TotalPages(ps, n) + (if b < n then p.pages - ps[b].pages else 0)
  {
    if n > 0 { TotalUpdate(ps, b, p, n - 1); }
  }

  // ---------------------------------------------------------------------
  // Operations on one row

  /** Truncate one row; it fails only when it has no page for its copy. Behind the
      history every dropped page becomes free. */
  method TruncateRow(cache: PageCache, seqs: seq<Sequence>, b: nat, newLen: nat) returns (ok: bool)
    requires Batch(cache, seqs) && b < |seqs| && newLen <= seqs[b].allocLen
    modifies cache, cache.sequences, cache.pages
    ensures cache.sequences == old(cache.sequences) && fresh(cache.pages - old(cache.pages))
    ensures !ok <==> newLen < old(seqs[b].allocLen) && RunsOut(old(cache.View()), seqs[b], newLen)
    ensures !ok ==>
              Conserved(cache.View()) && OthersUntouched(old(cache.View()), cache.View(), seqs[b]) && cache.availablePages == []
    ensures ok ==>
              && Batch(cache, seqs)
              && BatchPaged(cache, seqs)
                 == old(BatchPaged(cache, seqs))[b := CutPaged(old(BatchPaged(cache, seqs))[b], newLen, cache.pageSize)]
    ensures ok && |old(BatchPaged(cache, seqs))[b].row.history| <= newLen ==>
              |cache.availablePages| + |seqs[b].pages| == |old(cache.availablePages)| + |old(seqs[b].pages)|
    ensures ok ==> Recounted(old(cache.View()), cache.View(), seqs[b], newLen)
  {
    RowFits(cache, seqs, b);
    ghost var before := cache.View();
    ghost var copy;
    var status;
    status, copy := seqs[b].Truncate(newLen);
    ok := status != NoPage;
    if ok { RowIsCut(before, cache.View(), seqs, b, newLen); }
  }

  lemma RowIsCut<S, P>(pool: Pool<S, P>, pool': Pool<S, P>, seqs: seq<S>, b: nat, n: nat)
    requires Distinct(seqs) && b < |seqs| && forall j :: 0 <= j < |seqs| ==> seqs[j] in pool.sequences
    requires if n < pool.sequences[seqs[b]].allocLen then Rewound(pool, pool', seqs[b], n) else pool' == pool
    ensures forall j :: 0 <= j < |seqs| ==> seqs[j] in pool'.sequences
    ensures PagedRows(pool', seqs) == PagedRows(pool, seqs)[b := CutPaged(PagedRows(pool, seqs)[b], n, pool.pageSize)]
  {
    if n < pool.sequences[seqs[b]].allocLen { OnePagedChanges(pool, pool', seqs, b); }
  }

  method ReportRow(cache: PageCache, seqs: seq<Sequence>, b: nat, tokenIds: seq<int>, target: Option<int>) returns (ok: bool)
    requires Batch(cache, seqs) && b < |seqs|
    modifies cache, cache.sequences, cache.pages
    ensures cache.sequences == old(cache.sequences) && fresh(cache.pages - old(cache.pages))
    ensures KeepsPrivate(old(cache.View()), cache.View()) && cache.pages == old(cache.pages)
    ensures Batch(cache, seqs) && cache.availablePages == old(cache.availablePages)
    ensures var p := old(BatchPaged(cache, seqs))[b];
            && (ok <==> |p.row.history| + |tokenIds| <= p.row.allocLen)
            && BatchPaged(cache, seqs)
               == old(BatchPaged(cache, seqs))[b := if ok then Paged(ReportedRow(p.row, tokenIds, target), p.pages) else p]
  {
    RowFits(cache, seqs, b);
    ghost var before := cache.View();
    ok := seqs[b].ReportTokens(tokenIds, target);
    if ok { OnePagedChanges(before, cache.View(), seqs, b); }
  }

  method AppendRow(cache: PageCache, seqs: seq<Sequence>, b: nat, numNewTokens: nat) returns (ok: bool)
    requires Batch(cache, seqs) && b < |seqs|
    modifies cache, cache.sequences, cache.pages
    ensures cache.sequences == old(cache.sequences) && fresh(cache.pages - old(cache.pages))
    ensures Batch(cache, seqs) && KeepsPrivate(old(cache.View()), cache.View())
    ensures ok <==> NewPages(old(cache.View()), seqs[b], numNewTokens) <= |old(cache.availablePages)|
    ensures ok ==> |cache.availablePages| == |old(cache.availablePages)| - NewPages(old(cache.View()), seqs[b], numNewTokens)
    ensures var p := old(BatchPaged(cache, seqs))[b];
            BatchPaged(cache, seqs) == old(BatchPaged(cache, seqs))[b := if ok then GrownPaged(p, numNewTokens, cache.pageSize) else p]
  {
    RowFits(cache, seqs, b);
    ghost var before := cache.View();
    ok := seqs[b].AllocAppendPages(numNewTokens);
    if ok { OnePagedChanges(before, cache.View(), seqs, b); }
  }

  lemma StoppedAt<S, P>(pool: Pool<S, P>, pool': Pool<S, P>, seqs: seq<S>, b: nat)
    requires Distinct(seqs) && b < |seqs| && OthersUntouched(pool, pool', seqs[b])
    requires forall j :: 0 <= j < |seqs| ==> seqs[j] in pool.sequences
    ensures forall j :: 0 <= j < |seqs| && j != b ==>
                        seqs[j] in pool'.sequences && RowOf(pool', seqs[j]) == Rows(pool, seqs)[j]
  {
    forall j | 0 <= j < |seqs| && j != b ensures seqs[j] in pool'.sequences && RowOf(pool', seqs[j]) == RowOf(pool, seqs[j]) {
      assert Differ(seqs, j, b);
      assert ReadsSame(pool, pool', seqs[j]);
      ReadsSameHistory(pool, pool', seqs[j]);
    }
  }

  method ResizeRow(cache: PageCache, seqs: seq<Sequence>, b: nat, newLen: nat)
    requires Batch(cache, seqs) && b < |seqs|
    requires |BatchPaged(cache, seqs)[b].row.history| <= newLen <= BatchPaged(cache, seqs)[b].row.allocLen
    modifies cache, cache.sequences, cache.pages
    ensures cache.sequences == old(cache.sequences) && fresh(cache.pages - old(cache.pages))
    ensures Batch(cache, seqs) && cache.availablePages == old(cache.availablePages)
    ensures var p := old(BatchPaged(cache, seqs))[b];
            BatchPaged(cache, seqs) == old(BatchPaged(cache, seqs))[b := Paged(p.row.(allocLen := newLen), p.pages)]
  {
    RowFits(cache, seqs, b);
    ghost var before := cache.View();
    seqs[b].Resize(newLen);
    OnePagedChanges(before, cache.View(), seqs, b);
  }

  // ---------------------------------------------------------------------
  // Loops over the batch

  /** The first b rows are in their final state, the others still in their first. */
  function Mix<T>(first: seq<T>, last: seq<T>, b: nat): (r: seq<T>)
    requires |first| == |last| && b <= |first|
    ensures |r| == |first|
    ensures forall i {:trigger r[i]} :: 0 <= i < |r| ==> r[i] == if i < b then last[i] else first[i]
  {
    last[..b] + first[b..]
  }

  lemma MixStep<T>(first: seq<T>, last: seq<T>, b: nat)
    requires |first| == |last| && b < |first|
    ensures Mix(first, last, b)[b := last[b]] == Mix(first, last, b + 1)
  {
  }

  lemma MixEnds<T>(first: seq<T>, last: seq<T>)
    requires |first| == |last|
    ensures Mix(first, last, 0) == first && Mix(first, last, |first|) == last
  {
  }

  function CutRows(rows: seq<Row>, lens: seq<nat>): (r: seq<Row>)
    requires |lens| == |rows|
    ensures |r| == |rows|
    ensures forall b :: 0 <= b < |rows| ==> r[b] == CutRow(rows[b], lens[b])
  {
    seq(|rows|, b requires 0 <= b < |rows| => CutRow(rows[b], lens[b]))
  }

  /** Only what a batch operation may do to the cache around its rows. */
  twostate predicate SameBatch(cache: PageCache, seqs: seq<Sequence>)
    reads cache, cache.sequences, cache.pages
  {
    && cache.sequences == old(cache.sequences) && fresh(cache.pages - old(cache.pages))
    && Batch(cache, seqs)
  }

  /** A truncation of row `at` failed half way, for want of a free page; all other rows
      are as given. */
  ghost predicate Stopped(cache: PageCache, seqs: seq<Sequence>, rows: seq<Row>, at: nat)
    reads cache, cache.sequences, cache.pages
  {
    && at < |seqs| == |rows| && Conserved(cache.View()) && cache.availablePages == []
    && forall j :: 0 <= j < |seqs| && j != at ==>
         seqs[j] in cache.View().sequences && RowOf(cache.View(), seqs[j]) == rows[j]
  }

  function CutAll(ps: seq<Paged>, lens: seq<nat>, size: nat): (r: seq<Paged>)
    requires |lens| == |ps| && size > 0
    ensures |r| == |ps| && forall b :: 0 <= b < |ps| ==> r[b] == CutPaged(ps[b], lens[b], size)
  {
    seq(|ps|, b requires 0 <= b < |ps| => CutPaged(ps[b], lens[b], size))
  }

  lemma BareCut(ps: seq<Paged>, lens: seq<nat>, size: nat)
    requires |lens| == |ps| && size > 0
    ensures Bare(CutAll(ps, lens, size)) == CutRows(Bare(ps), lens)
  {
  }

  lemma BareMix(first: seq<Paged>, last: seq<Paged>, b: nat)
    requires |first| == |last| && b <= |first|
    ensures Bare(Mix(first, last, b)) == Mix(Bare(first), Bare(last), b)
  {
  }

  /** The first b rows are cut; `start` is the cache before the first cut. */
  ghost predicate CutSoFar(cache: PageCache, seqs: seq<Sequence>, start: Pool<Sequence, Page>, first: seq<Paged>,
                           lens: seq<nat>, b: nat)
    reads cache, cache.sequences, cache.pages
  {
    && Batch(cache, seqs) && |first| == |lens| == |seqs| && b <= |seqs|
    && BatchPaged(cache, seqs) == Mix(first, CutAll(first, lens, cache.pageSize), b)
    && Course(start, cache.View(), seqs, lens, b)
  }

  lemma CutsStart(cache: PageCache, seqs: seq<Sequence>, lens: seq<nat>)
    requires Batch(cache, seqs) && |lens| == |seqs|
    ensures CutSoFar(cache, seqs, cache.View(), BatchPaged(cache, seqs), lens, 0)
  {
    MixEnds(BatchPaged(cache, seqs), CutAll(BatchPaged(cache, seqs), lens, cache.pageSize));
    CourseStart(cache.View(), seqs, lens);
  }

  /** One round of truncating a batch. */
  method TruncateNext(cache: PageCache, seqs: seq<Sequence>, b: nat, newLen: nat, ghost start: Pool<Sequence, Page>,
                      ghost first: seq<Paged>, ghost lens: seq<nat>)
      returns (ok: bool)
    requires CutSoFar(cache, seqs, start, first, lens, b) && b < |seqs| && newLen == lens[b] <= first[b].row.allocLen
    modifies cache, cache.sequences, cache.pages
    ensures cache.sequences == old(cache.sequences) && fresh(cache.pages - old(cache.pages))
    ensures ok <==> FitsAt(start, seqs, lens, b)
    ensures ok ==> CutSoFar(cache, seqs, start, first, lens, b + 1)
    ensures !ok ==> CutsStopped(cache, seqs, start, Bare(first), lens, b)
  {
    ghost var last := CutAll(first, lens, cache.pageSize);
    RowFits(cache, seqs, b);
    RunsOutAsTallied(start, cache.View(), seqs, lens, b);
    ghost var view := cache.View();
    ok := TruncateRow(cache, seqs, b, newLen);
    if ok {
      MixStep(first, last, b);
      CourseNext(start, view, cache.View(), seqs, lens, b);
    } else {
      BareMix(first, last, b);
      BareCut(first, lens, cache.pageSize);
      StoppedAt(view, cache.View(), seqs, b);
    }
  }

  /** Every row is cut, and as many pages are free as the cache before foretold. */
  ghost predicate AllCut(cache: PageCache, seqs: seq<Sequence>, start: Pool<Sequence, Page>, first: seq<Paged>, lens: seq<nat>)
    reads cache, cache.sequences, cache.pages
  {
    && Batch(cache, seqs) && |first| == |lens| == |seqs| && Course(start, cache.View(), seqs, lens, |seqs|)
    && |cache.availablePages| == FreeAfter(start, seqs, lens, |seqs|)
    && BatchPaged(cache, seqs) == CutAll(first, lens, cache.pageSize)
    && BatchRows(cache, seqs) == CutRows(Bare(first), lens)
  }

  lemma CutsEnd(cache: PageCache, seqs: seq<Sequence>, start: Pool<Sequence, Page>, first: seq<Paged>, lens: seq<nat>)
    requires CutSoFar(cache, seqs, start, first, lens, |seqs|)
    ensures AllCut(cache, seqs, start, first, lens) && CutsFit(start, seqs, lens, |seqs|)
  {
    MixEnds(first, CutAll(first, lens, cache.pageSize));
    BareCut(first, lens, cache.pageSize);
    BarePaged(cache, seqs);
  }

  /** Row `at` is the first whose cut runs out of pages; the rows before it are cut. */
  ghost predicate CutsStopped(cache: PageCache, seqs: seq<Sequence>, start: Pool<Sequence, Page>, rows: seq<Row>,
                              lens: seq<nat>, at: nat)
    reads cache, cache.sequences, cache.pages
  {
    && at < |seqs| == |lens| == |rows| && Listed(start, seqs, lens)
    && CutsFit(start, seqs, lens, at) && !FitsAt(start, seqs, lens, at)
    && Stopped(cache, seqs, Mix(rows, CutRows(rows, lens), at), at)
  }

  /** Truncate every row, stopping at the first row that has no page for its copy. Which
      row that is, if any, and how many pages are free at the end, is told from the cache
      before. */
  method TruncateAll(cache: PageCache, seqs: seq<Sequence>, lens: seq<nat>) returns (ok: bool, ghost at: nat)
    requires Batch(cache, seqs) && |lens| == |seqs|
    requires forall b :: 0 <= b < |seqs| ==> lens[b] <= BatchRows(cache, seqs)[b].allocLen
    modifies cache, cache.sequences, cache.pages
    ensures cache.sequences == old(cache.sequences) && fresh(cache.pages - old(cache.pages))
    ensures ok <==> CutsFit(old(cache.View()), seqs, lens, |seqs|)
    ensures ok ==> AllCut(cache, seqs, old(cache.View()), old(BatchPaged(cache, seqs)), lens)
    ensures !ok ==> CutsStopped(cache, seqs, old(cache.View()), old(BatchRows(cache, seqs)), lens, at)
  {
    BarePaged(cache, seqs);
    CutsStart(cache, seqs, lens);
    ghost var start, first := cache.View(), BatchPaged(cache, seqs);
    ok, at := TruncateEach(cache, seqs, lens, start, first);
    if ok { CutsEnd(cache, seqs, start, first, lens); }
  }

  /** No length beyond what its row has reserved. */
  ghost predicate LensWithin(ps: seq<Paged>, lens: seq<nat>) {
    |ps| == |lens| && forall b {:trigger lens[b]} :: 0 <= b < |ps| ==> lens[b] <= ps[b].row.allocLen
  }

  lemma LenWithin(ps: seq<Paged>, lens: seq<nat>, b: nat)
    requires LensWithin(ps, lens) && b < |ps|
    ensures lens[b] <= ps[b].row.allocLen
  {
  }

  method TruncateEach(cache: PageCache, seqs: seq<Sequence>, lens: seq<nat>, ghost start: Pool<Sequence, Page>,
                      ghost first: seq<Paged>)
      returns (ok: bool, ghost at: nat)
    requires CutSoFar(cache, seqs, start, first, lens, 0) && LensWithin(first, lens)
    modifies cache, cache.sequences, cache.pages
    ensures cache.sequences == old(cache.sequences) && fresh(cache.pages - old(cache.pages))
    ensures ok ==> CutSoFar(cache, seqs, start, first, lens, |seqs|)
    ensures !ok ==> CutsStopped(cache, seqs, start, Bare(first), lens, at)
  {
    var b := 0;
    while b < |seqs|
      invariant 0 <= b <= |seqs|
      invariant cache.sequences == old(cache.sequences) && fresh(cache.pages - old(cache.pages))
      invariant CutSoFar(cache, seqs, start, first, lens, b)
    {
      LenWithin(first, lens, b);
      ok := TruncateNext(cache, seqs, b, lens[b], start, first, lens);
      if !ok { return false, b; }
      b := b + 1;
    }
    ok, at := true, b;
  }

  /** The pages of the batch and the free pages together. */
  ghost predicate Stocked(cache: PageCache, ps: seq<Paged>, budget: nat)
    reads cache
  {
    |cache.availablePages| + TotalPages(ps, |ps|) == budget
  }

  /** The free pages after each row: what a row gives up becomes free, what it gains was. */
  ghost predicate Exchanged(first: seq<Paged>, last: seq<Paged>, free: seq<nat>) {
    && free != [] && |free| <= |first| + 1 && |first| == |last|
    && forall b {:trigger ExchangedAt(first, last, free, b)} :: 0 <= b < |free| - 1 ==> ExchangedAt(first, last, free, b)
  }

  ghost predicate ExchangedAt(first: seq<Paged>, last: seq<Paged>, free: seq<nat>, b: nat)
    requires b + 1 < |free| <= |first| + 1 && |first| == |last|
  {
    free[b + 1] + last[b].pages == free[b] + first[b].pages
  }

  ghost predicate Traced(cache: PageCache, first: seq<Paged>, last: seq<Paged>, free: seq<nat>, b: nat)
    reads cache
  {
    |free| == b + 1 && free[b] == |cache.availablePages| && Exchanged(first, last, free)
  }

  lemma ExchangeNext(first: seq<Paged>, last: seq<Paged>, free: seq<nat>, now: nat)
    requires Exchanged(first, last, free) && |free| <= |first|
    requires now + last[|free| - 1].pages == free[|free| - 1] + first[|free| - 1].pages
    ensures Exchanged(first, last, free + [now])
  {
    forall b {:trigger ExchangedAt(first, last, free + [now], b)} | 0 <= b < |free| ensures ExchangedAt(first, last, free + [now], b) {
      if b < |free| - 1 { assert ExchangedAt(first, last, free, b); }
    }
  }

  lemma {:induction false} ExchangeTotal(first: seq<Paged>, last: seq<Paged>, free: seq<nat>, n: nat)
    requires Exchanged(first, last, free) && n < |free|
    ensures free[n] + TotalPages(last, n) == free[0] + TotalPages(first, n)
  {
    if n > 0 {
      ExchangeTotal(first, last, free, n - 1);
      assert ExchangedAt(first, last, free, n - 1);
    }
  }

  lemma {:induction false} TotalIsSum(ps: seq<Paged>, xs: seq<nat>, n: nat)
    requires n <= |ps| == |xs| && forall b {:trigger xs[b]} :: 0 <= b < n ==> ps[b].pages == xs[b]
    ensures TotalPages(ps, n) == SumTo(xs, n)
  {
    if n > 0 {
      TotalIsSum(ps, xs, n - 1);
      assert ps[n - 1].pages == xs[n - 1];
    }
  }

  /** A batch of cuts costs the free pages and the rows no more than one page for each that
      they give up while others hold it. */
  lemma CutsBudget<S, P>(pool: Pool<S, P>, seqs: seq<S>, lens: seq<nat>)
    requires Valid(pool) && Listed(pool, seqs, lens)
    ensures FreeAfter(pool, seqs, lens, |seqs|) + TotalPages(CutAll(PagedRows(pool, seqs), lens, pool.pageSize), |seqs|)
            + SumTo(Dues(pool, seqs, lens), |seqs|)
            >= |pool.available| + TotalPages(PagedRows(pool, seqs), |seqs|)
  {
    var free, have, left, dues := Frees(pool, seqs, lens), AllPages(pool, seqs, lens), AllLeft(pool, seqs, lens), Dues(pool, seqs, lens);
    CutsBalance(pool, seqs, lens);
    BalanceTo(free, have, left, dues, |seqs|);
    TotalIsSum(PagedRows(pool, seqs), have, |seqs|);
    TotalIsSum(CutAll(PagedRows(pool, seqs), lens, pool.pageSize), left, |seqs|);
    assert free[0] == |pool.available| && free[|seqs|] == FreeAfter(pool, seqs, lens, |seqs|);
  }

  /** The first b rows are cut behind their history; what they gave up is free. */
  ghost predicate CutBehind(cache: PageCache, seqs: seq<Sequence>, first: seq<Paged>, lens: seq<nat>, free: seq<nat>, b: nat)
    reads cache, cache.sequences, cache.pages
  {
    && Batch(cache, seqs) && b <= |first| == |lens| == |seqs|
    && BatchPaged(cache, seqs) == Mix(first, CutAll(first, lens, cache.pageSize), b)
    && Traced(cache, first, CutAll(first, lens, cache.pageSize), free, b)
  }

  lemma CutBehindStarts(cache: PageCache, seqs: seq<Sequence>, first: seq<Paged>, lens: seq<nat>)
    requires Batch(cache, seqs) && BatchPaged(cache, seqs) == first && |lens| == |first|
    ensures CutBehind(cache, seqs, first, lens, [|cache.availablePages|], 0)
  {
    MixEnds(first, CutAll(first, lens, cache.pageSize));
  }

  lemma CutBehindEnds(cache: PageCache, seqs: seq<Sequence>, first: seq<Paged>, lens: seq<nat>, free: seq<nat>)
    requires CutBehind(cache, seqs, first, lens, free, |seqs|)
    ensures BatchPaged(cache, seqs) == CutAll(first, lens, cache.pageSize)
    ensures Stocked(cache, CutAll(first, lens, cache.pageSize), free[0] + TotalPages(first, |seqs|))
  {
    MixEnds(first, CutAll(first, lens, cache.pageSize));
    ExchangeTotal(first, CutAll(first, lens, cache.pageSize), free, |seqs|);
  }

  method TruncateBehindNext(cache: PageCache, seqs: seq<Sequence>, b: nat, newLen: nat,
                            ghost first: seq<Paged>, ghost lens: seq<nat>, ghost free: seq<nat>)
      returns (ghost free': seq<nat>)
    requires CutBehind(cache, seqs, first, lens, free, b) && b < |seqs| && newLen == lens[b]
    requires LensBehind(Bare(first), lens)
    modifies cache, cache.sequences, cache.pages
    ensures cache.sequences == old(cache.sequences) && fresh(cache.pages - old(cache.pages))
    ensures CutBehind(cache, seqs, first, lens, free', b + 1) && free'[0] == free[0]
  {
    ghost var last := CutAll(first, lens, cache.pageSize);
    assert Bare(first)[b] == first[b].row;
    RowFits(cache, seqs, b);
    NoCopyBeyondHistory(cache.View(), seqs[b], newLen);
    MixStep(first, last, b);
    PagesOfRow(cache, seqs, b);
    var ok := TruncateRow(cache, seqs, b, newLen);
    PagesOfRow(cache, seqs, b);
    ExchangeNext(first, last, free, |cache.availablePages|);
    free' := free + [|cache.availablePages|];
  }

  lemma PagesOfRow(cache: PageCache, seqs: seq<Sequence>, b: nat)
    requires Batch(cache, seqs) && b < |seqs|
    ensures BatchPaged(cache, seqs)[b].pages == |seqs[b].pages|
  {
    assert cache.View().sequences[seqs[b]] == seqs[b].View();
  }

  /** Lengths between what each row has reported and what it has reserved. */
  ghost predicate LensBehind(rows: seq<Row>, lens: seq<nat>) {
    |rows| == |lens| && forall b {:trigger lens[b]} {:trigger rows[b]} :: 0 <= b < |rows| ==> |rows[b].history| <= lens[b] <= rows[b].allocLen
  }

  /** Truncate every row at or behind the end of its history: this never fails, and no
      page is lost. */
  method TruncateBehind(cache: PageCache, seqs: seq<Sequence>, lens: seq<nat>)
    requires Batch(cache, seqs) && |lens| == |seqs|
    requires LensBehind(BatchRows(cache, seqs), lens)
    modifies cache, cache.sequences, cache.pages
    ensures SameBatch(cache, seqs)
    ensures BatchRows(cache, seqs) == CutRows(old(BatchRows(cache, seqs)), lens)
    ensures BatchPaged(cache, seqs) == CutAll(old(BatchPaged(cache, seqs)), lens, cache.pageSize)
    ensures Stocked(cache, CutAll(old(BatchPaged(cache, seqs)), lens, cache.pageSize),
                    |old(cache.availablePages)| + TotalPages(old(BatchPaged(cache, seqs)), |seqs|))
  {
    ghost var first := BatchPaged(cache, seqs);
    BareCut(first, lens, cache.pageSize);
    BarePaged(cache, seqs);
    CutBehindStarts(cache, seqs, first, lens);
    ghost var free := TruncateBehindEach(cache, seqs, lens, first, [|cache.availablePages|]);
    CutBehindEnds(cache, seqs, first, lens, free);
    BarePaged(cache, seqs);
  }

  method TruncateBehindEach(cache: PageCache, seqs: seq<Sequence>, lens: seq<nat>, ghost first: seq<Paged>, ghost free: seq<nat>)
      returns (ghost free': seq<nat>)
    requires CutBehind(cache, seqs, first, lens, free, 0) && LensBehind(Bare(first), lens)
    modifies cache, cache.sequences, cache.pages
    ensures cache.sequences == old(cache.sequences) && fresh(cache.pages - old(cache.pages))
    ensures CutBehind(cache, seqs, first, lens, free', |seqs|) && free'[0] == free[0]
  {
    free' := free;
    var b := 0;
    while b < |seqs|
      invariant 0 <= b <= |seqs|
      invariant cache.sequences == old(cache.sequences) && fresh(cache.pages - old(cache.pages))
      invariant CutBehind(cache, seqs, first, lens, free', b) && free'[0] == free[0]
    {
      free' := TruncateBehindNext(cache, seqs, b, lens[b], first, lens, free');
      b := b + 1;
    }
  }

  /** Row r with tokens appended to its history. */
  function ReportedRow(r: Row, tokenIds: seq<int>, target: Option<int>): Row {
    Row(r.history + tokenIds, r.allocLen, target)
  }

  function ReportedRows(rows: seq<Row>, tokens: seq<seq<int>>, targets: seq<Option<int>>): (r: seq<Row>)
    requires |tokens| == |targets| == |rows|
    ensures |r| == |rows|
    ensures forall b :: 0 <= b < |rows| ==>
              r[b] == if tokens[b] == [] then rows[b] else ReportedRow(rows[b], tokens[b], targets[b])
  {
    seq(|rows|, b requires 0 <= b < |rows| =>
      if tokens[b] == [] then rows[b] else ReportedRow(rows[b], tokens[b], targets[b]))
  }

  /** The rows changed, their pages not. */
  function WithRows(ps: seq<Paged>, rows: seq<Row>): (r: seq<Paged>)
    requires |rows| == |ps|
    ensures |r| == |ps| && forall b :: 0 <= b < |ps| ==> r[b] == Paged(rows[b], ps[b].pages)
  {
    seq(|ps|, b requires 0 <= b < |ps| => Paged(rows[b], ps[b].pages))
  }

  lemma BareWith(ps: seq<Paged>, rows: seq<Row>)
    requires |rows| == |ps|
    ensures Bare(WithRows(ps, rows)) == rows
  {
  }

  method ReportNext(cache: PageCache, seqs: seq<Sequence>, b: nat, tokenIds: seq<int>, target: Option<int>,
                    ghost first: seq<Paged>, ghost last: seq<Paged>)
    requires Batch(cache, seqs) && b < |seqs| == |first| == |last| && BatchPaged(cache, seqs) == Mix(first, last, b)
    requires |first[b].row.history| + |tokenIds| <= first[b].row.allocLen
    requires last[b] == if tokenIds == [] then first[b] else Paged(ReportedRow(first[b].row, tokenIds, target), first[b].pages)
    modifies cache, cache.sequences, cache.pages
    ensures KeepsPrivate(old(cache.View()), cache.View()) && cache.pages == old(cache.pages)
    ensures SameBatch(cache, seqs) && cache.availablePages == old(cache.availablePages)
    ensures BatchPaged(cache, seqs) == Mix(first, last, b + 1)
  {
    MixStep(first, last, b);
    if tokenIds != [] {
      var ok := ReportRow(cache, seqs, b, tokenIds, target);
    } else {
      assert Mix(first, last, b)[b := last[b]] == Mix(first, last, b);
    }
  }

  /** Every row has reserved room for its tokens. */
  ghost predicate TokensFit(rows: seq<Row>, tokens: seq<seq<int>>) {
    && |rows| == |tokens|
    && forall b {:trigger tokens[b]} {:trigger rows[b]} :: 0 <= b < |rows| ==> |rows[b].history| + |tokens[b]| <= rows[b].allocLen
  }

  /** Report every row's inputs and its next target; rows without inputs are left alone. */
  method ReportAll(cache: PageCache, seqs: seq<Sequence>, tokens: seq<seq<int>>, targets: seq<Option<int>>)
    requires Batch(cache, seqs) && |tokens| == |targets| == |seqs| && TokensFit(BatchRows(cache, seqs), tokens)
    modifies cache, cache.sequences, cache.pages
    ensures KeepsPrivate(old(cache.View()), cache.View()) && cache.pages == old(cache.pages)
    ensures SameBatch(cache, seqs) && cache.availablePages == old(cache.availablePages)
    ensures BatchRows(cache, seqs) == ReportedRows(old(BatchRows(cache, seqs)), tokens, targets)
    ensures BatchPaged(cache, seqs) == WithRows(old(BatchPaged(cache, seqs)), ReportedRows(old(BatchRows(cache, seqs)), tokens, targets))
  {
    ghost var first, rows := BatchPaged(cache, seqs), BatchRows(cache, seqs);
    ghost var last := WithRows(first, ReportedRows(rows, tokens, targets));
    BareWith(first, ReportedRows(rows, tokens, targets));
    MixEnds(first, last);
    BarePaged(cache, seqs);
    var b := 0;
    while b < |seqs|
      invariant 0 <= b <= |seqs|
      invariant SameBatch(cache, seqs) && cache.pages == old(cache.pages) && cache.availablePages == old(cache.availablePages)
      invariant BatchPaged(cache, seqs) == Mix(first, last, b) && KeepsPrivate(old(cache.View()), cache.View())
    {
      ghost var view := cache.View();
      ReportNext(cache, seqs, b, tokens[b], targets[b], first, last);
      KeepsPrivateTransitive(old(cache.View()), view, cache.View());
      b := b + 1;
    }
    BarePaged(cache, seqs);
  }

  function ResizedRows(rows: seq<Row>, lens: seq<nat>): (r: seq<Row>)
    requires |lens| == |rows|
    ensures |r| == |rows|
    ensures forall b :: 0 <= b < |rows| ==> r[b] == rows[b].(allocLen := lens[b])
  {
    seq(|rows|, b requires 0 <= b < |rows| => rows[b].(allocLen := lens[b]))
  }

  method ResizeNext(cache: PageCache, seqs: seq<Sequence>, b: nat, newLen: nat, ghost first: seq<Paged>, ghost last: seq<Paged>)
    requires Batch(cache, seqs) && b < |seqs| == |first| == |last| && BatchPaged(cache, seqs) == Mix(first, last, b)
    requires |first[b].row.history| <= newLen <= first[b].row.allocLen
    requires last[b] == Paged(first[b].row.(allocLen := newLen), first[b].pages)
    modifies cache, cache.sequences, cache.pages
    ensures SameBatch(cache, seqs) && cache.availablePages == old(cache.availablePages)
    ensures BatchPaged(cache, seqs) == Mix(first, last, b + 1)
  {
    MixStep(first, last, b);
    ResizeRow(cache, seqs, b, newLen);
  }

  /** Move every row's reserved length back without touching its pages. */
  method ResizeAll(cache: PageCache, seqs: seq<Sequence>, lens: seq<nat>)
    requires Batch(cache, seqs) && |lens| == |seqs|
    requires LensBehind(BatchRows(cache, seqs), lens)
    modifies cache, cache.sequences, cache.pages
    ensures SameBatch(cache, seqs) && cache.availablePages == old(cache.availablePages)
    ensures BatchRows(cache, seqs) == ResizedRows(old(BatchRows(cache, seqs)), lens)
    ensures BatchPaged(cache, seqs) == WithRows(old(BatchPaged(cache, seqs)), ResizedRows(old(BatchRows(cache, seqs)), lens))
  {
    ghost var first, rows := BatchPaged(cache, seqs), BatchRows(cache, seqs);
    ghost var last := WithRows(first, ResizedRows(rows, lens));
    BareWith(first, ResizedRows(rows, lens));
    MixEnds(first, last);
    BarePaged(cache, seqs);
    var b := 0;
    while b < |seqs|
      invariant 0 <= b <= |seqs|
      invariant SameBatch(cache, seqs) && cache.availablePages == old(cache.availablePages)
      invariant BatchPaged(cache, seqs) == Mix(first, last, b)
    {
      ResizeNext(cache, seqs, b, lens[b], first, last);
      b := b + 1;
    }
    BarePaged(cache, seqs);
  }

  // ---------------------------------------------------------------------
  // Planning: all rows get their new positions, or none does

  function Sum(xs: seq<nat>): nat {
    if xs == [] then 0 else xs[0] + Sum(xs[1..])
  }

  ghost function Needs<S, P>(pool: Pool<S, P>, seqs: seq<S>, lens: seq<nat>): (r: seq<nat>)
    requires |lens| == |seqs| && forall b :: 0 <= b < |seqs| ==> seqs[b] in pool.sequences
    ensures |r| == |seqs|
    ensures forall b :: 0 <= b < |seqs| ==> r[b] == NewPages(pool, seqs[b], lens[b])
  {
    seq(|seqs|, b requires 0 <= b < |seqs| => NewPages(pool, seqs[b], lens[b]))
  }

  function GrownRows(rows: seq<Row>, lens: seq<nat>): (r: seq<Row>)
    requires |lens| == |rows|
    ensures |r| == |rows|
    ensures forall b :: 0 <= b < |rows| ==> r[b] == rows[b].(allocLen := rows[b].allocLen + lens[b])
  {
    seq(|rows|, b requires 0 <= b < |rows| => rows[b].(allocLen := rows[b].allocLen + lens[b]))
  }

  function GrownAll(ps: seq<Paged>, lens: seq<nat>, size: nat): (r: seq<Paged>)
    requires |lens| == |ps| && size > 0
    ensures |r| == |ps| && forall b :: 0 <= b < |ps| ==> r[b] == GrownPaged(ps[b], lens[b], size)
  {
    seq(|ps|, b requires 0 <= b < |ps| => GrownPaged(ps[b], lens[b], size))
  }

  lemma BareGrown(ps: seq<Paged>, lens: seq<nat>, size: nat)
    requires |lens| == |ps| && size > 0
    ensures Bare(GrownAll(ps, lens, size)) == GrownRows(Bare(ps), lens)
  {
  }

  /** Pages needed by all rows together. */
  method CountPages(cache: PageCache, seqs: seq<Sequence>, lens: seq<nat>) returns (needed: nat)
    requires Batch(cache, seqs) && |lens| == |seqs|
    ensures needed == Sum(Needs(cache.View(), seqs, lens))
  {
    ghost var needs := Needs(cache.View(), seqs, lens);
    needed := 0;
    var b := 0;
    while b < |seqs|
      invariant 0 <= b <= |seqs|
      invariant needed + Sum(needs[b..]) == Sum(needs)
    {
      assert needs[b..][1..] == needs[b + 1..];
      assert cache.View().sequences[seqs[b]] == seqs[b].View();
      needed := needed + Max(0, CeilDiv(seqs[b].allocLen + lens[b], cache.pageSize) - |seqs[b].pages|);
      b := b + 1;
    }
  }

  /** Reserve lens[b] further positions in every row. It succeeds iff the pages the
      grown rows have then are no more than the pages the rows have and the free ones. */
  method Reserve(cache: PageCache, seqs: seq<Sequence>, lens: seq<nat>) returns (ok: bool)
    requires Batch(cache, seqs) && |lens| == |seqs|
    modifies cache, cache.sequences, cache.pages
    ensures SameBatch(cache, seqs) && KeepsPrivate(old(cache.View()), cache.View())
    ensures ok <==> Sum(Needs(old(cache.View()), seqs, lens)) <= |old(cache.availablePages)|
    ensures ok <==> TotalPages(GrownAll(old(BatchPaged(cache, seqs)), lens, cache.pageSize), |seqs|)
                    <= |old(cache.availablePages)| + TotalPages(old(BatchPaged(cache, seqs)), |seqs|)
    ensures !ok ==> cache.View() == old(cache.View())
    ensures BatchRows(cache, seqs)
         == if ok then GrownRows(old(BatchRows(cache, seqs)), lens) else old(BatchRows(cache, seqs))
    ensures var ps := old(BatchPaged(cache, seqs));
            var ps' := if ok then GrownAll(ps, lens, cache.pageSize) else ps;
            BatchPaged(cache, seqs) == ps' && Stocked(cache, ps', |old(cache.availablePages)| + TotalPages(ps, |seqs|))
  {
    NeedsArePages(cache.View(), seqs, lens);
    BareGrown(BatchPaged(cache, seqs), lens, cache.pageSize);
    BarePaged(cache, seqs);
    var needed := CountPages(cache, seqs, lens);
    if needed > |cache.availablePages| { return false; }
    ReserveRows(cache, seqs, lens);
    BarePaged(cache, seqs);
    ok := true;
  }

  /** What the rows need is what they have once grown, less what they have. */
  lemma NeedsArePages<S, P>(pool: Pool<S, P>, seqs: seq<S>, lens: seq<nat>)
    requires |lens| == |seqs| && forall b :: 0 <= b < |seqs| ==> seqs[b] in pool.sequences
    ensures Sum(Needs(pool, seqs, lens)) + TotalPages(PagedRows(pool, seqs), |seqs|)
         == TotalPages(GrownAll(PagedRows(pool, seqs), lens, pool.pageSize), |seqs|)
  {
    var needs := Needs(pool, seqs, lens);
    SumFromEnd(needs, |needs|);
    assert needs[|needs|..] == [];
    var ps := PagedRows(pool, seqs);
    var grown := GrownAll(ps, lens, pool.pageSize);
    forall b | 0 <= b < |seqs| ensures needs[b] + ps[b].pages == grown[b].pages { NeedOfOne(pool, seqs[b], lens[b]); }
    NeedsUpTo(needs, ps, grown, |seqs|);
  }

  lemma NeedOfOne<S, P>(pool: Pool<S, P>, s: S, len: nat)
    requires s in pool.sequences
    ensures NewPages(pool, s, len) + PagedOf(pool, s).pages == GrownPaged(PagedOf(pool, s), len, pool.pageSize).pages
  {
  }

  lemma {:induction false} SumFromEnd(xs: seq<nat>, n: nat)
    requires n <= |xs|
    ensures Sum(xs) == SumTo(xs, n) + Sum(xs[n..])
  {
    if n > 0 {
      SumFromEnd(xs, n - 1);
      assert xs[n - 1..][1..] == xs[n..];
    } else {
      assert xs[0..] == xs;
    }
  }

  lemma {:induction false} NeedsUpTo(needs: seq<nat>, ps: seq<Paged>, grown: seq<Paged>, n: nat)
    requires n <= |needs| == |ps| == |grown| && forall b :: 0 <= b < n ==> needs[b] + ps[b].pages == grown[b].pages
    ensures SumTo(needs, n) + TotalPages(ps, n) == TotalPages(grown, n)
  {
    if n > 0 { NeedsUpTo(needs, ps, grown, n - 1); }
  }

  /** What each row gains when it is grown. */
  ghost predicate Gains(needs: seq<nat>, first: seq<Paged>, last: seq<Paged>) {
    && |needs| == |first| == |last|
    && forall j {:trigger needs[j]} :: 0 <= j < |needs| ==> needs[j] + first[j].pages == last[j].pages
  }

  /** The first b rows are grown, and what the others need is free. */
  ghost predicate RoomFrom(cache: PageCache, seqs: seq<Sequence>, lens: seq<nat>, needs: seq<nat>, b: nat, first: seq<Paged>,
                           free: seq<nat>)
    reads cache, cache.sequences, cache.pages
  {
    && Batch(cache, seqs) && b <= |seqs| == |needs| == |lens| == |first|
    && Gains(needs, first, GrownAll(first, lens, cache.pageSize))
    && BatchPaged(cache, seqs) == Mix(first, GrownAll(first, lens, cache.pageSize), b)
    && Sum(needs[b..]) <= |cache.availablePages|
    && Traced(cache, first, GrownAll(first, lens, cache.pageSize), free, b)
  }

  method ReserveNext(cache: PageCache, seqs: seq<Sequence>, lens: seq<nat>, ghost needs: seq<nat>, b: nat,
                     ghost first: seq<Paged>, ghost free: seq<nat>)
      returns (ghost free': seq<nat>)
    requires RoomFrom(cache, seqs, lens, needs, b, first, free) && b < |seqs|
    modifies cache, cache.sequences, cache.pages
    ensures cache.sequences == old(cache.sequences) && fresh(cache.pages - old(cache.pages))
    ensures KeepsPrivate(old(cache.View()), cache.View())
    ensures RoomFrom(cache, seqs, lens, needs, b + 1, first, free') && free'[0] == free[0]
  {
    MixStep(first, GrownAll(first, lens, cache.pageSize), b);
    assert needs[b..][1..] == needs[b + 1..];
    NeedOfOne(cache.View(), seqs[b], lens[b]);
    var ok := AppendRow(cache, seqs, b, lens[b]);
    assert ok;
    ExchangeNext(first, GrownAll(first, lens, cache.pageSize), free, |cache.availablePages|);
    free' := free + [|cache.availablePages|];
  }

  lemma RoomAtFirst(cache: PageCache, seqs: seq<Sequence>, lens: seq<nat>)
    requires Batch(cache, seqs) && |lens| == |seqs|
    requires Sum(Needs(cache.View(), seqs, lens)) <= |cache.availablePages|
    ensures RoomFrom(cache, seqs, lens, Needs(cache.View(), seqs, lens), 0, BatchPaged(cache, seqs), [|cache.availablePages|])
  {
    var needs, first := Needs(cache.View(), seqs, lens), BatchPaged(cache, seqs);
    assert needs[0..] == needs;
    MixEnds(first, GrownAll(first, lens, cache.pageSize));
    forall j | 0 <= j < |seqs| ensures needs[j] + first[j].pages == GrownAll(first, lens, cache.pageSize)[j].pages {
      NeedOfOne(cache.View(), seqs[j], lens[j]);
    }
  }

  lemma RoomAtLast(cache: PageCache, seqs: seq<Sequence>, lens: seq<nat>, needs: seq<nat>, first: seq<Paged>, free: seq<nat>)
    requires RoomFrom(cache, seqs, lens, needs, |seqs|, first, free)
    ensures BatchPaged(cache, seqs) == GrownAll(first, lens, cache.pageSize)
    ensures Stocked(cache, GrownAll(first, lens, cache.pageSize), free[0] + TotalPages(first, |seqs|))
  {
    MixEnds(first, GrownAll(first, lens, cache.pageSize));
    ExchangeTotal(first, GrownAll(first, lens, cache.pageSize), free, |seqs|);
  }

  /** The second loop of planPrefill and planDecode. */
  method ReserveRows(cache: PageCache, seqs: seq<Sequence>, lens: seq<nat>)
    requires Batch(cache, seqs) && |lens| == |seqs|
    requires Sum(Needs(cache.View(), seqs, lens)) <= |cache.availablePages|
    modifies cache, cache.sequences, cache.pages
    ensures SameBatch(cache, seqs) && KeepsPrivate(old(cache.View()), cache.View())
    ensures BatchPaged(cache, seqs) == GrownAll(old(BatchPaged(cache, seqs)), lens, cache.pageSize)
    ensures Stocked(cache, GrownAll(old(BatchPaged(cache, seqs)), lens, cache.pageSize),
                    |old(cache.availablePages)| + TotalPages(old(BatchPaged(cache, seqs)), |seqs|))
  {
    ghost var needs, first := Needs(cache.View(), seqs, lens), BatchPaged(cache, seqs);
    RoomAtFirst(cache, seqs, lens);
    ghost var free := ReserveEach(cache, seqs, lens, needs, first, [|cache.availablePages|]);
    RoomAtLast(cache, seqs, lens, needs, first, free);
  }

  method ReserveEach(cache: PageCache, seqs: seq<Sequence>, lens: seq<nat>, ghost needs: seq<nat>, ghost first: seq<Paged>,
                     ghost free: seq<nat>)
      returns (ghost free': seq<nat>)
    requires RoomFrom(cache, seqs, lens, needs, 0, first, free)
    modifies cache, cache.sequences, cache.pages
    ensures cache.sequences == old(cache.sequences) && fresh(cache.pages - old(cache.pages))
    ensures KeepsPrivate(old(cache.View()), cache.View())
    ensures RoomFrom(cache, seqs, lens, needs, |seqs|, first, free') && free'[0] == free[0]
  {
    free' := free;
    var b := 0;
    while b < |seqs|
      invariant 0 <= b <= |seqs|
      invariant cache.sequences == old(cache.sequences) && fresh(cache.pages - old(cache.pages))
      invariant KeepsPrivate(old(cache.View()), cache.View())
      invariant RoomFrom(cache, seqs, lens, needs, b, first, free') && free'[0] == free[0]
    {
      ghost var view := cache.View();
      free' := ReserveNext(cache, seqs, lens, needs, b, first, free');
      KeepsPrivateTransitive(old(cache.View()), view, cache.View());
      b := b + 1;
    }
  }

  /** planDecode's page count for one row is the append count for one token. */
  lemma DecodeNeed(cache: PageCache, seqs: seq<Sequence>, b: nat)
    requires Batch(cache, seqs) && b < |seqs|
    ensures NewPages(cache.View(), seqs[b], 1) == if PageOf(seqs[b].allocLen, cache.pageSize) >= |seqs[b].pages| then 1 else 0
  {
    assert cache.View().sequences[seqs[b]] == seqs[b].View();
    HistoryFits(cache.View(), seqs[b]);
    var n, size := seqs[b].allocLen, cache.pageSize;
    NextPosition(n, size);
    PageArithmetic(n, size);
    PageArithmetic(n + 1, size);
    if PageOf(n, size) > |seqs[b].pages| { TimesMono(|seqs[b].pages|, PageOf(n, size), size); }
  }
}
