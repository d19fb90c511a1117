/** Free pages and held pages, counted together: a cut behind the reported history gives
    every page it drops back (src/paged_sequence.ts). */
module PageStock {
  import opened Wrappers
  import opened TokenChunks
  import opened PagePool
  import opened PageLaws

  function SumTo(xs: seq<nat>, n: nat): nat
    requires n <= |xs|
  {
    if n == 0 then 0 else SumTo(xs, n - 1) + xs[n - 1]
  }

  lemma {:induction false} SumToUpdate(xs: seq<nat>, b: nat, x: nat, n: nat)
    requires b < |xs| && n <= |xs|
    ensures SumTo(xs[b := x], n) == SumTo(xs, n) + (if b < n then x - xs[b] else 0)
  {
    if n > 0 { SumToUpdate(xs, b, x, n - 1); }
  }

  lemma {:induction false} SumToMono(xs: seq<nat>, ys: seq<nat>, n: nat)
    requires |xs| == |ys| && n <= |xs| && forall i {:trigger xs[i]} {:trigger ys[i]} :: 0 <= i < n ==> xs[i] <= ys[i]
    ensures SumTo(xs, n) <= SumTo(ys, n)
  {
    if n > 0 { SumToMono(xs, ys, n - 1); }
  }

  lemma {:induction false} WholePages(k: nat, size: nat)
    requires size > 0
    ensures PageOf(Times(k, size), size) == k && OffsetOf(Times(k, size), size) == 0
  {
    if k > 0 { WholePages(k - 1, size); }
  }

  lemma {:induction false} PagesForMono(m: nat, n: nat, size: nat)
    requires size > 0 && m <= n
    ensures PagesFor(m, size) <= PagesFor(n, size)
  {
    PagesForBounds(m, size);
    PagesForBounds(n, size);
  }

  /** A page behind the reported history is held by its sequence alone. */
  lemma EmptyIsPrivate<S, P>(pool: Pool<S, P>, s: S, i: nat)
    requires Valid(pool) && s in pool.sequences
    requires PagesFor(|History(pool, s)|, pool.pageSize) <= i < |pool.sequences[s].pages|
    ensures pool.sequences[s].pages[i] in pool.pages && pool.pages[pool.sequences[s].pages[i]].refs == 1
  {
    assert WellShaped(pool, s);
    var pages, size := pool.sequences[s].pages, pool.pageSize;
    PagesForBounds(|History(pool, s)|, size);
    TimesMono(PagesFor(|History(pool, s)|, size), i, size);
    WholePages(i, size);
    FlatIndex(Lists(pool.pages, pages), size, Times(i, size));
    HeldPageCounted(pool, s, pages[i]);
    assert pool.pages[pages[i]].tokenIds == [];
    assert SharedFull(pool);
  }

  /** Every page of s from index k on is held by s alone. */
  ghost predicate PrivateFrom<S, P>(pool: Pool<S, P>, s: S, k: nat)
    requires s in pool.sequences
  {
    var pages := pool.sequences[s].pages;
    forall i {:trigger pages[i]} :: k <= i < |pages| ==> pages[i] in pool.pages && pool.pages[pages[i]].refs == 1
  }

  lemma PopKeepsPrivate<S, P>(pool: Pool<S, P>, s: S, k: nat)
    requires Closed(pool) && CanPop(pool, s) && PrivateFrom(pool, s, k) && k < |pool.sequences[s].pages|
    ensures PrivateFrom(PopPage(pool, s), s, k)
    ensures |PopPage(pool, s).available| == |pool.available| + 1
  {
    assert ClosedAt(pool, s);
    var pages := pool.sequences[s].pages;
    assert PopPage(pool, s).sequences[s].pages == pages[..|pages| - 1];
  }

  /** Popping private pages frees one id each. */
  lemma {:induction false} PopDownFrees<S, P>(pool: Pool<S, P>, s: S, n: nat)
    requires Conserved(pool) && s in pool.sequences && PrivateFrom(pool, s, PagesFor(n, pool.pageSize))
    ensures |PopDown(pool, s, n).available| + |PopDown(pool, s, n).sequences[s].pages|
         == |pool.available| + |pool.sequences[s].pages|
    decreases |pool.sequences[s].pages|
  {
    var v := pool.sequences[s];
    if v.pages != [] && n <= Times(|v.pages| - 1, pool.pageSize) {
      PagesForBounds(n, pool.pageSize);
      PopKeepsPrivate(pool, s, PagesFor(n, pool.pageSize));
      PopConserves(pool, s);
      PopShape(pool, s);
      PopDownFrees(PopPage(pool, s), s, n);
    }
  }

  /** A cut behind the history moves pages to the free list and loses none. */
  lemma TruncateFrees<S, P>(pool: Pool<S, P>, s: S, n: nat, spare: P)
    requires Valid(pool) && s in pool.sequences && |History(pool, s)| <= n < pool.sequences[s].allocLen
    requires !Copies(pool, s, n)
    ensures var result := Truncate(pool, s, n, spare);
            && result.Done? && s in result.pool.sequences
            && |result.pool.available| + |result.pool.sequences[s].pages| == |pool.available| + |pool.sequences[s].pages|
  {
    HistoryFits(pool, s);
    PagesForMono(|History(pool, s)|, n, pool.pageSize);
    var shortened := Retarget(pool, s, n, pool.sequences[s].targetToken);
    RetargetConserves(pool, s, n, pool.sequences[s].targetToken);
    forall i | PagesFor(n, pool.pageSize) <= i < |pool.sequences[s].pages|
      ensures pool.sequences[s].pages[i] in pool.pages && pool.pages[pool.sequences[s].pages[i]].refs == 1
    {
      EmptyIsPrivate(pool, s, i);
    }
    PopDownFrees(shortened, s, n);
    KeptSequences(pool, s, n);
    KeptRefs(pool, s, n);
    KeptConserves(pool, s, n);
    if OffsetOf(n, pool.pageSize) != 0 { KeptTail(pool, s, n); }
  }

  /** The page of an unaligned cut survives the popping with its count. */
  lemma KeptTail<S, P>(pool: Pool<S, P>, s: S, n: nat)
    requires Valid(pool) && s in pool.sequences && n < pool.sequences[s].allocLen
    requires OffsetOf(n, pool.pageSize) != 0 && !Copies(pool, s, n)
    ensures var kept, k := Kept(pool, s, n), PageOf(n, pool.pageSize);
            && k < |kept.sequences[s].pages| && kept.sequences[s].pages[k] in kept.pages
            && kept.pages[kept.sequences[s].pages[k]].refs <= 1
  {
    HistoryFits(pool, s);
    PageArithmetic(n, pool.pageSize);
    KeptSequences(pool, s, n);
    KeptConserves(pool, s, n);
    var pages, k := pool.sequences[s].pages, PageOf(n, pool.pageSize);
    assert ClosedAt(pool, s);
    assert pages[..k + 1][k] == pages[k];
    assert pages[k] in pages;
  }

  /** A cut at or behind the end of the history never copies a page. */
  lemma NoCopyBeyondHistory<S, P>(pool: Pool<S, P>, s: S, n: nat)
    requires Valid(pool) && s in pool.sequences && |History(pool, s)| <= n
    ensures !Copies(pool, s, n)
  {
    assert WellShaped(pool, s);
    var pages, k := pool.sequences[s].pages, PageOf(n, pool.pageSize);
    FlatIndex(Lists(pool.pages, pages), pool.pageSize, n);
    PageArithmetic(n, pool.pageSize);
    assert SharedFull(pool);
  }

  lemma TruncateMoves<S, P>(pool: Pool<S, P>, pool': Pool<S, P>, s: S, n: nat, spare: P)
    requires Valid(pool) && s in pool.sequences && |History(pool, s)| <= n < pool.sequences[s].allocLen
    requires Truncate(pool, s, n, spare) == Done(pool') && s in pool'.sequences
    ensures |pool'.available| + |pool'.sequences[s].pages| == |pool.available| + |pool.sequences[s].pages|
  {
    NoCopyBeyondHistory(pool, s, n);
    TruncateFrees(pool, s, n, spare);
  }
}
