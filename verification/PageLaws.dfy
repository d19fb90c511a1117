/** What truncation, reporting, appending and sharing keep and change. */
module PageLaws {
  import opened Wrappers
  import opened TokenChunks
  import opened PagePool

  // ---------------------------------------------------------------------
  // Sharing isolation

  lemma ReadsSameHistory<S, P>(pool: Pool<S, P>, pool': Pool<S, P>, t: S)
    requires ReadsSame(pool, pool', t)
    ensures Lists(pool'.pages, pool.sequences[t].pages) == Lists(pool.pages, pool.sequences[t].pages)
    ensures History(pool', t) == History(pool, t)
    ensures pool'.pageSize == pool.pageSize ==> (WellShaped(pool', t) <==> WellShaped(pool, t))
  {
  }

  lemma UntouchedTransitive<S, P>(x: Pool<S, P>, y: Pool<S, P>, z: Pool<S, P>, s: S)
    requires OthersUntouched(x, y, s) && OthersUntouched(y, z, s)
    ensures OthersUntouched(x, z, s)
  {
    forall t | t in x.sequences && t != s ensures ReadsSame(x, z, t) {
      assert ReadsSame(x, y, t) && ReadsSame(y, z, t);
    }
  }

  /** Everything of `Valid` except the shape of s and its sharing of short pages. */
  ghost predicate ValidExcept<S, P>(pool: Pool<S, P>, s: S) {
    && Conserved(pool) && SharedFull(pool) && s in pool.sequences
    && forall t {:trigger WellShaped(pool, t)} | t in pool.sequences && t != s :: WellShaped(pool, t)
  }

  lemma UntouchedKeepsShapes<S, P>(pool: Pool<S, P>, pool': Pool<S, P>, s: S)
    requires OthersUntouched(pool, pool', s) && pool'.pageSize == pool.pageSize
    requires forall t {:trigger WellShaped(pool, t)} | t in pool.sequences && t != s :: WellShaped(pool, t)
    requires pool'.sequences.Keys == pool.sequences.Keys
    ensures forall t {:trigger WellShaped(pool', t)} | t in pool'.sequences && t != s :: WellShaped(pool', t)
  {
    forall t | t in pool'.sequences && t != s ensures WellShaped(pool', t) {
      assert ReadsSame(pool, pool', t) && WellShaped(pool, t);
      ReadsSameHistory(pool, pool', t);
    }
  }

  /** Reported tokens fit the allocated length, and that fits the pages. */
  lemma HistoryFits<S, P>(pool: Pool<S, P>, s: S)
    requires Valid(pool) && s in pool.sequences
    ensures |History(pool, s)| <= pool.sequences[s].allocLen <= Times(|pool.sequences[s].pages|, pool.pageSize)
  {
    assert WellShaped(pool, s);
  }

  // ---------------------------------------------------------------------
  // Truncation

  /** The pool when truncate has popped pages and set length and target. */
  function Kept<S, P>(pool: Pool<S, P>, s: S, n: nat): Pool<S, P>
    requires s in pool.sequences
  {
    Retarget(PopDown(Retarget(pool, s, n, pool.sequences[s].targetToken), s, n), s, n, TokenAfter(pool, s, n))
  }

  lemma KeptConserves<S, P>(pool: Pool<S, P>, s: S, n: nat)
    requires Conserved(pool) && s in pool.sequences
    ensures Conserved(Kept(pool, s, n)) && SameTokens(pool, Kept(pool, s, n))
  {
    var shortened := Retarget(pool, s, n, pool.sequences[s].targetToken);
    RetargetConserves(pool, s, n, pool.sequences[s].targetToken);
    PopDownConserves(shortened, s, n);
    RetargetConserves(PopDown(shortened, s, n), s, n, TokenAfter(pool, s, n));
  }

  lemma KeptSequences<S, P>(pool: Pool<S, P>, s: S, n: nat)
    requires s in pool.sequences && n <= Times(|pool.sequences[s].pages|, pool.pageSize)
    ensures var v, kept, k := pool.sequences[s], Kept(pool, s, n), PagesFor(n, pool.pageSize);
            && k <= |v.pages|
            && kept.sequences == pool.sequences[s := SequenceView(v.pages[..k], n, TokenAfter(pool, s, n))]
            && kept.kv == pool.kv && kept.pageSize == pool.pageSize && kept.maxPages == pool.maxPages
  {
    PopDownSequences(Retarget(pool, s, n, pool.sequences[s].targetToken), s, n);
  }

  lemma KeptRefs<S, P>(pool: Pool<S, P>, s: S, n: nat)
    requires Conserved(pool) && s in pool.sequences && n <= Times(|pool.sequences[s].pages|, pool.pageSize)
    ensures var v, kept, k := pool.sequences[s], Kept(pool, s, n), PagesFor(n, pool.pageSize);
            && k <= |v.pages|
            && RefCounts(kept.pages, v.pages[..k]) == RefCounts(pool.pages, v.pages)[..k]
            && (kept.available == [] <==> pool.available == [] && !FreesAPage(pool, s, k))
  {
    RetargetConserves(pool, s, n, pool.sequences[s].targetToken);
    PopDownRefs(Retarget(pool, s, n, pool.sequences[s].targetToken), s, n);
  }

  lemma CountsOnlyUntouched<S, P>(pool: Pool<S, P>, pool': Pool<S, P>, s: S)
    requires Closed(pool) && SameTokens(pool, pool') && pool'.kv == pool.kv
    requires s in pool.sequences && s in pool'.sequences
    requires pool'.sequences == pool.sequences[s := pool'.sequences[s]]
    ensures OthersUntouched(pool, pool', s)
    ensures SharedFull(pool) && pool'.pageSize == pool.pageSize ==> SharedFull(pool')
  {
    forall t | t in pool.sequences && t != s ensures ReadsSame(pool, pool', t) { assert ClosedAt(pool, t); }
  }

  lemma KeptContents<S, P>(pool: Pool<S, P>, s: S, n: nat)
    requires Valid(pool) && s in pool.sequences && n < pool.sequences[s].allocLen
    ensures var v, kept, k := pool.sequences[s], Kept(pool, s, n), PagesFor(n, pool.pageSize);
            k <= |v.pages| && Contents(kept, v.pages[..k]) == Contents(pool, v.pages)[..k]
  {
    assert WellShaped(pool, s);
    KeptConserves(pool, s, n);
    KeptSequences(pool, s, n);
  }

  lemma KeptOthers<S, P>(pool: Pool<S, P>, s: S, n: nat)
    requires Valid(pool) && s in pool.sequences && n < pool.sequences[s].allocLen
    ensures OthersUntouched(pool, Kept(pool, s, n), s) && ValidExcept(Kept(pool, s, n), s)
  {
    assert WellShaped(pool, s);
    var kept := Kept(pool, s, n);
    KeptConserves(pool, s, n);
    KeptSequences(pool, s, n);
    CountsOnlyUntouched(pool, kept, s);
    UntouchedKeepsShapes(pool, kept, s);
  }

  lemma ListsPrefix<P>(store: map<P, PageView>, store': map<P, PageView>, ps: seq<P>, k: nat)
    requires k <= |ps| && forall i :: 0 <= i < k ==>
                            ps[i] in store && ps[i] in store' && store'[ps[i]].tokenIds == store[ps[i]].tokenIds
    ensures Lists(store', ps[..k]) == Lists(store, ps)[..k]
  {
  }

  lemma KeptLists<S, P>(pool: Pool<S, P>, s: S, n: nat)
    requires Valid(pool) && s in pool.sequences && n < pool.sequences[s].allocLen
    ensures var v, kept, k := pool.sequences[s], Kept(pool, s, n), PagesFor(n, pool.pageSize);
            && k <= |v.pages|
            && kept.sequences[s].pages == v.pages[..k]
            && Lists(kept.pages, v.pages[..k]) == Lists(pool.pages, v.pages)[..k]
            && Shaped(Lists(kept.pages, v.pages[..k]), pool.pageSize)
            && History(kept, s) == History(pool, s)[..Min(|History(pool, s)|, Times(k, pool.pageSize))]
  {
    assert ClosedAt(pool, s);
    assert WellShaped(pool, s);
    KeptConserves(pool, s, n);
    KeptSequences(pool, s, n);
    var v, kept, k := pool.sequences[s], Kept(pool, s, n), PagesFor(n, pool.pageSize);
    ListsPrefix(pool.pages, kept.pages, v.pages, k);
    FlatTake(Lists(pool.pages, v.pages), pool.pageSize, k);
  }

  /** Detaching a shared page leaves every sequence's tokens as they were, and the
      copy has the physical contents of the original. */
  lemma DetachUntouched<S, P>(pool: Pool<S, P>, s: S, k: nat, spare: P)
    requires Conserved(pool) && s in pool.sequences && k < |pool.sequences[s].pages|
    requires pool.available != [] && spare !in pool.pages
    requires pool.sequences[s].pages[k] in pool.pages && pool.pages[pool.sequences[s].pages[k]].refs > 1
    ensures OthersUntouched(pool, Detach(pool, s, k, spare), s)
  {
    var pool' := Detach(pool, s, k, spare);
    FreshIdUnread(pool);
    forall t | t in pool.sequences && t != s ensures ReadsSame(pool, pool', t) {
      assert ClosedAt(pool, t);
      forall p | p in pool.sequences[t].pages ensures p in pool.pages && pool.pages[p].id != pool.available[0] {
        HeldPageCounted(pool, t, p);
      }
    }
  }

  lemma DetachValid<S, P>(pool: Pool<S, P>, s: S, k: nat, spare: P)
    requires ValidExcept(pool, s) && k < |pool.sequences[s].pages| && pool.available != [] && spare !in pool.pages
    requires pool.sequences[s].pages[k] in pool.pages && pool.pages[pool.sequences[s].pages[k]].refs > 1
    ensures ValidExcept(Detach(pool, s, k, spare), s)
  {
    DetachCounts(pool, s, k, spare);
    DetachPartitions(pool, s, k, spare);
    DetachUntouched(pool, s, k, spare);
    UntouchedKeepsShapes(pool, Detach(pool, s, k, spare), s);
  }

  lemma DetachReads<S, P>(pool: Pool<S, P>, s: S, k: nat, spare: P)
    requires Conserved(pool) && s in pool.sequences && k < |pool.sequences[s].pages|
    requires pool.available != [] && spare !in pool.pages
    requires pool.sequences[s].pages[k] in pool.pages && pool.pages[pool.sequences[s].pages[k]].refs > 1
    ensures var pool' := Detach(pool, s, k, spare);
            && Lists(pool'.pages, pool'.sequences[s].pages) == Lists(pool.pages, pool.sequences[s].pages)
            && Contents(pool', pool'.sequences[s].pages) == Contents(pool, pool.sequences[s].pages)
  {
    assert ClosedAt(pool, s);
    var pages, pages' := pool.sequences[s].pages, Detach(pool, s, k, spare).sequences[s].pages;
    var pool' := Detach(pool, s, k, spare);
    FreshIdUnread(pool);
    assert pool.pages[pages[k]].id in pool.kv;
    forall i | 0 <= i < |pages| ensures Contents(pool', pages')[i] == Contents(pool, pages)[i] {
      assert pages[i] in pages;
      HeldPageCounted(pool, s, pages[i]);
    }
  }

  /** No held page carries a free id. */
  lemma FreshIdUnread<S, P>(pool: Pool<S, P>)
    requires Conserved(pool) && pool.available != []
    ensures forall p | p in pool.pages :: pool.pages[p].refs > 0 ==> pool.pages[p].id != pool.available[0]
  {
    assert pool.available[0] in pool.available;
    assert !HeldId(pool, pool.available[0]);
  }

  lemma CutUntouched<S, P>(pool: Pool<S, P>, s: S, p: P, o: nat)
    requires Conserved(pool) && s in pool.sequences && p in pool.sequences[s].pages
    requires p in pool.pages && pool.pages[p].refs <= 1
    ensures OthersUntouched(pool, CutPage(pool, p, o), s)
  {
    HeldPageCounted(pool, s, p);
    forall t | t in pool.sequences && t != s ensures ReadsSame(pool, CutPage(pool, p, o), t) {
      assert ClosedAt(pool, t);
      assert t in Holders(pool, p) <==> p in pool.sequences[t].pages;
    }
  }

  lemma CutHistory<S, P>(pool: Pool<S, P>, s: S, k: nat, o: nat)
    requires Closed(pool) && s in pool.sequences && |pool.sequences[s].pages| == k + 1 && o <= pool.pageSize
    requires Shaped(Lists(pool.pages, pool.sequences[s].pages), pool.pageSize)
    requires pool.sequences[s].allocLen == Times(k, pool.pageSize) + o
    ensures var pool' := CutPage(pool, pool.sequences[s].pages[k], o);
            && WellShaped(pool', s)
            && History(pool', s) == History(pool, s)[..Min(|History(pool, s)|, pool.sequences[s].allocLen)]
  {
    assert ClosedAt(pool, s);
    var pages := pool.sequences[s].pages;
    var pool' := CutPage(pool, pages[k], o);
    var ts := Lists(pool.pages, pages);
    assert pages[k] in pages;
    assert forall i :: 0 <= i < k ==> pages[i] != pages[k];
    assert Lists(pool'.pages, pages) == ts[..k] + [ts[k][..Min(|ts[k]|, o)]];
    FlatCut(ts, pool.pageSize, k, o);
    assert Times(k + 1, pool.pageSize) == pool.pageSize + Times(k, pool.pageSize);
  }

  /** Cutting a private last page. */
  lemma CutFacts<S, P>(pool: Pool<S, P>, s: S, k: nat, o: nat)
    requires ValidExcept(pool, s) && |pool.sequences[s].pages| == k + 1 && o <= pool.pageSize
    requires Shaped(Lists(pool.pages, pool.sequences[s].pages), pool.pageSize)
    requires pool.sequences[s].pages[k] in pool.pages && pool.pages[pool.sequences[s].pages[k]].refs <= 1
    requires pool.sequences[s].allocLen == Times(k, pool.pageSize) + o
    ensures var pool' := CutPage(pool, pool.sequences[s].pages[k], o);
            && Valid(pool') && OthersUntouched(pool, pool', s)
            && Contents(pool', pool.sequences[s].pages) == Contents(pool, pool.sequences[s].pages)
            && History(pool', s) == History(pool, s)[..Min(|History(pool, s)|, pool.sequences[s].allocLen)]
  {
    var last := pool.sequences[s].pages[k];
    CutConserves(pool, last, o);
    CutUntouched(pool, s, last, o);
    UntouchedKeepsShapes(pool, CutPage(pool, last, o), s);
    CutHistory(pool, s, k, o);
  }

  lemma CutConserves<S, P>(pool: Pool<S, P>, p: P, o: nat)
    requires Conserved(pool) && SharedFull(pool) && p in pool.pages && pool.pages[p].refs <= 1
    ensures Conserved(CutPage(pool, p, o)) && SharedFull(CutPage(pool, p, o))
  {
    forall t | t in pool.sequences ensures ClosedAt(CutPage(pool, p, o), t) { assert ClosedAt(pool, t); }
    var pool' := CutPage(pool, p, o);
    forall q | q in pool'.pages ensures pool'.pages[q].refs == |Holders(pool', q)| {
      assert Holders(pool', q) == Holders(pool, q);
    }
    SameIdsPartitioned(pool, pool');
  }

  /** The target a sequence keeps when it is cut back to n tokens. */
  function TargetAt(history: seq<int>, target: Option<int>, n: nat): Option<int> {
    if n < |history| then Some(history[n]) else if n == |history| then target else None
  }

  lemma TokenAfterIsTarget<S, P>(pool: Pool<S, P>, s: S, n: nat)
    requires Valid(pool) && s in pool.sequences
    ensures TokenAfter(pool, s, n) == TargetAt(History(pool, s), pool.sequences[s].targetToken, n)
  {
    assert WellShaped(pool, s);
    FlatIndex(Lists(pool.pages, pool.sequences[s].pages), pool.pageSize, n);
  }

  /** `pool'` is `pool` with sequence s cut back to n tokens and nothing else
      readable changed. */
  ghost predicate Rewound<S, P>(pool: Pool<S, P>, pool': Pool<S, P>, s: S, n: nat)
    requires s in pool.sequences
  {
    && Valid(pool') && OthersUntouched(pool, pool', s)
    && pool'.sequences.Keys == pool.sequences.Keys
    && pool'.pageSize == pool.pageSize && pool'.maxPages == pool.maxPages
    && var h, v, v' := History(pool, s), pool.sequences[s], pool'.sequences[s];
       && History(pool', s) == h[..Min(|h|, n)]
       && v'.allocLen == n
       && |v'.pages| == PagesFor(n, pool.pageSize)
       && v'.targetToken == TargetAt(h, v.targetToken, n)
       && |v'.pages| <= |v.pages|
       && Contents(pool', v'.pages) == Contents(pool, v.pages)[..|v'.pages|]
  }

  lemma AlignedShape<S, P>(pool: Pool<S, P>, s: S, n: nat)
    requires Valid(pool) && s in pool.sequences && n < pool.sequences[s].allocLen && OffsetOf(n, pool.pageSize) == 0
    ensures WellShaped(Kept(pool, s, n), s)
    ensures History(Kept(pool, s, n), s) == History(pool, s)[..Min(|History(pool, s)|, n)]
  {
    assert WellShaped(pool, s);
    KeptLists(pool, s, n);
    KeptSequences(pool, s, n);
    PageArithmetic(n, pool.pageSize);
  }

  lemma TruncateAligned<S, P>(pool: Pool<S, P>, s: S, n: nat)
    requires Valid(pool) && s in pool.sequences && n < pool.sequences[s].allocLen && OffsetOf(n, pool.pageSize) == 0
    ensures Rewound(pool, Kept(pool, s, n), s, n)
  {
    KeptContents(pool, s, n);
    assert WellShaped(pool, s);
    KeptOthers(pool, s, n);
    KeptSequences(pool, s, n);
    AlignedShape(pool, s, n);
    TokenAfterIsTarget(pool, s, n);
  }

  /** Nothing but sequence s may have changed between the pools. */
  ghost predicate SameElsewhere<S, P>(pool: Pool<S, P>, mid: Pool<S, P>, s: S) {
    && ValidExcept(mid, s) && s in pool.sequences && OthersUntouched(pool, mid, s)
    && mid.sequences.Keys == pool.sequences.Keys
    && mid.pageSize == pool.pageSize && mid.maxPages == pool.maxPages
  }

  /** Sequence s is rewound to n but for the tokens of its last page. */
  ghost predicate TailUncut<S, P>(pool: Pool<S, P>, mid: Pool<S, P>, s: S, n: nat)
    requires s in pool.sequences && s in mid.sequences
  {
    var k, v, v' := PagesFor(n, pool.pageSize), pool.sequences[s], mid.sequences[s];
    && |v'.pages| == k && 0 < k <= |v.pages|
    && v'.allocLen == n && v'.targetToken == TokenAfter(pool, s, n)
    && Lists(mid.pages, v'.pages) == Lists(pool.pages, v.pages)[..k]
    && Contents(mid, v'.pages) == Contents(pool, v.pages)[..k]
    && v'.pages[k - 1] in mid.pages
  }

  ghost predicate AboutToCut<S, P>(pool: Pool<S, P>, mid: Pool<S, P>, s: S, n: nat) {
    SameElsewhere(pool, mid, s) && TailUncut(pool, mid, s, n)
  }

  lemma AboutToCutHistory<S, P>(pool: Pool<S, P>, mid: Pool<S, P>, s: S, n: nat)
    requires s in pool.sequences && s in mid.sequences && mid.pageSize == pool.pageSize
    requires Shaped(Lists(pool.pages, pool.sequences[s].pages), pool.pageSize)
    requires PagesFor(n, pool.pageSize) <= |pool.sequences[s].pages|
    requires Lists(mid.pages, mid.sequences[s].pages)
          == Lists(pool.pages, pool.sequences[s].pages)[..PagesFor(n, pool.pageSize)]
    ensures Shaped(Lists(mid.pages, mid.sequences[s].pages), mid.pageSize)
    ensures History(mid, s)[..Min(|History(mid, s)|, n)] == History(pool, s)[..Min(|History(pool, s)|, n)]
  {
    var k := PagesFor(n, pool.pageSize);
    PagesForBounds(n, pool.pageSize);
    FlatTake(Lists(pool.pages, pool.sequences[s].pages), pool.pageSize, k);
  }

  lemma CutIsRewind<S, P>(pool: Pool<S, P>, mid: Pool<S, P>, s: S, n: nat)
    requires Valid(pool) && AboutToCut(pool, mid, s, n) && OffsetOf(n, pool.pageSize) != 0
    requires mid.pages[mid.sequences[s].pages[PagesFor(n, pool.pageSize) - 1]].refs <= 1
    ensures Rewound(pool, CutPage(mid, mid.sequences[s].pages[PagesFor(n, pool.pageSize) - 1], OffsetOf(n, pool.pageSize)), s, n)
  {
    assert WellShaped(pool, s);
    var k, o := PagesFor(n, pool.pageSize), OffsetOf(n, pool.pageSize);
    PageArithmetic(n, pool.pageSize);
    AboutToCutHistory(pool, mid, s, n);
    CutFacts(mid, s, k - 1, o);
    UntouchedTransitive(pool, mid, CutPage(mid, mid.sequences[s].pages[k - 1], o), s);
    TokenAfterIsTarget(pool, s, n);
  }

  lemma KeptLastPage<S, P>(pool: Pool<S, P>, s: S, n: nat)
    requires Conserved(pool) && s in pool.sequences && n <= Times(|pool.sequences[s].pages|, pool.pageSize)
    requires OffsetOf(n, pool.pageSize) != 0
    ensures var pages, kept, k := pool.sequences[s].pages, Kept(pool, s, n), PageOf(n, pool.pageSize);
            && k < |pages| && kept.sequences[s].pages == pages[..k + 1]
            && pages[k] in pool.pages && pages[k] in kept.pages
            && kept.pages[pages[k]].refs == pool.pages[pages[k]].refs
            && kept.pages.Keys == pool.pages.Keys
  {
    assert ClosedAt(pool, s);
    var pages, k := pool.sequences[s].pages, PageOf(n, pool.pageSize);
    PageArithmetic(n, pool.pageSize);
    KeptSequences(pool, s, n);
    KeptRefs(pool, s, n);
    KeptConserves(pool, s, n);
    assert pages[..k + 1][k] == pages[k] && pages[k] in pages;
    assert RefCounts(Kept(pool, s, n).pages, pages[..k + 1])[k] == RefCounts(pool.pages, pages)[k];
  }

  lemma KeptElsewhere<S, P>(pool: Pool<S, P>, s: S, n: nat)
    requires Valid(pool) && s in pool.sequences && n < pool.sequences[s].allocLen
    ensures SameElsewhere(pool, Kept(pool, s, n), s)
  {
    HistoryFits(pool, s);
    KeptSequences(pool, s, n);
    KeptOthers(pool, s, n);
  }

  lemma KeptTailUncut<S, P>(pool: Pool<S, P>, s: S, n: nat)
    requires Valid(pool) && s in pool.sequences && n < pool.sequences[s].allocLen && OffsetOf(n, pool.pageSize) != 0
    ensures s in Kept(pool, s, n).sequences && TailUncut(pool, Kept(pool, s, n), s, n)
    ensures PagesFor(n, pool.pageSize) == PageOf(n, pool.pageSize) + 1
  {
    PageArithmetic(n, pool.pageSize);
    HistoryFits(pool, s);
    KeptLastPage(pool, s, n);
    var pages, k := pool.sequences[s].pages, PageOf(n, pool.pageSize);
    assert pages[..k + 1][k] == pages[k];
    KeptSequences(pool, s, n);
    KeptLists(pool, s, n);
    KeptContents(pool, s, n);
  }

  lemma DetachIsRewind<S, P>(pool: Pool<S, P>, kept: Pool<S, P>, s: S, n: nat, spare: P)
    requires Valid(pool) && AboutToCut(pool, kept, s, n) && OffsetOf(n, pool.pageSize) != 0
    requires kept.pages[kept.sequences[s].pages[PagesFor(n, pool.pageSize) - 1]].refs > 1
    requires kept.available != [] && spare !in kept.pages
    ensures Rewound(pool, CutPage(Detach(kept, s, PagesFor(n, pool.pageSize) - 1, spare), spare, OffsetOf(n, pool.pageSize)), s, n)
  {
    var k := PagesFor(n, pool.pageSize);
    var copied := Detach(kept, s, k - 1, spare);
    DetachValid(kept, s, k - 1, spare);
    DetachUntouched(kept, s, k - 1, spare);
    DetachReads(kept, s, k - 1, spare);
    UntouchedTransitive(pool, kept, copied, s);
    CutIsRewind(pool, copied, s, n);
  }

  /** The second half of truncation, from a pool that is about to be cut. */
  lemma CutTailFacts<S, P>(pool: Pool<S, P>, kept: Pool<S, P>, s: S, n: nat, spare: P)
    requires Valid(pool) && AboutToCut(pool, kept, s, n) && OffsetOf(n, pool.pageSize) != 0
    requires spare !in kept.pages || kept.available == []
          || kept.pages[kept.sequences[s].pages[PagesFor(n, pool.pageSize) - 1]].refs <= 1
    ensures var k := PagesFor(n, pool.pageSize) - 1;
            var result := CutTail(kept, s, k, OffsetOf(n, pool.pageSize), spare);
            && (result.OutOfPages? <==> kept.available == [] && kept.pages[kept.sequences[s].pages[k]].refs > 1)
            && (result.OutOfPages? ==> result.pool == kept)
            && (!result.OutOfPages? ==> result.Done? && Rewound(pool, result.pool, s, n))
  {
    var last := kept.sequences[s].pages[PagesFor(n, pool.pageSize) - 1];
    if kept.pages[last].refs <= 1 {
      CutIsRewind(pool, kept, s, n);
    } else if kept.available != [] {
      DetachIsRewind(pool, kept, s, n, spare);
    }
  }

  /** Truncating s to n cuts into a shared page. */
  ghost predicate Copies<S, P>(pool: Pool<S, P>, s: S, n: nat)
    requires s in pool.sequences
  {
    var pages, k := pool.sequences[s].pages, PageOf(n, pool.pageSize);
    OffsetOf(n, pool.pageSize) != 0 && k < |pages| && pages[k] in pool.pages && pool.pages[pages[k]].refs > 1
  }

  lemma TruncateUnaligned<S, P>(pool: Pool<S, P>, s: S, n: nat, spare: P)
    requires Valid(pool) && s in pool.sequences && n < pool.sequences[s].allocLen
    requires OffsetOf(n, pool.pageSize) != 0
    requires spare !in pool.pages || !Copies(pool, s, n) || Kept(pool, s, n).available == []
    ensures var kept, k, o := Kept(pool, s, n), PageOf(n, pool.pageSize), OffsetOf(n, pool.pageSize);
            var result := CutTail(kept, s, k, o, spare);
            && k < |pool.sequences[s].pages| && pool.sequences[s].pages[k] in pool.pages
            && (result.OutOfPages? <==> kept.available == [] && pool.pages[pool.sequences[s].pages[k]].refs > 1)
            && (result.OutOfPages? ==> result.pool == kept)
            && (!result.OutOfPages? ==> result.Done? && Rewound(pool, result.pool, s, n))
  {
    HistoryFits(pool, s);
    KeptElsewhere(pool, s, n);
    KeptTailUncut(pool, s, n);
    KeptLastPage(pool, s, n);
    assert pool.sequences[s].pages[..PageOf(n, pool.pageSize) + 1][PageOf(n, pool.pageSize)]
        == pool.sequences[s].pages[PageOf(n, pool.pageSize)];
    CutTailFacts(pool, Kept(pool, s, n), s, n, spare);
  }

  /** Truncating s to n cuts into a shared page while no page id is free or freed. */
  ghost predicate RunsOut<S, P>(pool: Pool<S, P>, s: S, n: nat)
    requires s in pool.sequences
  {
    Copies(pool, s, n) && pool.available == [] && !FreesAPage(pool, s, PagesFor(n, pool.pageSize))
  }

  /** Truncation below the allocated length is an exact rewind: ceil(n / pageSize)
      pages stay, the history is cut to n, and the token that followed becomes the
      pending target; no other sequence reads anything else than before. It runs
      out of pages exactly when the cut falls inside a shared page while neither
      the free list nor the popped pages offer an id. */
  lemma TruncateExact<S, P>(pool: Pool<S, P>, s: S, n: nat, spare: P)
    requires Valid(pool) && s in pool.sequences && n < pool.sequences[s].allocLen
    requires spare !in pool.pages || !Copies(pool, s, n) || Truncate(pool, s, n, spare).OutOfPages?
    ensures var result := Truncate(pool, s, n, spare);
            && (result.OutOfPages? <==> RunsOut(pool, s, n))
            && (result.OutOfPages? ==>
                  Conserved(result.pool) && OthersUntouched(pool, result.pool, s) && result.pool.available == [])
            && (!result.OutOfPages? ==> result.Done? && Rewound(pool, result.pool, s, n))
  {
    HistoryFits(pool, s);
    KeptRefs(pool, s, n);
    KeptOthers(pool, s, n);
    if OffsetOf(n, pool.pageSize) == 0 {
      TruncateAligned(pool, s, n);
    } else {
      TruncateUnaligned(pool, s, n, spare);
    }
  }
}
