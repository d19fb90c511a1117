/** What the paged sequences of one cache hold, as values: sequences and pages by
    reference, free page ids, and physical page contents (src/paged_sequence.ts).

    The classes in PagedSequence change their fields in place; every method there
    is tied to one of the functions below, and the laws are proved here. */
module PagePool {
  import opened Wrappers
  import opened TokenChunks

  datatype PageView = PageView(id: nat, tokenIds: seq<int>, refs: nat)

  datatype SequenceView<P> = SequenceView(pages: seq<P>, allocLen: nat, targetToken: Option<int>)

  /** `kv` stands for the physical contents of each page id. */
  datatype Pool<S, P> = Pool(pageSize: Positive, maxPages: nat,
                             sequences: map<S, SequenceView<P>>, pages: map<P, PageView>,
                             available: seq<nat>, kv: map<nat, int>)

  // ---------------------------------------------------------------------
  // Invariant

  ghost predicate NoDup<T>(xs: seq<T>) {
    forall i, j :: 0 <= i < j < |xs| ==> xs[i] != xs[j]
  }

  ghost predicate Differ<T>(xs: seq<T>, i: nat, j: nat)
    requires i < |xs| && j < |xs|
  {
    xs[i] != xs[j]
  }

  /** NoDup, applied to two places at a time. */
  ghost predicate Distinct<T>(xs: seq<T>) {
    forall i: nat, j: nat {:trigger Differ(xs, i, j)} :: i < |xs| && j < |xs| && i != j ==> Differ(xs, i, j)
  }

  /** The pages of s are distinct and known. */
  ghost predicate ClosedAt<S, P>(pool: Pool<S, P>, s: S)
    requires s in pool.sequences
  {
    NoDup(pool.sequences[s].pages) && forall p | p in pool.sequences[s].pages :: p in pool.pages
  }

  ghost predicate Closed<S, P>(pool: Pool<S, P>) {
    forall s {:trigger ClosedAt(pool, s)} | s in pool.sequences :: ClosedAt(pool, s)
  }

  function Holders<S, P>(pool: Pool<S, P>, p: P): set<S> {
    set s | s in pool.sequences && p in pool.sequences[s].pages
  }

  ghost predicate Counted<S, P>(pool: Pool<S, P>) {
    forall p {:trigger Holders(pool, p)} | p in pool.pages :: pool.pages[p].refs == |Holders(pool, p)|
  }

  ghost predicate HeldId<S, P>(pool: Pool<S, P>, id: nat) {
    exists p | p in pool.pages :: pool.pages[p].refs > 0 && pool.pages[p].id == id
  }

  /** Two held pages carry different ids. */
  ghost predicate ApartIds<S, P>(pool: Pool<S, P>, p: P, q: P)
    requires p in pool.pages && q in pool.pages
  {
    p != q && pool.pages[p].refs > 0 && pool.pages[q].refs > 0 ==> pool.pages[p].id != pool.pages[q].id
  }

  /** Every page id is either free once, or owned by exactly one held page. */
  ghost predicate Partitioned<S, P>(pool: Pool<S, P>) {
    && NoDup(pool.available)
    && (forall id: nat {:trigger HeldId(pool, id)} {:trigger id in pool.available} ::
          id in pool.available <==> id < pool.maxPages && !HeldId(pool, id))
    && (forall p {:trigger pool.pages[p].id} | p in pool.pages :: pool.pages[p].id < pool.maxPages)
    && (forall p, q {:trigger ApartIds(pool, p, q)} | p in pool.pages && q in pool.pages :: ApartIds(pool, p, q))
    && (forall id: nat {:trigger id in pool.kv} :: id < pool.maxPages ==> id in pool.kv)
  }

  ghost predicate Conserved<S, P>(pool: Pool<S, P>) {
    Closed(pool) && Counted(pool) && Partitioned(pool)
  }

  function Lists<P>(store: map<P, PageView>, ps: seq<P>): (r: seq<seq<int>>)
    ensures |r| == |ps|
    ensures forall i :: 0 <= i < |ps| ==> r[i] == if ps[i] in store then store[ps[i]].tokenIds else []
  {
    seq(|ps|, i requires 0 <= i < |ps| => if ps[i] in store then store[ps[i]].tokenIds else [])
  }

  /** The reported tokens of a sequence. */
  function History<S, P>(pool: Pool<S, P>, s: S): seq<int>
    requires s in pool.sequences
  {
    Flat(Lists(pool.pages, pool.sequences[s].pages))
  }

  ghost predicate WellShaped<S, P>(pool: Pool<S, P>, s: S)
    requires s in pool.sequences
  {
    var v := pool.sequences[s];
    && Shaped(Lists(pool.pages, v.pages), pool.pageSize)
    && |History(pool, s)| <= v.allocLen <= Times(|v.pages|, pool.pageSize)
  }

  /** Only full pages are shared. */
  ghost predicate SharedFull<S, P>(pool: Pool<S, P>) {
    forall p {:trigger pool.pages[p].tokenIds} {:trigger pool.pages[p].refs} | p in pool.pages ::
      pool.pages[p].refs > 1 ==> |pool.pages[p].tokenIds| == pool.pageSize
  }

  ghost predicate Valid<S, P>(pool: Pool<S, P>) {
    Conserved(pool) && SharedFull(pool) && forall s {:trigger WellShaped(pool, s)} | s in pool.sequences :: WellShaped(pool, s)
  }

  /** Sequence s reads the same in both pools: bookkeeping, tokens, page ids and
      physical contents. */
  ghost predicate ReadsSame<S, P>(pool: Pool<S, P>, pool': Pool<S, P>, s: S) {
    && s in pool.sequences && s in pool'.sequences
    && pool'.sequences[s] == pool.sequences[s]
    && forall p | p in pool.sequences[s].pages ::
         && p in pool.pages && p in pool'.pages
         && pool'.pages[p].tokenIds == pool.pages[p].tokenIds
         && pool'.pages[p].id == pool.pages[p].id
         && (pool.pages[p].id in pool.kv ==>
               pool.pages[p].id in pool'.kv && pool'.kv[pool.pages[p].id] == pool.kv[pool.pages[p].id])
  }

  ghost predicate OthersUntouched<S, P>(pool: Pool<S, P>, pool': Pool<S, P>, s: S) {
    forall t {:trigger ReadsSame(pool, pool', t)} | t in pool.sequences && t != s :: ReadsSame(pool, pool', t)
  }

  /** Physical contents behind a page list. */
  function Contents<S, P>(pool: Pool<S, P>, ps: seq<P>): (r: seq<Option<int>>)
    ensures |r| == |ps|
    ensures forall i :: 0 <= i < |ps| ==>
              r[i] == if ps[i] in pool.pages && pool.pages[ps[i]].id in pool.kv
                      then Some(pool.kv[pool.pages[ps[i]].id]) else None
  {
    seq(|ps|, i requires 0 <= i < |ps| =>
      if ps[i] in pool.pages && pool.pages[ps[i]].id in pool.kv then Some(pool.kv[pool.pages[ps[i]].id]) else None)
  }

  // ---------------------------------------------------------------------
  // Operations

  function TokenAfter<S, P>(pool: Pool<S, P>, s: S, length: nat): Option<int>
    requires s in pool.sequences
  {
    var v := pool.sequences[s];
    var ts := Lists(pool.pages, v.pages);
    var k, o := PageOf(length, pool.pageSize), OffsetOf(length, pool.pageSize);
    if k < |ts| && o < |ts[k]| then Some(ts[k][o])
    else if length == |History(pool, s)| then v.targetToken
    else None
  }

  /** Drop one holder of p; the id returns to the front of the free list with the
      last holder. */
  function Release<S, P>(pool: Pool<S, P>, p: P): Pool<S, P> {
    if p in pool.pages && pool.pages[p].refs > 0 then
      var page := pool.pages[p];
      pool.(pages := pool.pages[p := page.(refs := page.refs - 1)],
            available := (if page.refs == 1 then [page.id] else []) + pool.available)
    else pool
  }

  function Last<P>(ps: seq<P>): P
    requires ps != []
  {
    ps[|ps| - 1]
  }

  predicate CanPop<S, P>(pool: Pool<S, P>, s: S) {
    s in pool.sequences && pool.sequences[s].pages != []
  }

  function PopPage<S, P>(pool: Pool<S, P>, s: S): Pool<S, P>
    requires CanPop(pool, s)
  {
    var v := pool.sequences[s];
    var newLen := Min(v.allocLen, Times(|v.pages| - 1, pool.pageSize));
    Release(Dropped(pool, s, newLen), Last(v.pages))
  }

  /** The sequence without its last page, cut to newLen. */
  function Dropped<S, P>(pool: Pool<S, P>, s: S, newLen: nat): Pool<S, P>
    requires CanPop(pool, s)
  {
    var v := pool.sequences[s];
    pool.(sequences := pool.sequences[s := SequenceView(v.pages[..|v.pages| - 1], newLen, TokenAfter(pool, s, newLen))])
  }

  /** The pages map keeps tokens and ids; only reference counts may differ. */
  ghost predicate SameTokens<S, P>(pool: Pool<S, P>, pool': Pool<S, P>) {
    && pool'.pages.Keys == pool.pages.Keys
    && forall p | p in pool.pages ::
         && pool'.pages[p].tokenIds == pool.pages[p].tokenIds && pool'.pages[p].id == pool.pages[p].id
         && pool'.pages[p].refs <= pool.pages[p].refs
  }

  lemma HeldPageCounted<S, P>(pool: Pool<S, P>, s: S, p: P)
    requires Closed(pool) && Counted(pool) && s in pool.sequences && p in pool.sequences[s].pages
    ensures p in pool.pages && pool.pages[p].refs > 0
    ensures pool.pages[p].refs == 1 ==> Holders(pool, p) == {s}
  {
    assert ClosedAt(pool, s);
    assert s in Holders(pool, p);
    assert |Holders(pool, p)| == |Holders(pool, p) - {s}| + 1;
  }

  lemma HoldersUpdate<S, P>(pool: Pool<S, P>, pool': Pool<S, P>, s: S, p: P)
    requires s in pool'.sequences && pool'.sequences == pool.sequences[s := pool'.sequences[s]]
    ensures Holders(pool', p) == if p in pool'.sequences[s].pages then Holders(pool, p) + {s} else Holders(pool, p) - {s}
  {
  }

  lemma PopHolders<S, P>(pool: Pool<S, P>, s: S, p: P)
    requires Closed(pool) && CanPop(pool, s)
    ensures var last := Last(pool.sequences[s].pages);
            Holders(PopPage(pool, s), p) == if p == last then Holders(pool, p) - {s} else Holders(pool, p)
  {
    assert ClosedAt(pool, s);
    var v := pool.sequences[s];
    var last := Last(v.pages);
    HoldersUpdate(pool, PopPage(pool, s), s, p);
    assert v.pages == v.pages[..|v.pages| - 1] + [last];
    if p == last {
      assert last !in v.pages[..|v.pages| - 1];
    } else if p in v.pages {
      assert s in Holders(pool, p);
    }
  }

  lemma PopCounts<S, P>(pool: Pool<S, P>, s: S)
    requires Closed(pool) && Counted(pool) && CanPop(pool, s)
    ensures Closed(PopPage(pool, s)) && Counted(PopPage(pool, s))
  {
    assert ClosedAt(pool, s);
    forall t | t in pool.sequences ensures ClosedAt(PopPage(pool, s), t) { assert ClosedAt(pool, t); }
    var pool' := PopPage(pool, s);
    var last := Last(pool.sequences[s].pages);
    HeldPageCounted(pool, s, last);
    forall p | p in pool'.pages ensures pool'.pages[p].refs == |Holders(pool', p)| {
      PopHolders(pool, s, p);
      assert p == last ==> s in Holders(pool, p);
    }
  }

  /** The partition of ids depends only on which pages are held and their ids. */
  lemma SameIdsPartitioned<S, P>(pool: Pool<S, P>, pool': Pool<S, P>)
    requires Partitioned(pool)
    requires pool'.available == pool.available && pool'.maxPages == pool.maxPages && pool'.kv == pool.kv
    requires pool'.pages.Keys == pool.pages.Keys
    requires forall p {:trigger pool'.pages[p]} | p in pool.pages ::
               pool'.pages[p].id == pool.pages[p].id && (pool'.pages[p].refs > 0 <==> pool.pages[p].refs > 0)
    ensures Partitioned(pool')
  {
    forall id: nat ensures HeldId(pool', id) <==> HeldId(pool, id) {
      if HeldId(pool, id) {
        var q :| q in pool.pages && pool.pages[q].refs > 0 && pool.pages[q].id == id;
        assert q in pool'.pages && pool'.pages[q].refs > 0 && pool'.pages[q].id == id;
      }
      if HeldId(pool', id) {
        var q :| q in pool'.pages && pool'.pages[q].refs > 0 && pool'.pages[q].id == id;
        assert q in pool.pages && pool.pages[q].refs > 0 && pool.pages[q].id == id;
      }
    }
    forall p, q | p in pool'.pages && q in pool'.pages ensures ApartIds(pool', p, q) {
      assert ApartIds(pool, p, q);
      assert pool'.pages[p].id == pool.pages[p].id && pool'.pages[q].id == pool.pages[q].id;
    }
  }

  lemma ReleasePartitions<S, P>(pool: Pool<S, P>, p: P)
    requires Partitioned(pool) && p in pool.pages && pool.pages[p].refs > 0
    ensures Partitioned(Release(pool, p))
  {
    var pool' := Release(pool, p);
    var freed := pool.pages[p].id;
    assert HeldId(pool, freed);
    forall id: nat ensures id in pool'.available <==> id < pool.maxPages && !HeldId(pool', id) {
      if HeldId(pool', id) {
        var q :| q in pool'.pages && pool'.pages[q].refs > 0 && pool'.pages[q].id == id;
        assert pool.pages[q].refs > 0 && pool.pages[q].id == id;
        assert ApartIds(pool, p, q);
      }
      if HeldId(pool, id) && (id != freed || pool.pages[p].refs > 1) {
        var q :| q in pool.pages && pool.pages[q].refs > 0 && pool.pages[q].id == id;
        assert q in pool'.pages && pool'.pages[q].refs > 0 && pool'.pages[q].id == id;
      }
    }
    forall q, r | q in pool'.pages && r in pool'.pages ensures ApartIds(pool', q, r) {
      assert ApartIds(pool, q, r);
    }
  }

  lemma PopConserves<S, P>(pool: Pool<S, P>, s: S)
    requires Conserved(pool) && CanPop(pool, s)
    ensures Conserved(PopPage(pool, s)) && SameTokens(pool, PopPage(pool, s))
  {
    var v := pool.sequences[s];
    HeldPageCounted(pool, s, Last(v.pages));
    PopCounts(pool, s);
    var dropped := Dropped(pool, s, Min(v.allocLen, Times(|v.pages| - 1, pool.pageSize)));
    SameIdsPartitioned(pool, dropped);
    ReleasePartitions(dropped, Last(v.pages));
  }

  /** Pop while the last page starts at or after position n. */
  function PopDown<S, P>(pool: Pool<S, P>, s: S, n: nat): (pool': Pool<S, P>)
    requires s in pool.sequences
    ensures s in pool'.sequences
    decreases |pool.sequences[s].pages|
  {
    var v := pool.sequences[s];
    if v.pages != [] && n <= Times(|v.pages| - 1, pool.pageSize) then PopDown(PopPage(pool, s), s, n) else pool
  }

  lemma PopDownStep<S, P>(pool: Pool<S, P>, pool': Pool<S, P>, s: S, n: nat)
    requires CanPop(pool, s) && pool' == PopPage(pool, s)
    requires n <= Times(|pool.sequences[s].pages| - 1, pool.pageSize)
    ensures s in pool'.sequences && PopDown(pool, s, n) == PopDown(pool', s, n)
  {
  }

  lemma PopDownStop<S, P>(pool: Pool<S, P>, s: S, n: nat)
    requires s in pool.sequences
    requires pool.sequences[s].pages == [] || n > Times(|pool.sequences[s].pages| - 1, pool.pageSize)
    ensures PopDown(pool, s, n) == pool
  {
  }

  lemma {:induction false} PopDownConserves<S, P>(pool: Pool<S, P>, s: S, n: nat)
    requires Conserved(pool) && s in pool.sequences
    ensures Conserved(PopDown(pool, s, n)) && SameTokens(pool, PopDown(pool, s, n))
    decreases |pool.sequences[s].pages|
  {
    var v := pool.sequences[s];
    if v.pages != [] && n <= Times(|v.pages| - 1, pool.pageSize) {
      PopConserves(pool, s);
      PopDownConserves(PopPage(pool, s), s, n);
    }
  }

  /** The reference counts of a page list. */
  function RefCounts<P>(store: map<P, PageView>, ps: seq<P>): (r: seq<nat>)
    ensures |r| == |ps|
    ensures forall i :: 0 <= i < |ps| ==> r[i] == if ps[i] in store then store[ps[i]].refs else 0
  {
    seq(|ps|, i requires 0 <= i < |ps| => if ps[i] in store then store[ps[i]].refs else 0)
  }

  /** Some page from position k on is held by this sequence alone. */
  ghost predicate FreesAPage<S, P>(pool: Pool<S, P>, s: S, k: nat)
    requires s in pool.sequences
  {
    var refs := RefCounts(pool.pages, pool.sequences[s].pages);
    k < |refs| && 1 in refs[k..]
  }

  lemma PopRefCounts<S, P>(pool: Pool<S, P>, s: S)
    requires Closed(pool) && CanPop(pool, s)
    ensures var pages := pool.sequences[s].pages;
            RefCounts(PopPage(pool, s).pages, pages[..|pages| - 1]) == RefCounts(pool.pages, pages)[..|pages| - 1]
  {
    assert ClosedAt(pool, s);
    var pages := pool.sequences[s].pages;
    var kept := pages[..|pages| - 1];
    forall i | 0 <= i < |kept|
      ensures RefCounts(PopPage(pool, s).pages, kept)[i] == RefCounts(pool.pages, pages)[i]
    {
      assert kept[i] == pages[i] && pages[i] != pages[|pages| - 1];
    }
  }

  lemma MemberSplit(xs: seq<nat>, k: nat)
    requires k < |xs|
    ensures 1 in xs[k..] <==> (k < |xs| - 1 && 1 in xs[..|xs| - 1][k..]) || xs[|xs| - 1] == 1
  {
    assert xs[k..] == xs[..|xs| - 1][k..] + [xs[|xs| - 1]];
  }

  /** `pool'` differs from `pool` in sequence s, reference counts and free ids. */
  ghost predicate OnlyCounts<S, P>(pool: Pool<S, P>, pool': Pool<S, P>, s: S) {
    && s in pool.sequences && s in pool'.sequences
    && pool'.sequences == pool.sequences[s := pool'.sequences[s]]
    && pool' == pool.(sequences := pool'.sequences, pages := pool'.pages, available := pool'.available)
  }

  lemma OnlyCountsTransitive<S, P>(x: Pool<S, P>, y: Pool<S, P>, z: Pool<S, P>, s: S)
    requires OnlyCounts(x, y, s) && OnlyCounts(y, z, s)
    ensures OnlyCounts(x, z, s)
  {
  }

  lemma PopShape<S, P>(pool: Pool<S, P>, s: S)
    requires CanPop(pool, s)
    ensures OnlyCounts(pool, PopPage(pool, s), s)
    ensures var v, v' := pool.sequences[s], PopPage(pool, s).sequences[s];
            && v'.pages == v.pages[..|v.pages| - 1]
            && v'.allocLen == Min(v.allocLen, Times(|v.pages| - 1, pool.pageSize))
  {
  }

  /** Popping down to n leaves ceil(n / pageSize) pages and no other change to
      the sequences. */
  lemma {:induction false} PopDownSequences<S, P>(pool: Pool<S, P>, s: S, n: nat)
    requires s in pool.sequences && pool.sequences[s].allocLen == n
    requires n <= Times(|pool.sequences[s].pages|, pool.pageSize)
    ensures OnlyCounts(pool, PopDown(pool, s, n), s)
    ensures var v, v', k := pool.sequences[s], PopDown(pool, s, n).sequences[s], PagesFor(n, pool.pageSize);
            k <= |v.pages| && v'.pages == v.pages[..k] && v'.allocLen == n
    decreases |pool.sequences[s].pages|
  {
    var v, k := pool.sequences[s], PagesFor(n, pool.pageSize);
    PagesForBounds(n, pool.pageSize);
    var last := |v.pages| - 1;
    if v.pages != [] && n <= Times(last, pool.pageSize) {
      var popped := PopPage(pool, s);
      PopShape(pool, s);
      PopDownSequences(popped, s, n);
      OnlyCountsTransitive(pool, popped, PopDown(popped, s, n), s);
      assert v.pages[..last][..k] == v.pages[..k];
    } else if v.pages != [] {
      if k <= last { TimesMono(k, last, pool.pageSize); }
      assert v.pages[..k] == v.pages;
    }
  }

  /** Popping keeps the counts of the pages it leaves, and frees an id exactly
      when a popped page was held by this sequence alone. */
  lemma {:induction false} PopDownRefs<S, P>(pool: Pool<S, P>, s: S, n: nat)
    requires Closed(pool) && Counted(pool) && s in pool.sequences && pool.sequences[s].allocLen == n
    requires n <= Times(|pool.sequences[s].pages|, pool.pageSize)
    ensures var pages, k := pool.sequences[s].pages, PagesFor(n, pool.pageSize);
            && k <= |pages|
            && RefCounts(PopDown(pool, s, n).pages, pages[..k]) == RefCounts(pool.pages, pages)[..k]
            && (PopDown(pool, s, n).available == [] <==> pool.available == [] && !FreesAPage(pool, s, k))
    decreases |pool.sequences[s].pages|
  {
    var pages, k := pool.sequences[s].pages, PagesFor(n, pool.pageSize);
    PagesForBounds(n, pool.pageSize);
    var last := |pages| - 1;
    var refs := RefCounts(pool.pages, pages);
    if pages != [] && n <= Times(last, pool.pageSize) {
      PopShape(pool, s);
      PopCounts(pool, s);
      PopDownRefs(PopPage(pool, s), s, n);
      PopFrees(pool, s, k);
      assert pages[..last][..k] == pages[..k];
      assert refs[..last][..k] == refs[..k];
    } else if pages != [] {
      if k <= last { TimesMono(k, last, pool.pageSize); }
      assert pages[..k] == pages && refs[..k] == refs;
    }
  }

  lemma PopFrees<S, P>(pool: Pool<S, P>, s: S, k: nat)
    requires Closed(pool) && Counted(pool) && CanPop(pool, s) && k < |pool.sequences[s].pages|
    ensures var pages, pool' := pool.sequences[s].pages, PopPage(pool, s);
            && RefCounts(pool'.pages, pages[..|pages| - 1]) == RefCounts(pool.pages, pages)[..|pages| - 1]
            && (pool'.available == [] && !FreesAPage(pool', s, k) <==> pool.available == [] && !FreesAPage(pool, s, k))
  {
    PopShape(pool, s);
    HeldPageCounted(pool, s, Last(pool.sequences[s].pages));
    PopRefCounts(pool, s);
    MemberSplit(RefCounts(pool.pages, pool.sequences[s].pages), k);
  }

  datatype Outcome<S, P> = Done(pool: Pool<S, P>) | OutOfRange | OutOfPages(pool: Pool<S, P>)

  /** Swap the shared page at index k for a fresh private copy. */
  function Detach<S, P>(pool: Pool<S, P>, s: S, k: nat, spare: P): Pool<S, P>
    requires s in pool.sequences && k < |pool.sequences[s].pages| && pool.available != []
    requires pool.sequences[s].pages[k] in pool.pages && pool.pages[pool.sequences[s].pages[k]].refs > 0
  {
    var v := pool.sequences[s];
    var page := pool.pages[v.pages[k]];
    pool.(available := pool.available[1..],
          pages := pool.pages[v.pages[k] := page.(refs := page.refs - 1)]
                             [spare := PageView(pool.available[0], page.tokenIds, 1)],
          sequences := pool.sequences[s := v.(pages := v.pages[k := spare])],
          kv := if page.id in pool.kv then pool.kv[pool.available[0] := pool.kv[page.id]] else pool.kv)
  }

  lemma DetachCounts<S, P>(pool: Pool<S, P>, s: S, k: nat, spare: P)
    requires Conserved(pool) && s in pool.sequences && k < |pool.sequences[s].pages| && pool.available != []
    requires pool.sequences[s].pages[k] in pool.pages && pool.pages[pool.sequences[s].pages[k]].refs > 1
    requires spare !in pool.pages
    ensures Closed(Detach(pool, s, k, spare)) && Counted(Detach(pool, s, k, spare))
  {
    assert ClosedAt(pool, s);
    forall t | t in pool.sequences ensures ClosedAt(Detach(pool, s, k, spare), t) && (t != s ==> spare !in pool.sequences[t].pages) {
      assert ClosedAt(pool, t);
    }
    var pool' := Detach(pool, s, k, spare);
    var v, v', shared := pool.sequences[s], pool'.sequences[s], pool.sequences[s].pages[k];
    assert v'.pages[k] == spare && forall i :: 0 <= i < |v.pages| && i != k ==> v'.pages[i] == v.pages[i];
    assert shared !in v'.pages;
    assert forall p :: p != spare && p != shared ==> (p in v'.pages <==> p in v.pages);
    forall p | p in pool'.pages ensures pool'.pages[p].refs == |Holders(pool', p)| {
      if p == spare {
        assert Holders(pool', p) == {s};
      } else if p == shared {
        assert s in Holders(pool, p);
        assert Holders(pool', p) == Holders(pool, p) - {s};
      } else {
        assert Holders(pool', p) == Holders(pool, p);
      }
    }
  }

  lemma DetachPartitions<S, P>(pool: Pool<S, P>, s: S, k: nat, spare: P)
    requires Conserved(pool) && s in pool.sequences && k < |pool.sequences[s].pages| && pool.available != []
    requires pool.sequences[s].pages[k] in pool.pages && pool.pages[pool.sequences[s].pages[k]].refs > 1
    requires spare !in pool.pages
    ensures Partitioned(Detach(pool, s, k, spare))
  {
    var pool' := Detach(pool, s, k, spare);
    var shared, newId := pool.sequences[s].pages[k], pool.available[0];
    assert newId in pool.available;
    assert pool.available == [newId] + pool.available[1..];
    forall id: nat ensures id in pool'.available <==> id in pool.available && id != newId {
    }
    forall id: nat ensures HeldId(pool', id) <==> HeldId(pool, id) || id == newId {
      if id == newId { assert pool'.pages[spare].refs > 0 && pool'.pages[spare].id == id; }
      if HeldId(pool, id) {
        var q :| q in pool.pages && pool.pages[q].refs > 0 && pool.pages[q].id == id;
        assert q in pool'.pages && pool'.pages[q].refs > 0 && pool'.pages[q].id == id;
      }
      if HeldId(pool', id) && id != newId {
        var q :| q in pool'.pages && pool'.pages[q].refs > 0 && pool'.pages[q].id == id;
        assert q in pool.pages && pool.pages[q].refs > 0 && pool.pages[q].id == id;
      }
    }
    forall p, q | p in pool'.pages && q in pool'.pages ensures ApartIds(pool', p, q) {
      if p == spare || q == spare {
        var other := if p == spare then q else p;
        assert other != spare && pool'.pages[other].refs > 0 ==> HeldId(pool, pool.pages[other].id);
      } else {
        assert ApartIds(pool, p, q);
      }
    }
  }

  /** Shorten the tokens of page p to at most m. */
  function CutPage<S, P>(pool: Pool<S, P>, p: P, m: nat): Pool<S, P> {
    if p in pool.pages then
      var page := pool.pages[p];
      pool.(pages := pool.pages[p := page.(tokenIds := page.tokenIds[..Min(|page.tokenIds|, m)])])
    else pool
  }

  /** The source's truncate; `spare` is the page object a copy-on-write creates. */
  function Truncate<S, P>(pool: Pool<S, P>, s: S, newLen: int, spare: P): Outcome<S, P>
    requires s in pool.sequences
  {
    var v := pool.sequences[s];
    if newLen < 0 || newLen > v.allocLen then OutOfRange
    else if newLen == v.allocLen then Done(pool)
    else
      var target := TokenAfter(pool, s, newLen);
      var kept := Retarget(PopDown(Retarget(pool, s, newLen, v.targetToken), s, newLen), s, newLen, target);
      var k, o := PageOf(newLen, pool.pageSize), OffsetOf(newLen, pool.pageSize);
      if o == 0 then Done(kept) else CutTail(kept, s, k, o, spare)
  }

  /** Make the page at index k private and cut it to o tokens. */
  function CutTail<S, P>(pool: Pool<S, P>, s: S, k: nat, o: nat, spare: P): Outcome<S, P>
    requires s in pool.sequences
  {
    var pages := pool.sequences[s].pages;
    if k >= |pages| || pages[k] !in pool.pages then OutOfRange
    else if pool.pages[pages[k]].refs <= 1 then Done(CutPage(pool, pages[k], o))
    else if pool.available == [] then OutOfPages(pool)
    else Done(CutPage(Detach(pool, s, k, spare), spare, o))
  }

  /** Set the allocated length and the pending target. */
  function Retarget<S, P>(pool: Pool<S, P>, s: S, allocLen: nat, target: Option<int>): Pool<S, P>
    requires s in pool.sequences
  {
    pool.(sequences := pool.sequences[s := pool.sequences[s].(allocLen := allocLen, targetToken := target)])
  }

  lemma RetargetConserves<S, P>(pool: Pool<S, P>, s: S, allocLen: nat, target: Option<int>)
    requires Conserved(pool) && s in pool.sequences
    ensures Conserved(Retarget(pool, s, allocLen, target))
  {
    forall t | t in pool.sequences ensures ClosedAt(Retarget(pool, s, allocLen, target), t) { assert ClosedAt(pool, t); }
    var pool' := Retarget(pool, s, allocLen, target);
    forall p | p in pool'.pages ensures pool'.pages[p].refs == |Holders(pool', p)| {
      assert Holders(pool', p) == Holders(pool, p);
    }
    SameIdsPartitioned(pool, pool');
  }

  /** Remove every page, then the target. */
  function Clear<S, P>(pool: Pool<S, P>, s: S): Pool<S, P>
    requires s in pool.sequences
  {
    var popped := PopDown(pool, s, 0);
    Retarget(popped, s, popped.sequences[s].allocLen, None)
  }

  /** Append one token on the page the reported length falls into. */
  function PushToken<S, P>(pool: Pool<S, P>, s: S, x: int): Pool<S, P>
    requires s in pool.sequences
  {
    var pages, k := pool.sequences[s].pages, PageOf(|History(pool, s)|, pool.pageSize);
    if k < |pages| && pages[k] in pool.pages then
      var page := pool.pages[pages[k]];
      pool.(pages := pool.pages[pages[k] := page.(tokenIds := page.tokenIds + [x])])
    else pool
  }

  function PushTokens<S, P>(pool: Pool<S, P>, s: S, xs: seq<int>): (pool': Pool<S, P>)
    requires s in pool.sequences
    ensures pool'.sequences == pool.sequences
  {
    if xs == [] then pool else PushToken(PushTokens(pool, s, xs[..|xs| - 1]), s, xs[|xs| - 1])
  }

  lemma PushTokensSnoc<S, P>(pool: Pool<S, P>, s: S, xs: seq<int>, i: nat)
    requires s in pool.sequences && i < |xs|
    ensures PushTokens(pool, s, xs[..i + 1]) == PushToken(PushTokens(pool, s, xs[..i]), s, xs[i])
  {
    assert xs[..i + 1][..i] == xs[..i];
  }

  /** The source's reportTokens; None when the tokens exceed the allocated region. */
  function Report<S, P>(pool: Pool<S, P>, s: S, xs: seq<int>, target: Option<int>): Option<Pool<S, P>>
    requires s in pool.sequences
  {
    if |History(pool, s)| + |xs| > pool.sequences[s].allocLen then None
    else Some(Retarget(PushTokens(pool, s, xs), s, pool.sequences[s].allocLen, target))
  }

  /** Attach page p to s, growing its length by pageLen. */
  function PushPage<S, P>(pool: Pool<S, P>, s: S, p: P, pageLen: nat): Pool<S, P>
    requires s in pool.sequences && p in pool.pages
  {
    var v := pool.sequences[s];
    pool.(sequences := pool.sequences[s := v.(pages := v.pages + [p], allocLen := v.allocLen + pageLen)],
          pages := pool.pages[p := pool.pages[p].(refs := pool.pages[p].refs + 1)])
  }

  /** A new empty page with the first free id, attached to s. */
  function Attach<S, P>(pool: Pool<S, P>, s: S, spare: P): Pool<S, P>
    requires s in pool.sequences && pool.available != []
  {
    PushPage(pool.(available := pool.available[1..], pages := pool.pages[spare := PageView(pool.available[0], [], 0)]),
             s, spare, 0)
  }

  /** New pages an append of n positions needs. */
  function NewPages<S, P>(pool: Pool<S, P>, s: S, n: nat): nat
    requires s in pool.sequences
  {
    var v := pool.sequences[s];
    Max(0, PagesFor(v.allocLen + n, pool.pageSize) - |v.pages|)
  }

  function Create<S, P>(pool: Pool<S, P>, s: S): Pool<S, P> {
    pool.(sequences := pool.sequences[s := SequenceView([], 0, None)])
  }

  /** Attach the first k pages of the donor to s. */
  function SharePages<S, P>(pool: Pool<S, P>, donor: S, s: S, k: nat): (pool': Pool<S, P>)
    requires donor in pool.sequences && s in pool.sequences
    ensures donor in pool'.sequences && s in pool'.sequences
  {
    if k == 0 then pool
    else
      var shared := SharePages(pool, donor, s, k - 1);
      var pages := shared.sequences[donor].pages;
      if k <= |pages| && pages[k - 1] in shared.pages then PushPage(shared, s, pages[k - 1], pool.pageSize) else shared
  }

  /** A new sequence on the first k pages of the donor. */
  function Share<S, P>(pool: Pool<S, P>, donor: S, s: S, k: nat, target: Option<int>): Pool<S, P>
    requires donor in pool.sequences
  {
    Retarget(SharePages(Create(pool, s), donor, s, k), s, Times(k, pool.pageSize), target)
  }
}
