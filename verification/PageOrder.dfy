/** The order of the free list: which id comes back where, and which one is taken next
    (src/paged_sequence.ts). */
module PageOrder {
  import opened Wrappers
  import opened TokenChunks
  import opened PagePool
  import opened PageLaws
  import opened PageGrowth

  /** The id a page gives back when it is dropped: its own if nobody else holds it. */
  function Freed<P>(store: map<P, PageView>, p: P): seq<nat> {
    if p in store && store[p].refs == 1 then [store[p].id] else []
  }

  /** The ids of the pages with one holder, in the order of the pages. */
  function SoleIds<P>(store: map<P, PageView>, ps: seq<P>): seq<nat> {
    if ps == [] then [] else SoleIds(store, ps[..|ps| - 1]) + Freed(store, ps[|ps| - 1])
  }

  lemma {:induction false} SoleIdsSame<P>(store: map<P, PageView>, store': map<P, PageView>, ps: seq<P>)
    requires forall p :: p in ps ==> (p in store <==> p in store')
    requires forall p :: p in ps && p in store ==> store'[p].refs == store[p].refs && store'[p].id == store[p].id
    ensures SoleIds(store', ps) == SoleIds(store, ps)
    decreases |ps|
  {
    if ps != [] { SoleIdsSame(store, store', ps[..|ps| - 1]); }
  }

  // ---------------------------------------------------------------------
  // Popping

  /** A page popped by its last holder is the first one free. */
  lemma PoppedIsFirst<S, P>(pool: Pool<S, P>, s: S)
    requires Conserved(pool) && CanPop(pool, s)
    ensures PopPage(pool, s).available == Freed(pool.pages, Last(pool.sequences[s].pages)) + pool.available
  {
    HeldPageCounted(pool, s, Last(pool.sequences[s].pages));
  }

  /** pool' has the first k pages of s; the ids of the dropped ones are in front, the first
      page's first. */
  ghost predicate DroppedTo<S, P>(pool: Pool<S, P>, pool': Pool<S, P>, s: S, k: nat) {
    && s in pool.sequences && s in pool'.sequences && k <= |pool.sequences[s].pages|
    && pool'.sequences[s].pages == pool.sequences[s].pages[..k]
    && pool'.available == SoleIds(pool.pages, pool.sequences[s].pages[k..]) + pool.available
  }

  lemma DroppedNone<S, P>(pool: Pool<S, P>, s: S)
    requires s in pool.sequences
    ensures DroppedTo(pool, pool, s, |pool.sequences[s].pages|)
  {
    var pages := pool.sequences[s].pages;
    assert pages[|pages|..] == [] && pages[..|pages|] == pages;
  }

  /** The ids freed by the last page and by those in front of it. */
  lemma PoppedSoleIds<S, P>(pool: Pool<S, P>, s: S, k: nat, front: seq<P>, tail: seq<P>)
    requires Conserved(pool) && CanPop(pool, s) && k < |pool.sequences[s].pages|
    requires var pages := pool.sequences[s].pages; front == pages[..|pages| - 1][k..] && tail == pages[k..]
    ensures SoleIds(pool.pages, tail) == SoleIds(PopPage(pool, s).pages, front) + Freed(pool.pages, Last(pool.sequences[s].pages))
  {
    var pages := pool.sequences[s].pages;
    assert ClosedAt(pool, s);
    assert tail == front + [Last(pages)] && tail[..|tail| - 1] == front;
    forall p | p in front ensures p != Last(pages) && p in pool.pages {
      var i :| 0 <= i < |front| && front[i] == p;
      assert pages[k + i] == p;
    }
    SoleIdsSame(pool.pages, PopPage(pool, s).pages, front);
  }

  lemma DroppedOneMore<S, P>(pool: Pool<S, P>, popped: Pool<S, P>, pool': Pool<S, P>, s: S, k: nat)
    requires Conserved(pool) && CanPop(pool, s) && popped == PopPage(pool, s) && DroppedTo(popped, pool', s, k)
    ensures DroppedTo(pool, pool', s, k)
  {
    var pages := pool.sequences[s].pages;
    var front := pages[..|pages| - 1];
    PopShape(pool, s);
    PoppedIsFirst(pool, s);
    assert front[..k] == pages[..k];
    PoppedSoleIds(pool, s, k, front[k..], pages[k..]);
    Regroup(SoleIds(popped.pages, front[k..]), Freed(pool.pages, Last(pages)), pool.available);
  }

  lemma Regroup<T>(a: seq<T>, b: seq<T>, c: seq<T>)
    ensures a + (b + c) == (a + b) + c
  {
  }

  /** Popping down to n drops pages in this order. */
  lemma {:induction false} PopDownOrder<S, P>(pool: Pool<S, P>, s: S, n: nat)
    requires Conserved(pool) && s in pool.sequences
    ensures var pool' := PopDown(pool, s, n); DroppedTo(pool, pool', s, |pool'.sequences[s].pages|)
    decreases |pool.sequences[s].pages|
  {
    var pages := pool.sequences[s].pages;
    if pages != [] && n <= Times(|pages| - 1, pool.pageSize) {
      var popped := PopPage(pool, s);
      PopConserves(pool, s);
      PopShape(pool, s);
      PopDownOrder(popped, s, n);
      PopDownStep(pool, popped, s, n);
      var pool' := PopDown(popped, s, n);
      DroppedOneMore(pool, popped, pool', s, |pool'.sequences[s].pages|);
    } else {
      PopDownStop(pool, s, n);
      DroppedNone(pool, s);
    }
  }

  /** Clearing a sequence returns the pages only it holds, in their order. */
  lemma ClearOrder<S, P>(pool: Pool<S, P>, s: S)
    requires Conserved(pool) && s in pool.sequences
    ensures Clear(pool, s).available == SoleIds(pool.pages, pool.sequences[s].pages) + pool.available
  {
    PopDownOrder(pool, s, 0);
    ClearSequences(pool, s);
    assert pool.sequences[s].pages[0..] == pool.sequences[s].pages;
  }

  /** The free ids once truncation to n has dropped the pages behind it. */
  function FreedBy<S, P>(pool: Pool<S, P>, s: S, n: nat): seq<nat>
    requires s in pool.sequences && PagesFor(n, pool.pageSize) <= |pool.sequences[s].pages|
  {
    SoleIds(pool.pages, pool.sequences[s].pages[PagesFor(n, pool.pageSize)..]) + pool.available
  }

  lemma RetargetDrops<S, P>(pool: Pool<S, P>, x: Pool<S, P>, y: Pool<S, P>, z: Pool<S, P>, s: S, n: nat)
    requires s in pool.sequences && x == Retarget(pool, s, n, pool.sequences[s].targetToken)
    requires s in y.sequences && DroppedTo(x, y, s, |y.sequences[s].pages|)
    requires z == Retarget(y, s, n, TokenAfter(pool, s, n))
    ensures DroppedTo(pool, z, s, |z.sequences[s].pages|)
  {
  }

  lemma KeptOrder<S, P>(pool: Pool<S, P>, s: S, n: nat)
    requires Conserved(pool) && s in pool.sequences && n <= Times(|pool.sequences[s].pages|, pool.pageSize)
    ensures PagesFor(n, pool.pageSize) <= |pool.sequences[s].pages|
    ensures Kept(pool, s, n).available == FreedBy(pool, s, n)
  {
    var shortened := Retarget(pool, s, n, pool.sequences[s].targetToken);
    RetargetConserves(pool, s, n, pool.sequences[s].targetToken);
    KeptSequences(pool, s, n);
    PopDownOrder(shortened, s, n);
    RetargetDrops(pool, shortened, PopDown(shortened, s, n), Kept(pool, s, n), s, n);
  }

  /** Truncation frees the dropped pages in their order; a copy it has to make takes the
      first id of what is free then. */
  lemma TruncateOrder<S, P>(pool: Pool<S, P>, s: S, n: nat, spare: P)
    requires Valid(pool) && s in pool.sequences && n < pool.sequences[s].allocLen && spare !in pool.pages
    requires Truncate(pool, s, n, spare).Done?
    ensures PagesFor(n, pool.pageSize) <= |pool.sequences[s].pages|
    ensures var pool', free := Truncate(pool, s, n, spare).pool, FreedBy(pool, s, n);
            if Copies(pool, s, n)
            then free != [] && pool'.available == free[1..] && spare in pool'.pages && pool'.pages[spare].id == free[0]
                 && spare in pool'.sequences[s].pages
            else pool'.available == free && pool'.pages.Keys == pool.pages.Keys
  {
    HistoryFits(pool, s);
    KeptOrder(pool, s, n);
    KeptConserves(pool, s, n);
    if OffsetOf(n, pool.pageSize) != 0 {
      PageArithmetic(n, pool.pageSize);
      KeptSequences(pool, s, n);
      KeptLastPage(pool, s, n);
      var kept, k := Kept(pool, s, n), PageOf(n, pool.pageSize);
      if Copies(pool, s, n) {
        DetachTakesFirst(kept, s, k, spare);
      }
    }
  }

  lemma DetachTakesFirst<S, P>(pool: Pool<S, P>, s: S, k: nat, spare: P)
    requires s in pool.sequences && k < |pool.sequences[s].pages| && pool.available != []
    requires pool.sequences[s].pages[k] in pool.pages && pool.pages[pool.sequences[s].pages[k]].refs > 0
    ensures var pool' := Detach(pool, s, k, spare);
            && pool'.available == pool.available[1..] && pool'.pages[spare].id == pool.available[0]
            && pool'.sequences[s].pages[k] == spare && spare in pool'.sequences[s].pages
  {
  }

  // ---------------------------------------------------------------------
  // Attaching

  /** New pages with the first free ids, one after the other. */
  function AttachAll<S, P>(pool: Pool<S, P>, s: S, spares: seq<P>): (pool': Pool<S, P>)
    requires s in pool.sequences && |spares| <= |pool.available|
    ensures s in pool'.sequences && |pool'.available| == |pool.available| - |spares|
    decreases |spares|
  {
    if spares == [] then pool else Attach(AttachAll(pool, s, spares[..|spares| - 1]), s, spares[|spares| - 1])
  }

  ghost predicate FreshPages<S, P>(pool: Pool<S, P>, spares: seq<P>) {
    NoDup(spares) && forall p :: p in spares ==> p !in pool.pages
  }

  /** Only new pages at the end of s, numbered in the order of the free list. */
  ghost predicate Attached<S, P>(pool: Pool<S, P>, pool': Pool<S, P>, s: S, spares: seq<P>) {
    && s in pool.sequences && |spares| <= |pool.available|
    && pool' == pool.(available := pool.available[|spares|..], sequences := pool'.sequences, pages := pool'.pages)
    && pool'.sequences == pool.sequences[s := pool.sequences[s].(pages := pool.sequences[s].pages + spares)]
    && pool'.pages.Keys == pool.pages.Keys + (set p | p in spares)
    && (forall p :: p in pool.pages && p !in spares ==> pool'.pages[p] == pool.pages[p])
    && (forall j {:trigger spares[j]} :: 0 <= j < |spares| ==> pool'.pages[spares[j]] == PageView(pool.available[j], [], 1))
  }

  lemma AttachedNext<S, P>(pool: Pool<S, P>, grown: Pool<S, P>, s: S, spares: seq<P>, spare: P)
    requires Attached(pool, grown, s, spares) && grown.available != [] && spare !in grown.pages
    ensures Attached(pool, Attach(grown, s, spare), s, spares + [spare])
  {
    var pool', more := Attach(grown, s, spare), spares + [spare];
    assert pool.available[|spares|..][1..] == pool.available[|spares| + 1..];
    assert pool.sequences[s].pages + spares + [spare] == pool.sequences[s].pages + more;
    assert spare in more;
    assert forall p :: p in more <==> p in spares || p == spare;
    forall j {:trigger more[j]} | 0 <= j < |more| ensures pool'.pages[more[j]] == PageView(pool.available[j], [], 1) {
      if j < |spares| { assert spares[j] in grown.pages; }
    }
  }

  lemma {:induction false} AttachOrder<S, P>(pool: Pool<S, P>, s: S, spares: seq<P>)
    requires s in pool.sequences && |spares| <= |pool.available| && FreshPages(pool, spares)
    ensures Attached(pool, AttachAll(pool, s, spares), s, spares)
    decreases |spares|
  {
    if spares == [] {
      assert pool.sequences[s].pages + spares == pool.sequences[s].pages;
    } else {
      var n := |spares| - 1;
      AttachOrder(pool, s, spares[..n]);
      assert spares[n] !in spares[..n];
      AttachedNext(pool, AttachAll(pool, s, spares[..n]), s, spares[..n], spares[n]);
      assert spares[..n] + [spares[n]] == spares;
    }
  }

  // ---------------------------------------------------------------------
  // There and back

  /** The id a popped page gives back is the next one taken, by any sequence. */
  lemma PoppedIsNext<S, P>(pool: Pool<S, P>, s: S, t: S, spare: P)
    requires Conserved(pool) && CanPop(pool, s) && t in pool.sequences && spare !in pool.pages
    requires Last(pool.sequences[s].pages) in pool.pages && pool.pages[Last(pool.sequences[s].pages)].refs == 1
    ensures var id, popped := pool.pages[Last(pool.sequences[s].pages)].id, PopPage(pool, s);
            && popped.available == [id] + pool.available
            && Attach(popped, t, spare).pages[spare] == PageView(id, [], 1)
            && Attach(popped, t, spare).available == pool.available
  {
    PoppedIsFirst(pool, s);
  }

  lemma {:induction false} PopDownCount<S, P>(pool: Pool<S, P>, s: S, c: nat)
    requires s in pool.sequences && c <= |pool.sequences[s].pages|
    ensures |PopDown(pool, s, Times(c, pool.pageSize)).sequences[s].pages| == c
    decreases |pool.sequences[s].pages|
  {
    var last, n := |pool.sequences[s].pages| - 1, Times(c, pool.pageSize);
    if c <= last {
      TimesMono(c, last, pool.pageSize);
      PopShape(pool, s);
      PopDownStep(pool, PopPage(pool, s), s, n);
      PopDownCount(PopPage(pool, s), s, c);
    } else {
      PopDownStop(pool, s, n);
    }
  }

  lemma AttachValid<S, P>(pool: Pool<S, P>, s: S, spare: P)
    requires Valid(pool) && s in pool.sequences && pool.available != [] && spare !in pool.pages
    ensures Valid(Attach(pool, s, spare))
  {
    AttachFacts(pool, s, spare);
  }

  lemma NextIsFresh<S, P>(pool: Pool<S, P>, s: S, spares: seq<P>, n: nat)
    requires s in pool.sequences && n < |spares| <= |pool.available| && FreshPages(pool, spares)
    ensures FreshPages(pool, spares[..n]) && spares[n] !in AttachAll(pool, s, spares[..n]).pages
  {
    AttachOrder(pool, s, spares[..n]);
    assert spares[n] !in spares[..n];
  }

  lemma {:induction false} AttachAllValid<S, P>(pool: Pool<S, P>, s: S, spares: seq<P>)
    requires Valid(pool) && s in pool.sequences && |spares| <= |pool.available| && FreshPages(pool, spares)
    ensures Valid(AttachAll(pool, s, spares))
    decreases |spares|
  {
    if spares != [] {
      var n := |spares| - 1;
      NextIsFresh(pool, s, spares, n);
      AttachAllValid(pool, s, spares[..n]);
      AttachValid(AttachAll(pool, s, spares[..n]), s, spares[n]);
    }
  }

  lemma {:induction false} NewSoleIds<P>(store: map<P, PageView>, spares: seq<P>, ids: seq<nat>)
    requires |spares| <= |ids|
    requires forall j :: 0 <= j < |spares| ==> spares[j] in store && store[spares[j]].refs == 1 && store[spares[j]].id == ids[j]
    ensures SoleIds(store, spares) == ids[..|spares|]
    decreases |spares|
  {
    if spares != [] { NewSoleIds(store, spares[..|spares| - 1], ids); }
  }

  lemma GrownDropped<S, P>(pool: Pool<S, P>, grown: Pool<S, P>, dropped: Pool<S, P>, s: S, spares: seq<P>)
    requires Attached(pool, grown, s, spares) && DroppedTo(grown, dropped, s, |pool.sequences[s].pages|)
    ensures dropped.available == pool.available && dropped.sequences[s].pages == pool.sequences[s].pages
  {
    var pages := pool.sequences[s].pages;
    assert (pages + spares)[..|pages|] == pages && (pages + spares)[|pages|..] == spares;
    NewSoleIds(grown.pages, spares, pool.available);
    assert pool.available[..|spares|] + pool.available[|spares|..] == pool.available;
  }

  /** Dropping the pages of an append restores the free list, id by id. */
  lemma AppendUndone<S, P>(pool: Pool<S, P>, s: S, spares: seq<P>)
    requires Valid(pool) && s in pool.sequences && |spares| <= |pool.available| && FreshPages(pool, spares)
    ensures var dropped := PopDown(AttachAll(pool, s, spares), s, Times(|pool.sequences[s].pages|, pool.pageSize));
            dropped.available == pool.available && dropped.sequences[s].pages == pool.sequences[s].pages
  {
    var n, grown := Times(|pool.sequences[s].pages|, pool.pageSize), AttachAll(pool, s, spares);
    AttachAllValid(pool, s, spares);
    AttachOrder(pool, s, spares);
    PopDownCount(grown, s, |pool.sequences[s].pages|);
    PopDownOrder(grown, s, n);
    GrownDropped(pool, grown, PopDown(grown, s, n), s, spares);
  }
}
