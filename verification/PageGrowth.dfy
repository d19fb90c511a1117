/** Reporting, reserving, sharing and clearing pages. */
module PageGrowth {
  import opened Wrappers
  import opened TokenChunks
  import opened PagePool
  import opened PageLaws

  // ---------------------------------------------------------------------
  // Reporting tokens

  lemma PushConserves<S, P>(pool: Pool<S, P>, s: S, x: int)
    requires Conserved(pool) && s in pool.sequences
    ensures Conserved(PushToken(pool, s, x))
  {
    forall t | t in pool.sequences ensures ClosedAt(PushToken(pool, s, x), t) { assert ClosedAt(pool, t); }
    var pool' := PushToken(pool, s, x);
    forall p | p in pool'.pages ensures pool'.pages[p].refs == |Holders(pool', p)| {
      assert Holders(pool', p) == Holders(pool, p);
    }
    SameIdsPartitioned(pool, pool');
  }

  /** The page a report writes to is partial, so this sequence is its only holder. */
  lemma PushPageIsPrivate<S, P>(pool: Pool<S, P>, s: S)
    requires Valid(pool) && s in pool.sequences && |History(pool, s)| < pool.sequences[s].allocLen
    ensures var pages, k := pool.sequences[s].pages, PageOf(|History(pool, s)|, pool.pageSize);
            && k < |pages| && pages[k] in pool.pages
            && |pool.pages[pages[k]].tokenIds| < pool.pageSize
            && Holders(pool, pages[k]) == {s}
  {
    assert WellShaped(pool, s);
    var pages := pool.sequences[s].pages;
    FlatPush(Lists(pool.pages, pages), pool.pageSize, 0);
    PageArithmetic(|History(pool, s)|, pool.pageSize);
    var p := pages[PageOf(|History(pool, s)|, pool.pageSize)];
    assert p in pages;
    HeldPageCounted(pool, s, p);
    assert pool.pages[p].refs <= 1;
  }

  lemma PushUntouched<S, P>(pool: Pool<S, P>, s: S, x: int)
    requires Valid(pool) && s in pool.sequences && |History(pool, s)| < pool.sequences[s].allocLen
    ensures OthersUntouched(pool, PushToken(pool, s, x), s) && SharedFull(PushToken(pool, s, x))
  {
    PushPageIsPrivate(pool, s);
    var p := pool.sequences[s].pages[PageOf(|History(pool, s)|, pool.pageSize)];
    assert pool.pages[p].refs == |Holders(pool, p)|;
    forall t | t in pool.sequences && t != s ensures ReadsSame(pool, PushToken(pool, s, x), t) {
      assert ClosedAt(pool, t);
      assert t in Holders(pool, p) <==> p in pool.sequences[t].pages;
    }
  }

  lemma PushHistory<S, P>(pool: Pool<S, P>, s: S, x: int)
    requires Valid(pool) && s in pool.sequences && |History(pool, s)| < pool.sequences[s].allocLen
    ensures History(PushToken(pool, s, x), s) == History(pool, s) + [x] && WellShaped(PushToken(pool, s, x), s)
    ensures Contents(PushToken(pool, s, x), pool.sequences[s].pages) == Contents(pool, pool.sequences[s].pages)
  {
    assert ClosedAt(pool, s);
    assert WellShaped(pool, s);
    PushPageIsPrivate(pool, s);
    var pages, k := pool.sequences[s].pages, PageOf(|History(pool, s)|, pool.pageSize);
    var ts := Lists(pool.pages, pages);
    assert forall i :: 0 <= i < |pages| && i != k ==> pages[i] != pages[k];
    assert Lists(PushToken(pool, s, x).pages, pages) == ts[k := ts[k] + [x]];
    FlatPush(ts, pool.pageSize, x);
  }

  lemma PushFacts<S, P>(pool: Pool<S, P>, s: S, x: int)
    requires Valid(pool) && s in pool.sequences && |History(pool, s)| < pool.sequences[s].allocLen
    ensures var pool' := PushToken(pool, s, x);
            && Valid(pool') && OthersUntouched(pool, pool', s)
            && History(pool', s) == History(pool, s) + [x]
            && Contents(pool', pool.sequences[s].pages) == Contents(pool, pool.sequences[s].pages)
            && pool' == pool.(pages := pool'.pages)
  {
    PushConserves(pool, s, x);
    PushUntouched(pool, s, x);
    PushHistory(pool, s, x);
    UntouchedKeepsShapes(pool, PushToken(pool, s, x), s);
  }

  lemma UntouchedReflexive<S, P>(pool: Pool<S, P>, s: S)
    requires Closed(pool)
    ensures OthersUntouched(pool, pool, s)
  {
    forall t | t in pool.sequences && t != s ensures ReadsSame(pool, pool, t) { assert ClosedAt(pool, t); }
  }

  /** Only the token lists of pages differ, and only sequence s reads them. */
  ghost predicate Wrote<S, P>(pool: Pool<S, P>, pool': Pool<S, P>, s: S) {
    && s in pool.sequences
    && Valid(pool') && OthersUntouched(pool, pool', s)
    && Contents(pool', pool.sequences[s].pages) == Contents(pool, pool.sequences[s].pages)
    && pool' == pool.(pages := pool'.pages)
  }

  lemma WroteTransitive<S, P>(x: Pool<S, P>, y: Pool<S, P>, z: Pool<S, P>, s: S)
    requires Wrote(x, y, s) && Wrote(y, z, s)
    ensures Wrote(x, z, s)
  {
    UntouchedTransitive(x, y, z, s);
  }

  lemma {:induction false} PushTokensFacts<S, P>(pool: Pool<S, P>, s: S, xs: seq<int>)
    requires Valid(pool) && s in pool.sequences && |History(pool, s)| + |xs| <= pool.sequences[s].allocLen
    ensures Wrote(pool, PushTokens(pool, s, xs), s)
    ensures History(PushTokens(pool, s, xs), s) == History(pool, s) + xs
  {
    if xs == [] {
      UntouchedReflexive(pool, s);
    } else {
      var before, last := xs[..|xs| - 1], xs[|xs| - 1];
      PushTokensFacts(pool, s, before);
      PushFacts(PushTokens(pool, s, before), s, last);
      WroteTransitive(pool, PushTokens(pool, s, before), PushTokens(pool, s, xs), s);
      assert before + [last] == xs;
    }
  }

  /** `pool'` is `pool` with history, length and target of s replaced, its pages
      extended, and nothing readable by any other sequence changed. */
  ghost predicate Extended<S, P>(pool: Pool<S, P>, pool': Pool<S, P>, s: S, history: seq<int>, allocLen: nat, target: Option<int>)
    requires s in pool.sequences
  {
    && Valid(pool') && OthersUntouched(pool, pool', s)
    && s in pool'.sequences && pool'.sequences.Keys == pool.sequences.Keys
    && pool'.pageSize == pool.pageSize && pool'.maxPages == pool.maxPages
    && History(pool', s) == history
    && var v, v' := pool.sequences[s], pool'.sequences[s];
       && v'.allocLen == allocLen && v'.targetToken == target
       && |v.pages| <= |v'.pages| && v'.pages[..|v.pages|] == v.pages
       && Contents(pool', v.pages) == Contents(pool, v.pages)
  }

  lemma RetargetFacts<S, P>(pool: Pool<S, P>, s: S, allocLen: nat, target: Option<int>)
    requires Valid(pool) && s in pool.sequences
    requires |History(pool, s)| <= allocLen <= Times(|pool.sequences[s].pages|, pool.pageSize)
    ensures Extended(pool, Retarget(pool, s, allocLen, target), s, History(pool, s), allocLen, target)
  {
    forall t | t in pool.sequences && t != s ensures ReadsSame(pool, Retarget(pool, s, allocLen, target), t) { assert ClosedAt(pool, t); }
    assert WellShaped(pool, s);
    RetargetConserves(pool, s, allocLen, target);
    UntouchedKeepsShapes(pool, Retarget(pool, s, allocLen, target), s);
  }

  lemma ExtendedTransitive<S, P>(x: Pool<S, P>, y: Pool<S, P>, z: Pool<S, P>, s: S,
                                 h: seq<int>, n: nat, t: Option<int>, h': seq<int>, n': nat, t': Option<int>)
    requires s in x.sequences && Extended(x, y, s, h, n, t) && Extended(y, z, s, h', n', t')
    ensures Extended(x, z, s, h', n', t')
  {
    UntouchedTransitive(x, y, z, s);
    var a, b := x.sequences[s].pages, y.sequences[s].pages;
    assert z.sequences[s].pages[..|b|][..|a|] == z.sequences[s].pages[..|a|];
    forall i | 0 <= i < |a| ensures Contents(z, a)[i] == Contents(x, a)[i] {
      assert a[i] == b[i];
      assert Contents(y, a)[i] == Contents(y, b)[i] == Contents(z, b)[i];
    }
  }

  lemma ExtendRetarget<S, P>(x: Pool<S, P>, y: Pool<S, P>, s: S, h: seq<int>, n: nat, t: Option<int>, n': nat, t': Option<int>)
    requires s in x.sequences && Extended(x, y, s, h, n, t)
    requires |h| <= n' <= Times(|y.sequences[s].pages|, y.pageSize)
    ensures Extended(x, Retarget(y, s, n', t'), s, h, n', t')
  {
    RetargetFacts(y, s, n', t');
    ExtendedTransitive(x, y, Retarget(y, s, n', t'), s, h, n, t, h, n', t');
  }

  /** Reporting fails exactly when the tokens exceed the reserved region, and
      otherwise appends them to this sequence's history alone. */
  lemma ReportExact<S, P>(pool: Pool<S, P>, s: S, xs: seq<int>, target: Option<int>)
    requires Valid(pool) && s in pool.sequences
    ensures var result := Report(pool, s, xs, target);
            && (result.Some? <==> |History(pool, s) + xs| <= pool.sequences[s].allocLen)
            && (result.Some? ==> Extended(pool, result.value, s, History(pool, s) + xs, pool.sequences[s].allocLen, target))
  {
    if |History(pool, s)| + |xs| <= pool.sequences[s].allocLen {
      assert WellShaped(pool, s);
      PushTokensFacts(pool, s, xs);
      RetargetFacts(PushTokens(pool, s, xs), s, pool.sequences[s].allocLen, target);
      UntouchedTransitive(pool, PushTokens(pool, s, xs), Report(pool, s, xs, target).value, s);
    }
  }

  // ---------------------------------------------------------------------
  // Reserving positions

  lemma AttachHolders<S, P>(pool: Pool<S, P>, s: S, spare: P, p: P)
    requires Closed(pool) && s in pool.sequences && pool.available != [] && spare !in pool.pages
    ensures Holders(Attach(pool, s, spare), p) == if p == spare then {s} else Holders(pool, p)
  {
    HoldersUpdate(pool, Attach(pool, s, spare), s, p);
    if p == spare {
      forall t | t in pool.sequences ensures spare !in pool.sequences[t].pages { assert ClosedAt(pool, t); }
    } else {
      assert p in pool.sequences[s].pages + [spare] <==> p in pool.sequences[s].pages;
      assert p in pool.sequences[s].pages <==> s in Holders(pool, p);
    }
  }

  lemma AttachCounts<S, P>(pool: Pool<S, P>, s: S, spare: P)
    requires Closed(pool) && Counted(pool) && s in pool.sequences && pool.available != [] && spare !in pool.pages
    ensures Closed(Attach(pool, s, spare)) && Counted(Attach(pool, s, spare))
  {
    forall t | t in pool.sequences ensures ClosedAt(Attach(pool, s, spare), t) { assert ClosedAt(pool, t); }
    var pool' := Attach(pool, s, spare);
    forall p | p in pool'.pages ensures pool'.pages[p].refs == |Holders(pool', p)| {
      AttachHolders(pool, s, spare, p);
      assert p != spare ==> pool.pages[p].refs == |Holders(pool, p)|;
    }
  }

  lemma AttachPartitions<S, P>(pool: Pool<S, P>, s: S, spare: P)
    requires Conserved(pool) && s in pool.sequences && pool.available != [] && spare !in pool.pages
    ensures Partitioned(Attach(pool, s, spare))
  {
    var pool' := Attach(pool, s, spare);
    var newId := pool.available[0];
    assert newId in pool.available;
    assert pool.available == [newId] + pool.available[1..];
    forall id: nat ensures HeldId(pool', id) <==> HeldId(pool, id) || id == newId {
      if id == newId { assert pool'.pages[spare].refs > 0 && pool'.pages[spare].id == id; }
      if HeldId(pool, id) {
        var q :| q in pool.pages && pool.pages[q].refs > 0 && pool.pages[q].id == id;
        assert q in pool'.pages && pool'.pages[q].refs > 0 && pool'.pages[q].id == id;
      }
      if HeldId(pool', id) && id != newId {
        var q :| q in pool'.pages && pool'.pages[q].refs > 0 && pool'.pages[q].id == id;
        assert q in pool.pages && pool.pages[q].refs > 0 && pool.pages[q].id == id;
      }
    }
    forall id: nat ensures id in pool'.available <==> id in pool.available && id != newId {}
    forall p, q | p in pool'.pages && q in pool'.pages ensures ApartIds(pool', p, q) {
      if p == spare || q == spare {
        var other := if p == spare then q else p;
        assert other != spare && pool'.pages[other].refs > 0 ==> HeldId(pool, pool.pages[other].id);
      } else {
        assert ApartIds(pool, p, q);
      }
    }
  }

  lemma AttachUntouched<S, P>(pool: Pool<S, P>, s: S, spare: P)
    requires Conserved(pool) && s in pool.sequences && pool.available != [] && spare !in pool.pages
    ensures OthersUntouched(pool, Attach(pool, s, spare), s)
  {
    forall t | t in pool.sequences && t != s ensures ReadsSame(pool, Attach(pool, s, spare), t) { assert ClosedAt(pool, t); }
  }

  lemma {:induction false} FlatAppendEmpty(ts: seq<seq<int>>)
    ensures Flat(ts + [[]]) == Flat(ts)
  {
    if ts == [] {
      assert ts + [[]] == [[]];
      assert Flat([[]]) == [] + Flat([]);
    } else {
      FlatAppendEmpty(ts[1..]);
      assert (ts + [[]])[1..] == ts[1..] + [[]];
    }
  }

  lemma AttachLists<S, P>(pool: Pool<S, P>, s: S, spare: P)
    requires Closed(pool) && s in pool.sequences && pool.available != [] && spare !in pool.pages
    ensures var pages, pool' := pool.sequences[s].pages, Attach(pool, s, spare);
            && pool'.sequences[s].pages == pages + [spare]
            && Lists(pool'.pages, pages + [spare]) == Lists(pool.pages, pages) + [[]]
            && Contents(pool', pages) == Contents(pool, pages)
  {
    var pages := pool.sequences[s].pages;
    assert ClosedAt(pool, s);
    assert forall i :: 0 <= i < |pages| ==> pages[i] in pages;
  }

  lemma AttachShape<S, P>(pool: Pool<S, P>, s: S, spare: P)
    requires Valid(pool) && s in pool.sequences && pool.available != [] && spare !in pool.pages
    ensures History(Attach(pool, s, spare), s) == History(pool, s) && WellShaped(Attach(pool, s, spare), s)
  {
    assert WellShaped(pool, s);
    AttachLists(pool, s, spare);
    FlatAppendEmpty(Lists(pool.pages, pool.sequences[s].pages));
    TimesMono(|pool.sequences[s].pages|, |pool.sequences[s].pages| + 1, pool.pageSize);
  }

  lemma AttachFacts<S, P>(pool: Pool<S, P>, s: S, spare: P)
    requires Valid(pool) && s in pool.sequences && pool.available != [] && spare !in pool.pages
    ensures var v := pool.sequences[s];
            Extended(pool, Attach(pool, s, spare), s, History(pool, s), v.allocLen, v.targetToken)
    ensures Attach(pool, s, spare).available == pool.available[1..]
    ensures |Attach(pool, s, spare).sequences[s].pages| == |pool.sequences[s].pages| + 1
    ensures Attach(pool, s, spare).pages.Keys == pool.pages.Keys + {spare}
  {
    AttachCounts(pool, s, spare);
    AttachPartitions(pool, s, spare);
    AttachUntouched(pool, s, spare);
    AttachShape(pool, s, spare);
    AttachLists(pool, s, spare);
    UntouchedKeepsShapes(pool, Attach(pool, s, spare), s);
  }

  /** Once the missing pages are attached, there is room for n more positions. */
  lemma GrownHasRoom<S, P>(pool: Pool<S, P>, grown: Pool<S, P>, s: S, n: nat)
    requires s in pool.sequences && s in grown.sequences && grown.pageSize == pool.pageSize
    requires |grown.sequences[s].pages| == |pool.sequences[s].pages| + NewPages(pool, s, n)
    ensures pool.sequences[s].allocLen + n <= Times(|grown.sequences[s].pages|, pool.pageSize)
  {
    var total := pool.sequences[s].allocLen + n;
    PagesForBounds(total, pool.pageSize);
    TimesMono(PagesFor(total, pool.pageSize), |grown.sequences[s].pages|, pool.pageSize);
  }

  lemma ExtendedReflexive<S, P>(pool: Pool<S, P>, s: S)
    requires Valid(pool) && s in pool.sequences
    ensures var v := pool.sequences[s]; Extended(pool, pool, s, History(pool, s), v.allocLen, v.targetToken)
  {
    UntouchedReflexive(pool, s);
    var v := pool.sequences[s];
    assert v.pages[..|v.pages|] == v.pages;
  }

  /** One more page attached to an extended sequence. */
  lemma ExtendAttach<S, P>(x: Pool<S, P>, y: Pool<S, P>, s: S, h: seq<int>, n: nat, t: Option<int>, spare: P)
    requires s in x.sequences && Extended(x, y, s, h, n, t) && y.available != [] && spare !in y.pages
    ensures Extended(x, Attach(y, s, spare), s, h, n, t)
  {
    AttachFacts(y, s, spare);
    ExtendedTransitive(x, y, Attach(y, s, spare), s, h, n, t, h, n, t);
  }

  // ---------------------------------------------------------------------
  // Sharing pages

  lemma CreateFacts<S, P>(pool: Pool<S, P>, s: S)
    requires Valid(pool) && s !in pool.sequences
    ensures Valid(Create(pool, s)) && OthersUntouched(pool, Create(pool, s), s)
    ensures History(Create(pool, s), s) == []
  {
    forall t | t in pool.sequences
      ensures ClosedAt(Create(pool, s), t) && ReadsSame(pool, Create(pool, s), t)
    {
      assert ClosedAt(pool, t);
    }
    var pool' := Create(pool, s);
    forall p | p in pool'.pages ensures pool'.pages[p].refs == |Holders(pool', p)| {
      assert Holders(pool', p) == Holders(pool, p);
    }
    SameIdsPartitioned(pool, pool');
    forall t | t in pool'.sequences ensures WellShaped(pool', t) {
      if t != s {
        assert WellShaped(pool, t);
        assert ReadsSame(pool, pool', t);
        ReadsSameHistory(pool, pool', t);
      }
    }
  }

  lemma SharePageConserves<S, P>(pool: Pool<S, P>, s: S, p: P)
    requires Conserved(pool) && s in pool.sequences && p in pool.pages && pool.pages[p].refs > 0
    requires p !in pool.sequences[s].pages
    ensures Conserved(PushPage(pool, s, p, pool.pageSize))
  {
    forall t | t in pool.sequences ensures ClosedAt(PushPage(pool, s, p, pool.pageSize), t) { assert ClosedAt(pool, t); }
    var pool' := PushPage(pool, s, p, pool.pageSize);
    forall q | q in pool'.pages ensures pool'.pages[q].refs == |Holders(pool', q)| {
      HoldersUpdate(pool, pool', s, q);
      assert pool.pages[q].refs == |Holders(pool, q)|;
      assert q in pool.sequences[s].pages <==> s in Holders(pool, q);
      if q != p {
        assert q in pool'.sequences[s].pages <==> q in pool.sequences[s].pages;
        assert Holders(pool', q) == Holders(pool, q);
      }
    }
    SameIdsPartitioned(pool, pool');
  }

  lemma {:induction false} FlatSnoc(ts: seq<seq<int>>, t: seq<int>, size: nat)
    requires Shaped(ts, size) && |t| <= size && forall i :: 0 <= i < |ts| ==> |ts[i]| == size
    ensures Shaped(ts + [t], size) && Flat(ts + [t]) == Flat(ts) + t
  {
    if ts == [] {
      assert ts + [t] == [t];
      assert Flat([t]) == t + Flat([]);
    } else {
      assert forall i :: 0 <= i < |ts[1..]| ==> ts[1..][i] == ts[i + 1];
      FlatSnoc(ts[1..], t, size);
      assert (ts + [t])[1..] == ts[1..] + [t];
    }
  }

  lemma {:induction false} FullLength(ts: seq<seq<int>>, size: nat)
    requires forall i :: 0 <= i < |ts| ==> |ts[i]| == size
    ensures |Flat(ts)| == Times(|ts|, size)
  {
    if ts != [] { FullLength(ts[1..], size); }
  }

  /** A sequence made of the first j pages of the donor. */
  ghost predicate Mirrors<S, P>(pool: Pool<S, P>, donor: S, s: S, j: nat) {
    && donor in pool.sequences && s in pool.sequences && donor != s
    && j <= |pool.sequences[donor].pages|
    && pool.sequences[s].pages == pool.sequences[donor].pages[..j]
    && pool.sequences[s].allocLen == Times(j, pool.pageSize)
  }

  /** All of `Valid` but for sharing: pages that are not full may have several holders. */
  ghost predicate Tidy<S, P>(pool: Pool<S, P>) {
    Conserved(pool) && forall s {:trigger WellShaped(pool, s)} | s in pool.sequences :: WellShaped(pool, s)
  }

  /** The donor has at least k pages. */
  ghost predicate HasPages<S, P>(pool: Pool<S, P>, donor: S, k: nat) {
    donor in pool.sequences && k <= |pool.sequences[donor].pages|
  }

  /** The reported tokens of the donor cover its first k pages. */
  ghost predicate FullPrefix<S, P>(pool: Pool<S, P>, donor: S, k: nat) {
    HasPages(pool, donor, k) && Times(k, pool.pageSize) <= |History(pool, donor)|
  }

  lemma SharePageFacts<S, P>(pool: Pool<S, P>, donor: S, s: S, j: nat)
    requires Tidy(pool) && Mirrors(pool, donor, s, j) && HasPages(pool, donor, j + 1)
    requires pool.sequences[donor].pages[j] in pool.pages
    ensures var pool' := PushPage(pool, s, pool.sequences[donor].pages[j], pool.pageSize);
            && Tidy(pool') && OthersUntouched(pool, pool', s) && Mirrors(pool', donor, s, j + 1)
  {
    assert ClosedAt(pool, donor);
    forall t | t in pool.sequences && t != s
      ensures ReadsSame(pool, PushPage(pool, s, pool.sequences[donor].pages[j], pool.pageSize), t)
    {
      assert ClosedAt(pool, t);
    }
    var pages := pool.sequences[donor].pages;
    var p := pages[j];
    assert p in pages;
    HeldPageCounted(pool, donor, p);
    SharePageConserves(pool, s, p);
    var pool' := PushPage(pool, s, p, pool.pageSize);
    assert OthersUntouched(pool, pool', s);
    UntouchedKeepsShapes(pool, pool', s);
    assert pages[..j] + [p] == pages[..j + 1];
    assert WellShaped(pool, donor);
    ListsPrefix(pool.pages, pool'.pages, pages, j + 1);
    PrefixFits(Lists(pool.pages, pages), pool.pageSize, j + 1);
  }

  lemma PrefixFits(ts: seq<seq<int>>, size: nat, k: nat)
    requires Shaped(ts, size) && k <= |ts|
    ensures Shaped(ts[..k], size) && |Flat(ts[..k])| <= Times(k, size)
  {
    FlatTake(ts, size, k);
  }

  lemma {:induction false} SharePagesFacts<S, P>(pool: Pool<S, P>, donor: S, s: S, k: nat)
    requires Tidy(pool) && Mirrors(pool, donor, s, 0) && HasPages(pool, donor, k)
    ensures var pool' := SharePages(pool, donor, s, k);
            && Tidy(pool') && OthersUntouched(pool, pool', s) && Mirrors(pool', donor, s, k)
            && pool'.sequences.Keys == pool.sequences.Keys
            && pool'.pageSize == pool.pageSize && pool'.maxPages == pool.maxPages
  {
    if k == 0 {
      UntouchedReflexive(pool, s);
    } else {
      var mid := SharePages(pool, donor, s, k - 1);
      SharePagesFacts(pool, donor, s, k - 1);
      assert ReadsSame(pool, mid, donor);
      assert ClosedAt(mid, donor);
      assert mid.sequences[donor].pages[k - 1] in mid.sequences[donor].pages;
      SharePageFacts(mid, donor, s, k - 1);
      UntouchedTransitive(pool, mid, SharePages(pool, donor, s, k), s);
    }
  }

  lemma ShareTidy<S, P>(pool: Pool<S, P>, donor: S, s: S, k: nat)
    requires Valid(pool) && s !in pool.sequences && HasPages(pool, donor, k)
    ensures var shared := SharePages(Create(pool, s), donor, s, k);
            && Tidy(shared) && OthersUntouched(pool, shared, s) && Mirrors(shared, donor, s, k)
            && shared.sequences.Keys == pool.sequences.Keys + {s}
            && shared.pageSize == pool.pageSize && shared.maxPages == pool.maxPages
  {
    var created := Create(pool, s);
    CreateFacts(pool, s);
    assert ReadsSame(pool, created, donor);
    SharePagesFacts(created, donor, s, k);
    UntouchedTransitive(pool, created, SharePages(created, donor, s, k), s);
  }

  /** Sharing the first k pages gives the new sequence what the donor has reported on them as
      its history, and no other sequence, the donor included, reads a difference. Only full
      pages are shared afterwards iff the reported tokens cover those pages. */
  lemma ShareExact<S, P>(pool: Pool<S, P>, donor: S, s: S, k: nat, target: Option<int>)
    requires Valid(pool) && s !in pool.sequences && HasPages(pool, donor, k)
    ensures var pool', n := Share(pool, donor, s, k, target), Times(k, pool.pageSize);
            && Tidy(pool') && OthersUntouched(pool, pool', s)
            && pool'.sequences.Keys == pool.sequences.Keys + {s}
            && pool'.pageSize == pool.pageSize && pool'.maxPages == pool.maxPages
            && History(pool', s) == History(pool, donor)[..Min(|History(pool, donor)|, n)]
            && pool'.sequences[s] == SequenceView(pool.sequences[donor].pages[..k], n, target)
    ensures Valid(Share(pool, donor, s, k, target)) <==> FullPrefix(pool, donor, k)
  {
    var shared := SharePages(Create(pool, s), donor, s, k);
    ShareTidy(pool, donor, s, k);
    assert ReadsSame(pool, shared, donor);
    SharedHistory(pool, shared, donor, s, k);
    RetargetTidy(shared, s, Times(k, pool.pageSize), target);
    UntouchedTransitive(pool, shared, Share(pool, donor, s, k, target), s);
    SharedFullExact(pool, donor, s, k, target);
  }

  lemma RetargetTidy<S, P>(pool: Pool<S, P>, s: S, allocLen: nat, target: Option<int>)
    requires Tidy(pool) && s in pool.sequences && allocLen == pool.sequences[s].allocLen
    ensures Tidy(Retarget(pool, s, allocLen, target)) && OthersUntouched(pool, Retarget(pool, s, allocLen, target), s)
    ensures History(Retarget(pool, s, allocLen, target), s) == History(pool, s)
  {
    forall t | t in pool.sequences && t != s ensures ReadsSame(pool, Retarget(pool, s, allocLen, target), t) { assert ClosedAt(pool, t); }
    assert WellShaped(pool, s);
    RetargetConserves(pool, s, allocLen, target);
    UntouchedKeepsShapes(pool, Retarget(pool, s, allocLen, target), s);
  }

  /** The pages with tokens are as they were, and those of the prefix have one more holder. */
  ghost predicate OneMore<S, P>(pool: Pool<S, P>, pool': Pool<S, P>, ps: seq<P>) {
    && pool'.pages.Keys == pool.pages.Keys && pool'.pageSize == pool.pageSize
    && forall p {:trigger pool'.pages[p]} | p in pool.pages ::
         && pool'.pages[p].tokenIds == pool.pages[p].tokenIds
         && pool'.pages[p].refs == pool.pages[p].refs + if p in ps then 1 else 0
  }

  lemma {:induction false} SharedCounts<S, P>(pool: Pool<S, P>, donor: S, s: S, k: nat)
    requires Closed(pool) && s in pool.sequences && donor != s && HasPages(pool, donor, k)
    ensures SharePages(pool, donor, s, k).sequences[donor] == pool.sequences[donor]
    ensures OneMore(pool, SharePages(pool, donor, s, k), pool.sequences[donor].pages[..k])
  {
    if k > 0 {
      SharedCounts(pool, donor, s, k - 1);
      assert ClosedAt(pool, donor);
      var pages, mid := pool.sequences[donor].pages, SharePages(pool, donor, s, k - 1);
      assert pages[k - 1] in pages && pages[..k] == pages[..k - 1] + [pages[k - 1]];
      assert SharePages(pool, donor, s, k) == PushPage(mid, s, pages[k - 1], pool.pageSize);
    }
  }

  lemma SharedFullExact<S, P>(pool: Pool<S, P>, donor: S, s: S, k: nat, target: Option<int>)
    requires Valid(pool) && s !in pool.sequences && HasPages(pool, donor, k)
    ensures SharedFull(Share(pool, donor, s, k, target)) <==> FullPrefix(pool, donor, k)
  {
    var created, pages := Create(pool, s), pool.sequences[donor].pages;
    CreateFacts(pool, s);
    SharedCounts(created, donor, s, k);
    var pool' := Share(pool, donor, s, k, target);
    assert ClosedAt(pool, donor);
    assert WellShaped(pool, donor);
    forall i | 0 <= i < k ensures pages[i] in pool.pages && pool'.pages[pages[i]].refs > 1 {
      assert pages[i] in pages && pages[i] in pages[..k];
      HeldPageCounted(pool, donor, pages[i]);
    }
    CoversExact(Lists(pool.pages, pages), pool.pageSize, k);
    if FullPrefix(pool, donor, k) {
      forall p | p in pool'.pages && pool'.pages[p].refs > 1 ensures |pool'.pages[p].tokenIds| == pool.pageSize {
        if p in pages[..k] {
          var i :| 0 <= i < k && pages[i] == p;
          assert |Lists(pool.pages, pages)[i]| == pool.pageSize;
        }
      }
    }
  }

  /** A history covers k pages iff these are full. */
  lemma {:induction false} CoversExact(ts: seq<seq<int>>, size: nat, k: nat)
    requires Shaped(ts, size) && k <= |ts|
    ensures Times(k, size) <= |Flat(ts)| <==> forall i :: 0 <= i < k ==> |ts[i]| == size
  {
    if k > 0 {
      var rest := ts[1..];
      ShapedTail(ts, size);
      CoversExact(rest, size, k - 1);
      assert forall i :: 0 <= i < k - 1 ==> rest[i] == ts[i + 1];
    }
  }

  /** Where the reported tokens do not cover the shared pages, the next token reported to the
      donor is written to a shared page, so the copy reads it as its own. */
  lemma UncoveredShareLeaks<S, P>(pool: Pool<S, P>, donor: S, s: S, k: nat, target: Option<int>, x: int, next: Option<int>)
    requires Valid(pool) && s !in pool.sequences && HasPages(pool, donor, k) && !FullPrefix(pool, donor, k)
    requires Times(k, pool.pageSize) <= pool.sequences[donor].allocLen
    ensures var shared := Share(pool, donor, s, k, target);
            var after := Report(shared, donor, [x], next);
            && after.Some? && History(shared, s) == History(pool, donor)
            && s in after.value.sequences && History(after.value, s) == History(pool, donor) + [x]
            && !OthersUntouched(shared, after.value, donor)
  {
    var shared := Share(pool, donor, s, k, target);
    ShareExact(pool, donor, s, k, target);
    assert ReadsSame(pool, shared, donor);
    ReadsSameHistory(pool, shared, donor);
    var h, size, pages := History(pool, donor), pool.pageSize, pool.sequences[donor].pages;
    var pushed := PushToken(shared, donor, x);
    assert [x][..0] == [];
    assert PushTokens(shared, donor, [x]) == pushed;
    PositionBelow(|h|, k, size);
    PushedThrough(shared, donor, x, pages[..k], s);
    var after := Retarget(pushed, donor, shared.sequences[donor].allocLen, next);
    assert History(after, s) == History(pushed, s);
    if OthersUntouched(shared, after, donor) {
      assert ReadsSame(shared, after, s);
      ReadsSameHistory(shared, after, s);
    }
  }

  lemma PositionBelow(n: nat, k: nat, size: nat)
    requires n < Times(k, size) && size > 0
    ensures PageOf(n, size) < k
  {
    PageArithmetic(n, size);
    if PageOf(n, size) >= k { TimesMono(k, PageOf(n, size), size); }
  }

  /** A token pushed onto a page reaches every sequence with the same pages up to it. */
  lemma PushedThrough<S, P>(pool: Pool<S, P>, donor: S, x: int, ps: seq<P>, s: S)
    requires Tidy(pool) && donor in pool.sequences && s in pool.sequences && donor != s
    requires History(pool, s) == History(pool, donor) && pool.sequences[s].pages == ps
    requires |ps| <= |pool.sequences[donor].pages| && ps == pool.sequences[donor].pages[..|ps|]
    requires PageOf(|History(pool, donor)|, pool.pageSize) < |ps| && |History(pool, s)| < Times(|ps|, pool.pageSize)
    ensures History(PushToken(pool, donor, x), s) == History(pool, s) + [x]
  {
    assert ClosedAt(pool, s);
    assert WellShaped(pool, s);
    var k, ts := PageOf(|History(pool, s)|, pool.pageSize), Lists(pool.pages, ps);
    assert ps[k] in ps;
    assert forall i :: 0 <= i < |ps| && i != k ==> ps[i] != ps[k];
    assert Lists(PushToken(pool, donor, x).pages, ps) == ts[k := ts[k] + [x]];
    FlatPush(ts, pool.pageSize, x);
  }

  /** While sharing, the donor keeps its pages and the new sequence mirrors them. */
  lemma SharedSoFar<S, P>(pool: Pool<S, P>, created: Pool<S, P>, donor: S, s: S, k: nat, i: nat)
    requires Valid(pool) && s !in pool.sequences && HasPages(pool, donor, k) && i <= k
    requires created == Create(pool, s)
    ensures var shared := SharePages(created, donor, s, i);
            && shared.sequences[donor] == pool.sequences[donor]
            && shared.sequences[s] == SequenceView(pool.sequences[donor].pages[..i], Times(i, pool.pageSize), None)
            && i <= |pool.sequences[donor].pages| && shared.pageSize == pool.pageSize
            && (i < k ==> pool.sequences[donor].pages[i] in shared.pages)
    ensures i < k ==>
              SharePages(created, donor, s, i + 1)
              == PushPage(SharePages(created, donor, s, i), s, pool.sequences[donor].pages[i], pool.pageSize)
  {
    ShareTidy(pool, donor, s, i);
    var shared := SharePages(created, donor, s, i);
    assert ReadsSame(pool, shared, donor);
    SharedTarget(created, donor, s, i);
    assert ClosedAt(pool, donor);
    assert i < k ==> pool.sequences[donor].pages[i] in pool.sequences[donor].pages;
  }

  lemma {:induction false} SharedTarget<S, P>(pool: Pool<S, P>, donor: S, s: S, k: nat)
    requires donor in pool.sequences && s in pool.sequences && donor != s
    ensures SharePages(pool, donor, s, k).sequences[s].targetToken == pool.sequences[s].targetToken
    ensures SharePages(pool, donor, s, k).pageSize == pool.pageSize
  {
    if k > 0 { SharedTarget(pool, donor, s, k - 1); }
  }

  lemma SharedHistory<S, P>(pool: Pool<S, P>, shared: Pool<S, P>, donor: S, s: S, k: nat)
    requires Valid(pool) && s in shared.sequences && OthersUntouched(pool, shared, s) && HasPages(pool, donor, k)
    requires donor != s && shared.sequences[s].pages == pool.sequences[donor].pages[..k]
    ensures History(shared, s) == History(pool, donor)[..Min(|History(pool, donor)|, Times(k, pool.pageSize))]
  {
    assert WellShaped(pool, donor) && ReadsSame(pool, shared, donor);
    var pages := pool.sequences[donor].pages;
    ListsPrefix(pool.pages, shared.pages, pages, k);
    FlatTake(Lists(pool.pages, pages), pool.pageSize, k);
  }

  // ---------------------------------------------------------------------
  // Popping and clearing

  lemma PopKeepsShape<S, P>(pool: Pool<S, P>, s: S)
    requires Conserved(pool) && CanPop(pool, s) && WellShaped(pool, s)
    ensures var k := |pool.sequences[s].pages| - 1;
            && WellShaped(PopPage(pool, s), s)
            && History(PopPage(pool, s), s) == History(pool, s)[..Min(|History(pool, s)|, Times(k, pool.pageSize))]
  {
    var pages := pool.sequences[s].pages;
    PopConserves(pool, s);
    PopShape(pool, s);
    assert ClosedAt(pool, s);
    ListsPrefix(pool.pages, PopPage(pool, s).pages, pages, |pages| - 1);
    FlatTake(Lists(pool.pages, pages), pool.pageSize, |pages| - 1);
  }

  /** Popping the last page is a rewind to the start of that page, or no rewind at
      all when the reported length does not reach it. */
  lemma PopExact<S, P>(pool: Pool<S, P>, s: S)
    requires Valid(pool) && CanPop(pool, s)
    ensures var pool', v := PopPage(pool, s), pool.sequences[s];
            var n := Min(v.allocLen, Times(|v.pages| - 1, pool.pageSize));
            && Valid(pool') && OthersUntouched(pool, pool', s)
            && History(pool', s) == History(pool, s)[..Min(|History(pool, s)|, n)]
            && pool'.sequences[s] == SequenceView(v.pages[..|v.pages| - 1], n, TargetAt(History(pool, s), v.targetToken, n))
  {
    var v := pool.sequences[s];
    assert WellShaped(pool, s);
    PopConserves(pool, s);
    PopShape(pool, s);
    PopKeepsShape(pool, s);
    TokenAfterIsTarget(pool, s, Min(v.allocLen, Times(|v.pages| - 1, pool.pageSize)));
    CountsOnlyUntouched(pool, PopPage(pool, s), s);
    UntouchedKeepsShapes(pool, PopPage(pool, s), s);
  }

  lemma {:induction false} ClearSequences<S, P>(pool: Pool<S, P>, s: S)
    requires s in pool.sequences
    ensures OnlyCounts(pool, PopDown(pool, s, 0), s)
    ensures PopDown(pool, s, 0).sequences[s].pages == []
    ensures pool.sequences[s].pages != [] ==> PopDown(pool, s, 0).sequences[s].allocLen == 0
    decreases |pool.sequences[s].pages|
  {
    if pool.sequences[s].pages != [] {
      PopShape(pool, s);
      ClearSequences(PopPage(pool, s), s);
      OnlyCountsTransitive(pool, PopPage(pool, s), PopDown(PopPage(pool, s), s, 0), s);
    }
  }

  lemma CutOffCounts<S, P>(pool: Pool<S, P>, popped: Pool<S, P>, s: S)
    requires Valid(pool) && Conserved(popped) && SameTokens(pool, popped) && OnlyCounts(pool, popped, s)
    requires popped.sequences[s].pages == [] && popped.sequences[s].allocLen == 0
    ensures Valid(popped) && OthersUntouched(pool, popped, s)
  {
    CountsOnlyUntouched(pool, popped, s);
    UntouchedKeepsShapes(pool, popped, s);
  }

  /** Clearing releases every page of s and nothing another sequence reads. */
  lemma ClearExact<S, P>(pool: Pool<S, P>, s: S)
    requires Valid(pool) && s in pool.sequences
    ensures Valid(Clear(pool, s)) && OthersUntouched(pool, Clear(pool, s), s)
    ensures Clear(pool, s).sequences[s] == SequenceView([], 0, None)
    ensures Clear(pool, s).sequences.Keys == pool.sequences.Keys
  {
    var popped := PopDown(pool, s, 0);
    HistoryFits(pool, s);
    PopDownConserves(pool, s, 0);
    ClearSequences(pool, s);
    CutOffCounts(pool, popped, s);
    RetargetFacts(popped, s, 0, None);
    UntouchedTransitive(pool, popped, Clear(pool, s), s);
  }

  /** Forgetting a cleared sequence. */
  lemma RemoveFacts<S, P>(pool: Pool<S, P>, s: S)
    requires Valid(pool) && s in pool.sequences && pool.sequences[s].pages == []
    ensures Valid(pool.(sequences := pool.sequences - {s}))
  {
    forall t | t in pool.sequences && t != s ensures ClosedAt(pool.(sequences := pool.sequences - {s}), t) { assert ClosedAt(pool, t); }
    var pool' := pool.(sequences := pool.sequences - {s});
    forall p | p in pool'.pages ensures pool'.pages[p].refs == |Holders(pool', p)| {
      assert Holders(pool', p) == Holders(pool, p);
    }
    SameIdsPartitioned(pool, pool');
    forall t | t in pool'.sequences ensures WellShaped(pool', t) { assert WellShaped(pool, t); }
  }
}
