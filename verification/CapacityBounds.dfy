/** Sizes that a plan or a captured graph must not outgrow: the metadata buffers of a
    plan slot, and the gather buffer of a length bucket (src/execution-workspace.ts,
    src/glm51_model.ts). */
module CapacityBounds {
  import opened Wrappers
  import opened TokenChunks
  import opened PagePool

  // ---------------------------------------------------------------------
  // Metadata buffers

  /** A slot-owned pair of device and host views. */
  datatype View = View(offset: nat, count: nat, pair: nat)

  function Total(counts: seq<nat>, n: nat): nat
    requires n <= |counts|
  {
    if n == 0 then 0 else Total(counts, n - 1) + counts[n - 1]
  }

  lemma {:induction false} TotalMono(counts: seq<nat>, m: nat, n: nat)
    requires m <= n <= |counts|
    ensures Total(counts, m) <= Total(counts, n)
  {
    if m < n { TotalMono(counts, m, n - 1); }
  }

  /** Prefixes that agree have the same total. */
  lemma {:induction false} TotalOfPrefix(counts: seq<nat>, counts': seq<nat>, n: nat)
    requires n <= |counts| && n <= |counts'| && forall i :: 0 <= i < n ==> counts[i] == counts'[i]
    ensures Total(counts, n) == Total(counts', n)
  {
    if n > 0 { TotalOfPrefix(counts, counts', n - 1); }
  }

  /** The allocations of a plan, in order; page indices come last. */
  function Counts(batchSize: nat, totalTokens: nat, usedPages: nat): (r: seq<nat>)
    ensures |r| == 11
  {
    [totalTokens, totalTokens, batchSize + 1, totalTokens, batchSize + 1, batchSize, batchSize, batchSize, batchSize + 1,
     totalTokens, usedPages]
  }

  lemma PartialCounts(batchSize: nat, totalTokens: nat, usedPages: nat)
    ensures var (c, b, t) := (Counts(batchSize, totalTokens, usedPages), batchSize, totalTokens);
            && Total(c, 0) == 0 && Total(c, 1) == t && Total(c, 2) == 2 * t
            && Total(c, 3) == 2 * t + b + 1 && Total(c, 4) == 3 * t + b + 1
            && Total(c, 5) == 3 * t + 2 * b + 2 && Total(c, 6) == 3 * t + 3 * b + 2
            && Total(c, 7) == 3 * t + 4 * b + 2 && Total(c, 8) == 3 * t + 5 * b + 2
            && Total(c, 9) == 3 * t + 6 * b + 3 && Total(c, 10) == 4 * t + 6 * b + 3
  {
    var c := Counts(batchSize, totalTokens, usedPages);
    assert Total(c, 0) == 0 && Total(c, 1) == totalTokens && Total(c, 2) == 2 * totalTokens;
    assert Total(c, 3) == 2 * totalTokens + batchSize + 1 && Total(c, 4) == 3 * totalTokens + batchSize + 1;
    assert Total(c, 5) == 3 * totalTokens + 2 * batchSize + 2 && Total(c, 6) == 3 * totalTokens + 3 * batchSize + 2;
    assert Total(c, 7) == 3 * totalTokens + 4 * batchSize + 2 && Total(c, 8) == 3 * totalTokens + 5 * batchSize + 2;
  }

  lemma TotalCounts(batchSize: nat, totalTokens: nat, usedPages: nat)
    ensures Total(Counts(batchSize, totalTokens, usedPages), 10) == 4 * totalTokens + 6 * batchSize + 3
    ensures Total(Counts(batchSize, totalTokens, usedPages), 11) == 4 * totalTokens + 6 * batchSize + 3 + usedPages
  {
    PartialCounts(batchSize, totalTokens, usedPages);
  }

  /** The capacity a workspace gives each slot. */
  function SlotCapacity(maxBatch: nat, maxSeqLen: nat, maxPages: nat): nat {
    4 * (maxBatch * maxSeqLen) + 6 * maxBatch + 3 + maxBatch * Max(maxSeqLen, maxPages)
  }

  lemma ProductBound(a: nat, b: nat, c: nat, d: nat)
    requires a <= b && c <= d
    ensures a * c <= b * d
  {
    assert (b - a) * c >= 0;
    assert b * (d - c) >= 0;
  }

  lemma {:induction false} TotalAtMost(counts: seq<nat>, n: nat, bound: nat)
    requires n <= |counts| && forall i {:trigger counts[i]} :: 0 <= i < n ==> counts[i] <= bound
    ensures Total(counts, n) <= n * bound
  {
    if n > 0 {
      TotalAtMost(counts, n - 1, bound);
      assert n * bound == (n - 1) * bound + bound;
    }
  }

  /** A plan within the batch and token limits of a workspace, for a cache of so many pages;
      a page that several sequences share may be listed once for each. */
  ghost predicate InLimits(contentPages: seq<nat>, totalTokens: nat, maxBatch: nat, maxSeqLen: nat, maxPages: nat) {
    && 1 <= |contentPages| <= maxBatch && totalTokens <= Max(maxSeqLen, maxBatch)
    && forall i {:trigger contentPages[i]} :: 0 <= i < |contentPages| ==> contentPages[i] <= maxPages
  }

  /** The metadata of a plan. */
  function Metadata(contentPages: seq<nat>, totalTokens: nat): nat {
    4 * totalTokens + 6 * |contentPages| + 3 + Total(contentPages, |contentPages|)
  }

  lemma LimitsBound(contentPages: seq<nat>, totalTokens: nat, maxBatch: nat, maxSeqLen: nat, maxPages: nat)
    requires InLimits(contentPages, totalTokens, maxBatch, maxSeqLen, maxPages)
    ensures Metadata(contentPages, totalTokens) <= 4 * Max(maxSeqLen, maxBatch) + 6 * maxBatch + 3 + maxBatch * maxPages
  {
    TotalAtMost(contentPages, |contentPages|, maxPages);
    ProductBound(|contentPages|, maxBatch, maxPages, maxPages);
  }

  function Same(x: nat, n: nat): (r: seq<nat>)
    ensures |r| == n && forall i {:trigger r[i]} :: 0 <= i < n ==> r[i] == x
  {
    seq(n, i requires 0 <= i < n => x)
  }

  lemma {:induction false} TotalOfSame(x: nat, m: nat, n: nat)
    requires n <= m
    ensures Total(Same(x, m), n) == n * x
  {
    if n > 0 {
      TotalOfSame(x, m, n - 1);
      assert n * x == (n - 1) * x + x;
    }
  }

  predicate SlotSuffices(maxBatch: nat, maxSeqLen: nat, firstPages: nat, maxPages: nat) {
    4 * Max(maxSeqLen, maxBatch) + maxBatch * maxPages <= 4 * (maxBatch * maxSeqLen) + maxBatch * Max(maxSeqLen, firstPages)
  }

  /** A slot made for a cache of `firstPages` pages holds every plan within the limits for a
      cache of `maxPages` pages exactly under this condition. */
  lemma PlansFit(maxBatch: nat, maxSeqLen: nat, firstPages: nat, maxPages: nat)
    requires maxBatch >= 1
    ensures (forall contentPages, totalTokens {:trigger Metadata(contentPages, totalTokens)} ::
               InLimits(contentPages, totalTokens, maxBatch, maxSeqLen, maxPages) ==>
                 Metadata(contentPages, totalTokens) <= SlotCapacity(maxBatch, maxSeqLen, firstPages))
            <==> SlotSuffices(maxBatch, maxSeqLen, firstPages, maxPages)
  {
    var fullest, tokens := Same(maxPages, maxBatch), Max(maxSeqLen, maxBatch);
    TotalOfSame(maxPages, maxBatch, maxBatch);
    assert InLimits(fullest, tokens, maxBatch, maxSeqLen, maxPages);
    assert Metadata(fullest, tokens) == 4 * tokens + 6 * maxBatch + 3 + maxBatch * maxPages;
    forall contentPages, totalTokens {:trigger Metadata(contentPages, totalTokens)}
      | InLimits(contentPages, totalTokens, maxBatch, maxSeqLen, maxPages)
      ensures Metadata(contentPages, totalTokens) <= Metadata(fullest, tokens)
    {
      LimitsBound(contentPages, totalTokens, maxBatch, maxSeqLen, maxPages);
    }
  }

  /** A slot holds every plan for the cache it was made for, and for smaller ones. */
  lemma FirstCacheFits(maxBatch: nat, maxSeqLen: nat, firstPages: nat, maxPages: nat)
    requires maxBatch >= 1 && maxSeqLen >= 1 && maxPages <= Max(maxSeqLen, firstPages)
    ensures SlotSuffices(maxBatch, maxSeqLen, firstPages, maxPages)
  {
    ProductBound(1, maxBatch, maxSeqLen, maxSeqLen);
    ProductBound(maxBatch, maxBatch, 1, maxSeqLen);
    ProductBound(maxBatch, maxBatch, maxPages, Max(maxSeqLen, firstPages));
  }

  /** One token of one sequence, on a slot made for a cache of one page, then used for a
      sequence of two pages. */
  lemma LargerCacheOutgrows()
    ensures InLimits([2], 1, 1, 1, 2) && Metadata([2], 1) > SlotCapacity(1, 1, 1)
  {
    assert Total([2], 1) == Total([2], 0) + 2;
  }

  function Below(n: nat): (r: set<nat>)
    ensures |r| == n && forall x: nat {:trigger x in r} :: x in r <==> x < n
  {
    if n == 0 then {} else Below(n - 1) + {n - 1}
  }

  function Members(xs: seq<nat>, n: nat): (r: set<nat>)
    requires n <= |xs|
    ensures forall x: nat {:trigger x in r} :: x in r ==> x in xs[..n]
  {
    if n == 0 then {} else Members(xs, n - 1) + {xs[n - 1]}
  }

  /** A list of distinct numbers below m has at most m elements. */
  lemma Pigeonhole(xs: seq<nat>, m: nat)
    requires NoDup(xs) && forall i :: 0 <= i < |xs| ==> xs[i] < m
    ensures |xs| <= m
  {
    CountDistinct(xs, |xs|);
    assert Members(xs, |xs|) <= Below(m) by { assert xs[..|xs|] == xs; }
    assert Below(m) == Members(xs, |xs|) + (Below(m) - Members(xs, |xs|));
  }

  lemma {:induction false} CountDistinct(xs: seq<nat>, n: nat)
    requires NoDup(xs) && n <= |xs|
    ensures |Members(xs, n)| == n
  {
    if n > 0 {
      CountDistinct(xs, n - 1);
      assert xs[n - 1] !in xs[..n - 1];
    }
  }

  /** A sequence never lists more pages than there are. */
  lemma PagesBounded<S, P>(pool: Pool<S, P>, s: S)
    requires Conserved(pool) && s in pool.sequences
    ensures |pool.sequences[s].pages| <= pool.maxPages
  {
    assert ClosedAt(pool, s);
    var pages := pool.sequences[s].pages;
    var ids := seq(|pages|, i requires 0 <= i < |pages| => pool.pages[pages[i]].id);
    forall i, j | 0 <= i < j < |ids| ensures ids[i] != ids[j] {
      HeldPageCounted(pool, s, pages[i]);
      HeldPageCounted(pool, s, pages[j]);
      assert ApartIds(pool, pages[i], pages[j]);
    }
    Pigeonhole(ids, pool.maxPages);
  }

  /** View j is where the counts put it, and has not been disposed of. */
  predicate Sits(views: seq<View>, disposed: set<nat>, counts: seq<nat>, j: nat)
    requires j < |counts|
  {
    j < |views| && views[j].offset == Total(counts, j) && views[j].count == counts[j] && views[j].pair !in disposed
  }

  /** The views of a plan but its last are where batch size and token count put them. */
  predicate Planned(views: seq<View>, disposed: set<nat>, batchSize: nat, totalTokens: nat) {
    forall j {:trigger Sits(views, disposed, Counts(batchSize, totalTokens, 0), j)} :: 0 <= j < 10 ==>
      Sits(views, disposed, Counts(batchSize, totalTokens, 0), j)
  }

  predicate Placed(view: View, offset: nat, count: nat) { view.offset == offset && view.count == count }

  /** Where each buffer of a plan starts and how long it is: input ids, positions, query
      offsets, slots, page offsets, last page lengths on the rank and in all, lengths, token
      offsets and batch indices. */
  lemma PlannedTable(views: seq<View>, disposed: set<nat>, b: nat, t: nat)
    requires Planned(views, disposed, b, t)
    ensures |views| >= 10
    ensures Placed(views[0], 0, t) && Placed(views[1], t, t) && Placed(views[2], 2 * t, b + 1) && Placed(views[3], 2 * t + b + 1, t)
    ensures Placed(views[4], 3 * t + b + 1, b + 1) && Placed(views[5], 3 * t + 2 * b + 2, b)
    ensures Placed(views[6], 3 * t + 3 * b + 2, b) && Placed(views[7], 3 * t + 4 * b + 2, b)
    ensures Placed(views[8], 3 * t + 5 * b + 2, b + 1) && Placed(views[9], 3 * t + 6 * b + 3, t)
  {
    var c := Counts(b, t, 0);
    assert Sits(views, disposed, c, 0) && Sits(views, disposed, c, 1) && Sits(views, disposed, c, 2);
    assert Sits(views, disposed, c, 3) && Sits(views, disposed, c, 4) && Sits(views, disposed, c, 5);
    assert Sits(views, disposed, c, 6) && Sits(views, disposed, c, 7) && Sits(views, disposed, c, 8) && Sits(views, disposed, c, 9);
    PartialCounts(b, t, 0);
  }

  /** Where a view sits does not depend on the page count. */
  lemma SitsAlike(views: seq<View>, disposed: set<nat>, batchSize: nat, totalTokens: nat, usedPages: nat, j: nat)
    requires j < 10
    ensures Sits(views, disposed, Counts(batchSize, totalTokens, usedPages), j)
            <==> Sits(views, disposed, Counts(batchSize, totalTokens, 0), j)
  {
    TotalOfPrefix(Counts(batchSize, totalTokens, usedPages), Counts(batchSize, totalTokens, 0), j);
  }

  class StateBuffers {
    const slot: nat
    const capacity: nat
    var views: seq<View>
    var viewIndex: nat
    var offset: nat
    var nextPair: nat
    var disposed: set<nat>

    constructor (slot: nat, capacity: nat)
      ensures Valid() && this.slot == slot && this.capacity == capacity && offset == 0 && viewIndex == 0 && views == []
    {
      this.slot, this.capacity, views, viewIndex, offset, nextPair, disposed := slot, capacity, [], 0, 0, 0, {};
    }

    ghost predicate Valid()
      reads this
    {
      && viewIndex <= |views| && offset <= capacity
      && (forall i {:trigger views[i]} :: 0 <= i < |views| ==> views[i].offset + views[i].count <= capacity && views[i].pair < nextPair)
      && (forall p {:trigger p in disposed} :: p in disposed ==> p < nextPair)
      && (forall i, j {:trigger views[i], views[j]} :: 0 <= i < j < |views| ==> views[i].pair != views[j].pair)
    }

    method Reset()
      requires Valid()
      modifies this`viewIndex, this`offset
      ensures Valid() && viewIndex == 0 && offset == 0
    {
      viewIndex, offset := 0, 0;
    }

    /** The view at this place of the order, reused when it has not changed. */
    method GetViews(offset: nat, count: nat) returns (view: Option<View>)
      requires Valid()
      modifies this`views, this`viewIndex, this`nextPair, this`disposed
      ensures Valid() && (view.None? <==> offset + count > capacity)
      ensures view.None? ==> views == old(views) && viewIndex == old(viewIndex) && disposed == old(disposed)
      ensures view.Some? ==>
                && view.value.offset == offset && view.value.count == count && view.value.pair !in disposed
                && viewIndex == old(viewIndex) + 1 && views[old(viewIndex)] == view.value
                && |views| == Max(|old(views)|, viewIndex)
                && (forall i {:trigger views[i]} :: 0 <= i < |old(views)| && i != old(viewIndex) ==> views[i] == old(views)[i])
                && (forall p {:trigger p in disposed} :: p in old(disposed) ==> p in disposed)
                && (old(viewIndex) < |old(views)| && old(views)[old(viewIndex)].offset == offset
                    && old(views)[old(viewIndex)].count == count && old(views)[old(viewIndex)].pair !in old(disposed)
                    ==> views == old(views) && disposed == old(disposed))
      ensures view.Some? ==> forall p {:trigger p in disposed} :: p in disposed && p !in old(disposed) ==>
                old(viewIndex) < |old(views)| && p == old(views)[old(viewIndex)].pair
    {
      if offset + count > capacity { return None; }
      var index := viewIndex;
      viewIndex := viewIndex + 1;
      if index < |views| {
        var existing := views[index];
        if existing.offset == offset && existing.count == count && existing.pair !in disposed { return Some(existing); }
        disposed := disposed + {existing.pair};
      }
      var fresh' := View(offset, count, nextPair);
      nextPair := nextPair + 1;
      views := if index < |views| then views[index := fresh'] else views + [fresh'];
      view := Some(fresh');
    }

    /** The next `count` elements. */
    method Alloc(count: nat) returns (view: Option<View>)
      requires Valid()
      modifies this
      ensures Valid() && (view.None? <==> old(offset) + count > capacity)
      ensures view.Some? ==> Allocated(old(views), old(viewIndex), old(disposed), old(offset), count, view.value) && offset == old(offset) + count
    {
      view := GetViews(offset, count);
      if view.Some? { offset := offset + count; }
    }

    /** The effect of one allocation at place `index`. */
    ghost predicate Allocated(before: seq<View>, index: nat, gone: set<nat>, at: nat, count: nat, view: View)
      reads this
    {
      && view.offset == at && view.count == count && view.pair !in disposed
      && viewIndex == index + 1 && index < |views| && views[index] == view && |views| == Max(|before|, index + 1)
      && (forall i {:trigger views[i]} :: 0 <= i < |before| && i < |views| && i != index ==> views[i] == before[i])
      && (index < |before| && before[index].offset == at && before[index].count == count && before[index].pair !in gone
          ==> view == before[index] && disposed == gone)
      && (forall p {:trigger p in disposed} :: p in disposed ==> p in gone || (index < |before| && p == before[index].pair))
    }

    /** What the first i allocations of a plan have done to the views of before. */
    ghost predicate Laid(counts: seq<nat>, i: nat, before: seq<View>, gone: set<nat>)
      reads this
    {
      && i <= |counts| && viewIndex == i && offset == Total(counts, i) && |views| == Max(|before|, i)
      && (forall j {:trigger Sits(views, disposed, counts, j)} :: 0 <= j < i ==> Sits(views, disposed, counts, j))
      && (forall j {:trigger views[j]} {:trigger before[j]} :: i <= j < |before| ==> views[j] == before[j])
      && (forall j {:trigger Sits(before, gone, counts, j)} :: 0 <= j < i && Sits(before, gone, counts, j) ==>
            j < |views| && views[j] == before[j])
      && (forall p {:trigger p in disposed} :: p in disposed ==> p in gone || exists j :: 0 <= j < i && j < |before| && p == before[j].pair)
    }

    method AllocNext(counts: seq<nat>, i: nat, ghost before: seq<View>, ghost gone: set<nat>) returns (ok: bool)
      requires Valid() && i < |counts| && Laid(counts, i, before, gone)
      requires forall a, b {:trigger before[a], before[b]} :: 0 <= a < b < |before| ==> before[a].pair != before[b].pair
      modifies this
      ensures Valid() && (ok <==> Total(counts, i + 1) <= capacity)
      ensures ok ==> Laid(counts, i + 1, before, gone)
    {
      ghost var now, dead := views, disposed;
      var view := Alloc(counts[i]);
      ok := view.Some?;
      if ok {
        forall j {:trigger Sits(views, disposed, counts, j)} | 0 <= j < i + 1 ensures Sits(views, disposed, counts, j) {
          if j < i { assert Sits(now, dead, counts, j) && views[j] == now[j]; }
        }
        assert i < |before| ==> now[i] == before[i];
        forall p | p in disposed && p !in gone ensures exists j :: 0 <= j < i + 1 && j < |before| && p == before[j].pair {
          if p in dead {
            var j :| 0 <= j < i && j < |before| && p == before[j].pair;
          } else {
            assert p == before[i].pair;
          }
        }
      }
    }

    /** The allocations of one plan. It succeeds iff they fit, every view is at a place
        that the counts before it fix, and a view that was there already is reused. */
    method Plan(counts: seq<nat>) returns (ok: bool)
      requires Valid()
      modifies this
      ensures Valid() && (ok <==> Total(counts, |counts|) <= capacity)
      ensures ok ==> Laid(counts, |counts|, old(views), old(disposed))
    {
      Reset();
      ghost var before, gone := views, disposed;
      var i := 0;
      while i < |counts|
        invariant 0 <= i <= |counts| && Valid() && Laid(counts, i, before, gone)
      {
        ok := AllocNext(counts, i, before, gone);
        if !ok {
          TotalMono(counts, i + 1, |counts|);
          return;
        }
        i := i + 1;
      }
      ok := true;
    }

    /** One copy uploads everything behind the input ids; the plan's views stay. */
    method Upload(inputTokens: nat) returns (view: Option<View>)
      requires Valid() && inputTokens <= offset
      modifies this`views, this`viewIndex, this`nextPair, this`disposed
      ensures Valid() && view.Some? && view.value.offset == inputTokens && view.value.count == offset - inputTokens
      ensures forall batchSize, totalTokens {:trigger Planned(views, disposed, batchSize, totalTokens)} ::
                old(viewIndex) >= 10 && Planned(old(views), old(disposed), batchSize, totalTokens) ==>
                Planned(views, disposed, batchSize, totalTokens) && |views| >= 10 && views[..10] == old(views)[..10]
    {
      ghost var before, gone, index := views, disposed, viewIndex;
      view := GetViews(inputTokens, offset - inputTokens);
      forall batchSize, totalTokens {:trigger Planned(views, disposed, batchSize, totalTokens)}
        | index >= 10 && Planned(before, gone, batchSize, totalTokens)
        ensures Planned(views, disposed, batchSize, totalTokens) && |views| >= 10 && views[..10] == before[..10]
      {
        StillPlanned(before, gone, index, batchSize, totalTokens);
      }
    }

    lemma StillPlanned(before: seq<View>, gone: set<nat>, index: nat, batchSize: nat, totalTokens: nat)
      requires index >= 10 && Planned(before, gone, batchSize, totalTokens) && |views| >= |before|
      requires forall i {:trigger views[i]} :: 0 <= i < |before| && i != index ==> views[i] == before[i]
      requires forall i, j {:trigger before[i], before[j]} :: 0 <= i < j < |before| ==> before[i].pair != before[j].pair
      requires forall p {:trigger p in disposed} :: p in disposed && p !in gone ==> index < |before| && p == before[index].pair
      ensures Planned(views, disposed, batchSize, totalTokens) && |views| >= |before| >= 10 && views[..10] == before[..10]
    {
      var counts := Counts(batchSize, totalTokens, 0);
      assert Sits(before, gone, counts, 9);
      forall j {:trigger Sits(views, disposed, counts, j)} | 0 <= j < 10 ensures Sits(views, disposed, counts, j) {
        assert Sits(before, gone, counts, j) && views[j] == before[j];
      }
    }

    /** A plan's views but the last do not depend on the page count, and planning again
        for the same batch size and token count gives the same views, whatever the
        number of pages in use. */
    method PlanBatch(batchSize: nat, totalTokens: nat, usedPages: nat) returns (ok: bool)
      requires Valid()
      modifies this
      ensures Valid() && (ok <==> 4 * totalTokens + 6 * batchSize + 3 + usedPages <= capacity)
      ensures ok ==> viewIndex == 11 && |views| >= 11 && Planned(views, disposed, batchSize, totalTokens)
      ensures ok ==> Placed(views[10], 4 * totalTokens + 6 * batchSize + 3, usedPages)
      ensures ok && Planned(old(views), old(disposed), batchSize, totalTokens) ==> |old(views)| >= 10 && views[..10] == old(views)[..10]
    {
      ghost var before, gone := views, disposed;
      var counts := Counts(batchSize, totalTokens, usedPages);
      TotalCounts(batchSize, totalTokens, usedPages);
      ok := Plan(counts);
      if ok {
        forall j | 0 <= j < 10 ensures Sits(views, disposed, Counts(batchSize, totalTokens, 0), j) {
          assert Sits(views, disposed, counts, j);
          SitsAlike(views, disposed, batchSize, totalTokens, usedPages, j);
        }
        assert Sits(views, disposed, Counts(batchSize, totalTokens, 0), 9) && Sits(views, disposed, counts, 10);
        SameViews(batchSize, totalTokens, usedPages, before, gone);
      }
    }

    lemma SameViews(batchSize: nat, totalTokens: nat, usedPages: nat, before: seq<View>, gone: set<nat>)
      requires Laid(Counts(batchSize, totalTokens, usedPages), 11, before, gone) && |views| >= 10
      ensures Planned(before, gone, batchSize, totalTokens) ==> |before| >= 10 && views[..10] == before[..10]
    {
      if Planned(before, gone, batchSize, totalTokens) {
        var counts, fixed := Counts(batchSize, totalTokens, usedPages), Counts(batchSize, totalTokens, 0);
        assert Sits(before, gone, fixed, 9);
        forall j | 0 <= j < 10 ensures views[j] == before[j] {
          assert Sits(before, gone, fixed, j);
          SitsAlike(before, gone, batchSize, totalTokens, usedPages, j);
          assert Sits(before, gone, counts, j);
        }
      }
    }
  }

  // ---------------------------------------------------------------------
  // Slots

  /** A workspace keeps the buffers of each slot, with the capacity that the first cache
      planned on the slot asked for. */
  class Workspace {
    const maxBatch: nat
    const maxSeqLen: nat
    var stateBuffers: map<nat, StateBuffers>
    ghost var firstPages: map<nat, nat>   // per slot, the pages of the first cache

    constructor (maxBatch: nat, maxSeqLen: nat)
      ensures Valid() && this.maxBatch == maxBatch && this.maxSeqLen == maxSeqLen && firstPages == map[]
    {
      this.maxBatch, this.maxSeqLen, stateBuffers, firstPages := maxBatch, maxSeqLen, map[], map[];
    }

    ghost predicate Valid()
      reads this, stateBuffers.Values
    {
      && firstPages.Keys == stateBuffers.Keys
      && (forall slot {:trigger stateBuffers[slot]} :: slot in stateBuffers ==>
            && stateBuffers[slot].Valid() && stateBuffers[slot].slot == slot
            && stateBuffers[slot].capacity == SlotCapacity(maxBatch, maxSeqLen, firstPages[slot]))
    }

    /** The slots' first caches once this one is planned on the slot. */
    ghost function Claimed(slot: nat, maxPages: nat): map<nat, nat>
      reads this
    {
      if slot in firstPages then firstPages else firstPages[slot := maxPages]
    }

    /** `stateBuffers[slot] ??= new StateBuffers(...)` */
    method EnsureSlot(slot: nat, maxPages: nat)
      requires Valid()
      modifies this
      ensures Valid() && slot in stateBuffers && firstPages == old(Claimed(slot, maxPages))
      ensures slot in old(stateBuffers) ==> stateBuffers == old(stateBuffers)
      ensures slot !in old(stateBuffers) ==> fresh(stateBuffers[slot]) && stateBuffers == old(stateBuffers)[slot := stateBuffers[slot]]
    {
      if slot !in stateBuffers {
        var capacity := 4 * (maxBatch * maxSeqLen) + 6 * maxBatch + 3 + maxBatch * Max(maxSeqLen, maxPages);
        var created := new StateBuffers(slot, capacity);
        Adopt(slot, maxPages, created);
      }
    }

    /** The buffers of a slot are emptied, whichever cache they were made for. */
    method GetStateBuffers(slot: nat, maxPages: nat) returns (buffers: StateBuffers)
      requires Valid()
      modifies this, stateBuffers.Values
      ensures Valid() && slot in stateBuffers && stateBuffers[slot] == buffers && buffers.viewIndex == 0 && buffers.offset == 0
      ensures firstPages == old(Claimed(slot, maxPages))
      ensures buffers in old(stateBuffers.Values) || fresh(buffers)
    {
      EnsureSlot(slot, maxPages);
      buffers := stateBuffers[slot];
      if slot in old(stateBuffers) { assert old(stateBuffers)[slot] in old(stateBuffers.Values); }
      buffers.Reset();
    }

    method Adopt(slot: nat, ghost maxPages: nat, created: StateBuffers)
      requires Valid() && slot !in stateBuffers && created.slot == slot
      requires created.Valid() && created.capacity == SlotCapacity(maxBatch, maxSeqLen, maxPages)
      modifies this
      ensures Valid() && stateBuffers == old(stateBuffers)[slot := created] && firstPages == old(firstPages)[slot := maxPages]
    {
      stateBuffers, firstPages := stateBuffers[slot := created], firstPages[slot := maxPages];
    }

    /** The allocations of a plan for the current cache. They succeed iff its metadata fit
        what the slot's first cache asked for; within the limits they do so whenever that
        condition holds for the page counts of the two caches, and always for the first
        cache itself. */
    method PlanOn(slot: nat, maxPages: nat, contentPages: seq<nat>, totalTokens: nat) returns (ok: bool)
      requires Valid()
      modifies this, stateBuffers.Values
      ensures Valid() && slot in firstPages && firstPages == old(Claimed(slot, maxPages))
      ensures ok <==> Metadata(contentPages, totalTokens) <= SlotCapacity(maxBatch, maxSeqLen, firstPages[slot])
      ensures ok || !InLimits(contentPages, totalTokens, maxBatch, maxSeqLen, maxPages)
                 || !SlotSuffices(maxBatch, maxSeqLen, firstPages[slot], maxPages)
      ensures maxSeqLen >= 1 && maxPages <= firstPages[slot] ==>
                ok || !InLimits(contentPages, totalTokens, maxBatch, maxSeqLen, maxPages)
    {
      var buffers := GetStateBuffers(slot, maxPages);
      var usedPages := SumPages(contentPages);
      if InLimits(contentPages, totalTokens, maxBatch, maxSeqLen, maxPages) {
        LimitsSuffice(contentPages, totalTokens, firstPages[slot], maxPages);
      }
      ok := Fill(slot, buffers, |contentPages|, totalTokens, usedPages);
    }

    /** The allocations disturb no other slot. */
    method Fill(slot: nat, buffers: StateBuffers, batchSize: nat, totalTokens: nat, usedPages: nat) returns (ok: bool)
      requires Valid() && slot in stateBuffers && stateBuffers[slot] == buffers
      modifies buffers
      ensures Valid()
      ensures ok <==> 4 * totalTokens + 6 * batchSize + 3 + usedPages <= SlotCapacity(maxBatch, maxSeqLen, firstPages[slot])
    {
      ok := buffers.PlanBatch(batchSize, totalTokens, usedPages);
      assert forall other {:trigger stateBuffers[other]} :: other in stateBuffers && other != slot ==> stateBuffers[other] != buffers;
    }

    lemma LimitsSuffice(contentPages: seq<nat>, totalTokens: nat, pages: nat, maxPages: nat)
      requires InLimits(contentPages, totalTokens, maxBatch, maxSeqLen, maxPages)
      ensures SlotSuffices(maxBatch, maxSeqLen, pages, maxPages) ==>
                Metadata(contentPages, totalTokens) <= SlotCapacity(maxBatch, maxSeqLen, pages)
      ensures maxSeqLen >= 1 && maxPages <= pages ==> SlotSuffices(maxBatch, maxSeqLen, pages, maxPages)
    {
      PlansFit(maxBatch, maxSeqLen, pages, maxPages);
      if maxSeqLen >= 1 && maxPages <= pages { FirstCacheFits(maxBatch, maxSeqLen, pages, maxPages); }
    }
  }

  method SumPages(contentPages: seq<nat>) returns (usedPages: nat)
    ensures usedPages == Total(contentPages, |contentPages|)
  {
    usedPages := 0;
    var b := 0;
    while b < |contentPages|
      invariant 0 <= b <= |contentPages| && usedPages == Total(contentPages, b)
    {
      usedPages := usedPages + contentPages[b];
      b := b + 1;
    }
  }

  // ---------------------------------------------------------------------
  // Length buckets

  const PADDED_MINIMUM: nat := 1024
  const LARGEST_BUCKET: nat := 0x4000_0000

  function Pow2(k: nat): (r: nat)
    ensures r >= 1
  {
    if k == 0 then 1 else 2 * Pow2(k - 1)
  }

  lemma {:induction false} Pow2Mono(j: nat, k: nat)
    requires j <= k
    ensures Pow2(j) <= Pow2(k) && (j < k ==> 2 * Pow2(j) <= Pow2(k))
  {
    if j < k { Pow2Mono(j, k - 1); }
  }

  lemma Pow2Values()
    ensures Pow2(9) == 512 && Pow2(10) == 1024 && Pow2(30) == LARGEST_BUCKET
  {
    assert Pow2(5) == 32;
    assert Pow2(10) == 1024;
    assert Pow2(15) == 32768;
    assert Pow2(20) == 1048576;
    assert Pow2(25) == 33554432;
  }

  /** The least exponent whose power reaches n; zero for n = 0, whose logarithm the
      shift reads as zero. */
  function CeilLog2(n: nat): (k: nat)
    ensures n <= Pow2(k) && (k > 0 ==> Pow2(k - 1) < n)
  {
    if n <= 1 then 0 else
      var k := CeilLog2((n + 1) / 2);
      k + 1
  }

  /** `1 << k` on 32-bit integers: the count is taken modulo 32, and bit 31 is the sign. */
  function ShiftedOne(k: nat): int {
    if k % 32 == 31 then -(Pow2(31) as int) else Pow2(k % 32)
  }

  function PaddedKvLen(totalKvLen: nat): nat {
    var shifted := ShiftedOne(CeilLog2(totalKvLen));
    if shifted <= PADDED_MINIMUM then PADDED_MINIMUM else shifted
  }

  /** The bucket covers the length iff the length is at most 2^30: beyond, the shift wraps. */
  lemma BucketCovers(totalKvLen: nat)
    ensures PaddedKvLen(totalKvLen) >= totalKvLen <==> totalKvLen <= LARGEST_BUCKET
    ensures 512 < totalKvLen <= LARGEST_BUCKET ==> PaddedKvLen(totalKvLen) < 2 * totalKvLen
  {
    var k := CeilLog2(totalKvLen);
    ExponentFits(totalKvLen, k);
    if k <= 30 {
      ShiftFits(k);
      if k > 0 { assert Pow2(k) == 2 * Pow2(k - 1); }
    } else {
      ShiftWraps(k);
    }
  }

  lemma ExponentFits(n: nat, k: nat)
    requires k == CeilLog2(n)
    ensures n <= LARGEST_BUCKET <==> k <= 30
  {
    Pow2Values();
    if k <= 30 { Pow2Mono(k, 30); } else { Pow2Mono(30, k - 1); }
  }

  /** Up to exponent 30 the bucket is the power itself, from 1024 on. */
  lemma ShiftFits(k: nat)
    requires k <= 30
    ensures ShiftedOne(k) == Pow2(k) && (k <= 10 <==> Pow2(k) <= PADDED_MINIMUM)
  {
    Pow2Values();
    if k <= 10 { Pow2Mono(k, 10); } else { Pow2Mono(10, k); }
    SmallRest(k, 32);
  }

  lemma SmallRest(k: nat, n: nat)
    requires k < n
    ensures k % n == k
  {}

  /** Beyond, it never exceeds 2^30. */
  lemma ShiftWraps(k: nat)
    ensures ShiftedOne(k) <= LARGEST_BUCKET
  {
    Pow2Values();
    if k % 32 != 31 { Pow2Mono(k % 32, 30); }
  }

  lemma {:induction false} Pow2Injective(j: nat, k: nat)
    ensures Pow2(j) == Pow2(k) <==> j == k
  {
    if j < k { Pow2Mono(j, k); }
    if k < j { Pow2Mono(k, j); }
  }

  /** A capture serves exactly the lengths its own would reach: two lengths the shift can
      represent share a bucket iff neither exceeds 1024, or both round up to the same
      power of two. */
  lemma SameBucket(m: nat, n: nat)
    requires m <= LARGEST_BUCKET && n <= LARGEST_BUCKET
    ensures PaddedKvLen(m) == PaddedKvLen(n) <==> CeilLog2(m) == CeilLog2(n) || (m <= PADDED_MINIMUM && n <= PADDED_MINIMUM)
  {
    var j, k := CeilLog2(m), CeilLog2(n);
    ExponentFits(m, j);
    ExponentFits(n, k);
    ShiftFits(j);
    ShiftFits(k);
    Pow2Injective(j, k);
    SmallExponent(m, j);
    SmallExponent(n, k);
  }

  lemma SmallExponent(n: nat, k: nat)
    requires k == CeilLog2(n)
    ensures n <= PADDED_MINIMUM <==> k <= 10
  {
    Pow2Values();
    if k <= 10 { Pow2Mono(k, 10); } else { Pow2Mono(10, k - 1); }
  }

  // ---------------------------------------------------------------------
  // Gather buffers

  /** n in whole units. */
  function RoundUp(n: nat, unit: nat): (r: nat)
    requires unit >= 1
    ensures n <= r < n + unit
  {
    if n == 0 then 0 else if n <= unit then unit else unit + RoundUp(n - unit, unit)
  }

  /** The source's form of it. */
  lemma {:induction false} RoundUpIsCeiling(n: nat, unit: nat)
    requires unit >= 1
    ensures RoundUp(n, unit) == (n + unit - 1) / unit * unit
  {
    if n > unit {
      RoundUpIsCeiling(n - unit, unit);
      QuotientStep(n + unit - 1, unit);
    } else if n > 0 {
      QuotientStep(n + unit - 1, unit);
      SmallQuotient(n - 1, unit);
    } else {
      SmallQuotient(unit - 1, unit);
    }
  }

  lemma SmallQuotient(n: nat, unit: nat)
    requires n < unit
    ensures n / unit == 0
  {}

  /** Rounding changes nothing iff the unit divides n. */
  lemma {:induction false} RoundUpFixes(n: nat, unit: nat)
    requires unit >= 1
    ensures RoundUp(n, unit) == n <==> n % unit == 0
  {
    if n > unit {
      RoundUpFixes(n - unit, unit);
      QuotientStep(n, unit);
    }
  }

  lemma {:induction false} RoundUpMono(m: nat, n: nat, unit: nat)
    requires unit >= 1 && m <= n
    ensures RoundUp(m, unit) <= RoundUp(n, unit)
  {
    if m > unit { RoundUpMono(m - unit, n - unit, unit); }
  }

  /** Context-parallel ownership restarts with each sequence, so each is rounded alone. */
  function Demand(lens: seq<nat>, worldSize: nat, n: nat): nat
    requires worldSize >= 1 && n <= |lens|
  {
    if n == 0 then 0 else Demand(lens, worldSize, n - 1) + RoundUp(lens[n - 1], worldSize)
  }

  lemma {:induction false} DemandBounds(lens: seq<nat>, worldSize: nat, n: nat)
    requires worldSize >= 1 && n <= |lens|
    ensures Total(lens, n) <= Demand(lens, worldSize, n) <= Total(lens, n) + n * (worldSize - 1)
  {
    if n > 0 {
      DemandBounds(lens, worldSize, n - 1);
      assert n * (worldSize - 1) == (n - 1) * (worldSize - 1) + (worldSize - 1);
    }
  }

  lemma {:induction false} DemandAtMost(lens: seq<nat>, worldSize: nat, n: nat, bound: nat)
    requires worldSize >= 1 && n <= |lens|
    requires forall i {:trigger lens[i]} :: 0 <= i < n ==> lens[i] <= bound
    requires RoundUp(bound, worldSize) == bound
    ensures Demand(lens, worldSize, n) <= n * bound
  {
    if n > 0 {
      DemandAtMost(lens, worldSize, n - 1, bound);
      RoundUpMono(lens[n - 1], bound, worldSize);
      assert n * bound == (n - 1) * bound + bound;
    }
  }

  /** Rows gathered outside capture: what the lengths need, in whole pages. */
  function EagerSize(lens: seq<nat>, worldSize: nat, pageSize: nat, maxPages: nat): nat
    requires worldSize >= 1 && pageSize >= 1
  {
    Min(|lens| * (maxPages * pageSize), RoundUp(Demand(lens, worldSize, |lens|), pageSize))
  }

  /** Rows gathered under capture: a function of the bucket and the batch size alone. */
  function CapturedSize(paddedKvLen: nat, batchSize: nat, worldSize: nat, pageSize: nat, maxPages: nat): nat
    requires worldSize >= 1 && pageSize >= 1
  {
    Min(batchSize * (maxPages * pageSize), RoundUp(paddedKvLen + batchSize * (worldSize - 1), pageSize))
  }

  /** A bucket that reaches the lengths is large enough for what they need. */
  lemma BucketSuffices(lens: seq<nat>, paddedKvLen: nat, worldSize: nat, pageSize: nat, maxPages: nat)
    requires worldSize >= 1 && pageSize >= 1 && paddedKvLen >= Total(lens, |lens|)
    ensures CapturedSize(paddedKvLen, |lens|, worldSize, pageSize, maxPages) >= EagerSize(lens, worldSize, pageSize, maxPages)
  {
    DemandBounds(lens, worldSize, |lens|);
    RoundUpMono(Demand(lens, worldSize, |lens|), paddedKvLen + |lens| * (worldSize - 1), pageSize);
  }

  /** A captured gather is large enough for every length vector of its bucket. */
  lemma CapturedCoversBucket(captured: seq<nat>, lens: seq<nat>, worldSize: nat, pageSize: nat, maxPages: nat)
    requires worldSize >= 1 && pageSize >= 1 && |lens| == |captured|
    requires Total(lens, |lens|) <= LARGEST_BUCKET
    requires PaddedKvLen(Total(captured, |captured|)) == PaddedKvLen(Total(lens, |lens|))
    ensures CapturedSize(PaddedKvLen(Total(captured, |captured|)), |captured|, worldSize, pageSize, maxPages)
            >= EagerSize(lens, worldSize, pageSize, maxPages)
  {
    BucketCovers(Total(lens, |lens|));
    BucketSuffices(lens, PaddedKvLen(Total(captured, |captured|)), worldSize, pageSize, maxPages);
  }

  ghost predicate LensWithin(lens: seq<nat>, batchSize: nat, bound: nat) {
    |lens| == batchSize && forall i {:trigger lens[i]} :: 0 <= i < batchSize ==> lens[i] <= bound
  }

  /** The cap at the cache's size never cuts off a row that is needed iff the world size
      divides the positions one sequence can have. */
  lemma GatherCovers(batchSize: nat, worldSize: nat, pageSize: nat, maxPages: nat)
    requires worldSize >= 1 && pageSize >= 1 && batchSize >= 1
    ensures (forall lens {:trigger LensWithin(lens, batchSize, maxPages * pageSize)} :: LensWithin(lens, batchSize, maxPages * pageSize) ==>
               EagerSize(lens, worldSize, pageSize, maxPages) >= Demand(lens, worldSize, |lens|))
            <==> (maxPages * pageSize) % worldSize == 0
  {
    var bound := maxPages * pageSize;
    RoundUpFixes(bound, worldSize);
    if bound % worldSize == 0 {
      forall lens | LensWithin(lens, batchSize, bound)
        ensures EagerSize(lens, worldSize, pageSize, maxPages) >= Demand(lens, worldSize, |lens|)
      {
        DemandAtMost(lens, worldSize, |lens|, bound);
      }
    } else {
      var full := seq(batchSize, _ => bound);
      assert LensWithin(full, batchSize, bound);
      DemandOfFull(full, worldSize, bound, batchSize);
    }
  }

  lemma {:induction false} DemandOfFull(lens: seq<nat>, worldSize: nat, bound: nat, n: nat)
    requires worldSize >= 1 && n <= |lens| && RoundUp(bound, worldSize) != bound
    requires forall i {:trigger lens[i]} :: 0 <= i < n ==> lens[i] == bound
    ensures Demand(lens, worldSize, n) >= n * bound + n
  {
    if n > 0 {
      DemandOfFull(lens, worldSize, bound, n - 1);
      assert n * bound == (n - 1) * bound + bound;
    }
  }

  /** A cache whose page is a multiple of the world size, as the context-parallel cache
      makes it, always passes: the captured gather holds every row its bucket can need. */
  lemma CapturedGatherSuffices(captured: seq<nat>, lens: seq<nat>, worldSize: nat, physicalPage: nat, maxPages: nat)
    requires worldSize >= 1 && physicalPage >= 1 && |lens| == |captured| >= 1
    requires LensWithin(lens, |lens|, maxPages * (physicalPage * worldSize)) && Total(lens, |lens|) <= LARGEST_BUCKET
    requires PaddedKvLen(Total(captured, |captured|)) == PaddedKvLen(Total(lens, |lens|))
    requires physicalPage * worldSize >= 1
    ensures CapturedSize(PaddedKvLen(Total(captured, |captured|)), |captured|, worldSize, physicalPage * worldSize, maxPages)
            >= Demand(lens, worldSize, |lens|)
  {
    var pageSize := physicalPage * worldSize;
    MultipleHasNoRest(maxPages, physicalPage, worldSize);
    GatherCovers(|lens|, worldSize, pageSize, maxPages);
    CapturedCoversBucket(captured, lens, worldSize, pageSize, maxPages);
  }

  lemma MultipleHasNoRest(a: nat, b: nat, unit: nat)
    requires unit >= 1
    ensures (a * (b * unit)) % unit == 0
  {
    assert a * (b * unit) == (a * b) * unit;
    ProductHasNoRest(a * b, unit);
  }

  lemma ProductHasNoRest(q: nat, unit: nat)
    requires unit >= 1
    ensures (q * unit) % unit == 0
  {
    QuotientUnique(q * unit, unit, q, 0);
  }
}
