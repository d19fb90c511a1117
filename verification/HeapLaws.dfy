/** Laws of the device heap over several operations: exact undo, order of
    drains, and reproduction of a layout at another base address. */
module HeapLaws {
  import opened Wrappers
  import opened DeviceHeap

  // ---------------------------------------------------------------------
  // Determinism: the byte-level specification leaves one possible outcome

  lemma FreeUpTo(rs: seq<Region>, ptr: int, length: int, end: int)
    requires RangeFree(rs, ptr, length) && !Free(rs, end) && ptr <= end
    ensures ptr + length <= end
  {
  }

  lemma BestFitUnique(rs: seq<Region>, size: int, longTerm: bool, ptr: int, length: int, ptr': int, length': int)
    requires Canonical(rs) && ValidSize(size)
    requires BestFit(rs, size, longTerm, ptr, length) && BestFit(rs, size, longTerm, ptr', length')
    ensures ptr == ptr' && length == length'
  {
    assert ptr == ptr';
    if !Free(rs, ptr + length) { FreeUpTo(rs, ptr, length', ptr + length); }
    if !Free(rs, ptr + length') { FreeUpTo(rs, ptr, length, ptr + length'); }
  }

  lemma AllocDeterministic(h: HeapState, size: int, longTerm: bool, x: HeapState, outX: Outcome, y: HeapState, outY: Outcome)
    requires WellFormed(h)
    requires AllocStep(h, size, longTerm, x, outX) && AllocStep(h, size, longTerm, y, outY)
    ensures x == y && outX == outY
  {
    if ValidSize(size) && exists p :: Fits(h.regions, size, p) {
      BestFitUnique(h.regions, size, longTerm, outX.ptr, outX.length, outY.ptr, outY.length);
      CanonicalUnique(x.regions, y.regions);
    }
  }

  lemma ManageDeterministic(h: HeapState, ptr: int, length: int, x: HeapState, outX: Outcome, y: HeapState, outY: Outcome)
    requires ManageStep(h, ptr, length, x, outX) && ManageStep(h, ptr, length, y, outY)
    ensures x == y && outX == outY
  {
    if outX == Done { CanonicalUnique(x.regions, y.regions); }
  }

  lemma ClaimDeterministic(h: HeapState, ptr: int, length: int, x: HeapState, outX: Outcome, y: HeapState, outY: Outcome)
    requires ClaimStep(h, ptr, length, x, outX) && ClaimStep(h, ptr, length, y, outY)
    ensures x == y && outX == outY
  {
    if outX.Allocated? { CanonicalUnique(x.regions, y.regions); }
  }

  lemma DrainDeterministic(s: HeapState, d: HeapState, s': HeapState, d': HeapState, out': Outcome,
                           s'': HeapState, d'': HeapState, out'': Outcome)
    requires DrainStep(s, d, s', d', out') && DrainStep(s, d, s'', d'', out'')
    ensures s' == s'' && d' == d'' && out' == out''
  {
    if out' == Done { CanonicalUnique(d'.regions, d''.regions); }
  }

  // ---------------------------------------------------------------------
  // Undo and failure

  /** Returning exactly what an allocation or a claim handed out restores the
      identical region list, and the manage step cannot fail. */
  lemma ManageUndoesTake(h: HeapState, taken: HeapState, ptr: int, length: int, back: HeapState, out: Outcome)
    requires WellFormed(h)
    requires (exists size, longTerm :: AllocStep(h, size, longTerm, taken, Allocated(ptr, length)))
          || ClaimStep(h, ptr, length, taken, Allocated(ptr, length))
    requires ManageStep(taken, ptr, length, back, out)
    ensures out == Done && back == taken.(regions := h.regions)
  {
    assert length > 0 && RangeFree(h.regions, ptr, length);
    var i := FreeRangeHasRegion(h.regions, ptr, length);
    assert ValidRegion(ptr, length);
    CanonicalUnique(back.regions, h.regions);
  }

  /** Short-term and long-term allocation fail on the same requests: those with
      no aligned free range anywhere. */
  lemma EndsOfTheHeapAgree(h: HeapState, size: int, low: HeapState, outLow: Outcome, high: HeapState, outHigh: Outcome)
    requires WellFormed(h)
    requires AllocStep(h, size, false, low, outLow) && AllocStep(h, size, true, high, outHigh)
    ensures outLow.Allocated? <==> outHigh.Allocated?
    ensures outLow.Allocated? <==> ValidSize(size) && exists p :: Fits(h.regions, size, p)
    ensures outLow.Allocated? ==> outLow.ptr <= outHigh.ptr
  {
  }

  /** A short-term allocation is as long as the least multiple of the alignment that holds the
      request, or ends with the free run; a long-term one always ends with it. */
  lemma LengthIsRounded(h: HeapState, size: int, longTerm: bool, h': HeapState, out: Outcome, n: int)
    requires AllocStep(h, size, longTerm, h', out) && out.Allocated?
    requires size <= n < size + ALIGNMENT && n % ALIGNMENT == 0
    ensures !longTerm ==> out.length <= n && (out.length < n ==> !Free(h.regions, out.ptr + out.length))
    ensures longTerm ==> !Free(h.regions, out.ptr + out.length)
    ensures RangeFree(h.regions, out.ptr, out.length)
  {
    var k, m := (size + ALIGNMENT - 1) / ALIGNMENT, n / ALIGNMENT;
    assert n == ALIGNMENT * m && RoundUp(size) == ALIGNMENT * k;
    assert k == m;
  }

  // ---------------------------------------------------------------------
  // Order of drains

  ghost predicate AllWellFormed(hs: seq<HeapState>) {
    forall i {:trigger hs[i]} :: 0 <= i < |hs| ==> WellFormed(hs[i])
  }

  /** The sources are drained one after another; dests are the destination's states. */
  ghost predicate Drains(sources: seq<HeapState>, afters: seq<HeapState>, dests: seq<HeapState>, outs: seq<Outcome>) {
    && |afters| == |outs| == |sources| && |dests| == |sources| + 1
    && forall k {:trigger outs[k]} :: 0 <= k < |sources| ==> DrainStep(sources[k], dests[k], afters[k], dests[k + 1], outs[k])
  }

  ghost predicate AllDone(outs: seq<Outcome>, n: nat)
    requires n <= |outs|
  {
    forall k {:trigger outs[k]} :: 0 <= k < n ==> outs[k] == Done
  }

  /** No byte is free in two of the first n sources, or in one of them and the destination. */
  ghost predicate Apart(sources: seq<HeapState>, d: HeapState, n: nat)
    requires n <= |sources|
  {
    && (forall i {:trigger sources[i]} :: 0 <= i < n ==> !Collide(sources[i].regions, d.regions))
    && (forall i, j {:trigger sources[i], sources[j]} :: 0 <= i < j < n ==> !Collide(sources[i].regions, sources[j].regions))
  }

  /** A byte of one of the first n sources. */
  ghost predicate FreeIn(sources: seq<HeapState>, n: nat, x: int)
    requires n <= |sources|
  {
    exists i :: 0 <= i < n && Free(sources[i].regions, x)
  }

  /** The first source that brings regions, or their number. */
  function First(sources: seq<HeapState>, n: nat): (i: nat)
    requires n <= |sources|
    ensures i <= n && (i < n ==> sources[i].regions != [])
    ensures forall j {:trigger sources[j]} :: 0 <= j < i ==> sources[j].regions == []
  {
    if n == 0 then 0
    else
      var i := First(sources, n - 1);
      if i < n - 1 then i else if sources[n - 1].regions != [] then n - 1 else n
  }

  /** The destination after the first n sources: their bytes and its own, and a layout base
      taken, if there was none, from the first source that brings regions. */
  ghost predicate Drained(sources: seq<HeapState>, d: HeapState, n: nat, d': HeapState)
    requires n <= |sources|
  {
    && WellFormed(d')
    && (forall x {:trigger Free(d'.regions, x)} :: Free(d'.regions, x) <==> Free(d.regions, x) || FreeIn(sources, n, x))
    && var i := First(sources, n);
       var base := if i < n then Some(sources[i].regions[0].ptr) else None;
       d' == d.(regions := d'.regions,
                layoutBase := if d.layoutBase.Some? then d.layoutBase else base,
                layoutEnd := if d.layoutBase.Some? then d.layoutEnd else base)
  }

  lemma FreeInNext(sources: seq<HeapState>, n: nat, x: int)
    requires n < |sources|
    ensures FreeIn(sources, n + 1, x) <==> FreeIn(sources, n, x) || Free(sources[n].regions, x)
  {
    if FreeIn(sources, n + 1, x) && !Free(sources[n].regions, x) {
      var i :| 0 <= i < n + 1 && Free(sources[i].regions, x);
      assert i < n;
    }
  }

  /** The next source is taken iff it shares no byte with those before and the destination. */
  lemma NextTaken(sources: seq<HeapState>, d: HeapState, n: nat, now: HeapState)
    requires n < |sources| && Drained(sources, d, n, now) && Apart(sources, d, n)
    ensures Collide(sources[n].regions, now.regions) <==> !Apart(sources, d, n + 1)
  {
    if Collide(sources[n].regions, now.regions) {
      var x :| Free(sources[n].regions, x) && Free(now.regions, x);
      if !Free(d.regions, x) {
        var i :| 0 <= i < n && Free(sources[i].regions, x);
        assert Collide(sources[i].regions, sources[n].regions);
      }
    }
    if !Apart(sources, d, n + 1) {
      if Collide(sources[n].regions, d.regions) {
        var x :| Free(sources[n].regions, x) && Free(d.regions, x);
        assert Free(now.regions, x);
      } else {
        var i, j :| 0 <= i < j < n + 1 && Collide(sources[i].regions, sources[j].regions);
        assert j == n;
        var x :| Free(sources[i].regions, x) && Free(sources[n].regions, x);
        assert FreeIn(sources, n, x);
        assert Free(now.regions, x);
      }
    }
  }

  lemma DrainedNext(sources: seq<HeapState>, d: HeapState, n: nat, now: HeapState, after: HeapState, next: HeapState)
    requires n < |sources| && Drained(sources, d, n, now) && WellFormed(d) && WellFormed(sources[n])
    requires DrainStep(sources[n], now, after, next, Done)
    ensures Drained(sources, d, n + 1, next)
  {
    forall x {:trigger Free(next.regions, x)} ensures Free(next.regions, x) <==> Free(d.regions, x) || FreeIn(sources, n + 1, x) {
      FreeInNext(sources, n, x);
      assert Free(now.regions, x) <==> Free(d.regions, x) || FreeIn(sources, n, x);
    }
    if now.layoutBase.None? {
      assert now.regions == [];
      assert forall x :: !Free(now.regions, x);
      CanonicalUnique(next.regions, sources[n].regions);
    }
  }

  lemma {:induction false} DrainedUpTo(sources: seq<HeapState>, afters: seq<HeapState>, dests: seq<HeapState>, outs: seq<Outcome>, n: nat)
    requires Drains(sources, afters, dests, outs) && AllWellFormed(sources) && WellFormed(dests[0]) && n <= |sources|
    ensures AllDone(outs, n) <==> Apart(sources, dests[0], n)
    ensures AllDone(outs, n) ==> Drained(sources, dests[0], n, dests[n])
  {
    if n > 0 {
      DrainedUpTo(sources, afters, dests, outs, n - 1);
      assert WellFormed(sources[n - 1]);
      if AllDone(outs, n - 1) {
        assert outs[n - 1] == outs[n - 1];
        NextTaken(sources, dests[0], n - 1, dests[n - 1]);
        if outs[n - 1] == Done { DrainedNext(sources, dests[0], n - 1, dests[n - 1], afters[n - 1], dests[n]); }
      }
    }
  }

  /** The same sources in another order: others[i] is sources[perm[i]]. */
  ghost predicate Reordered(sources: seq<HeapState>, others: seq<HeapState>, perm: seq<nat>, back: seq<nat>) {
    && |sources| == |others| == |perm| == |back|
    && (forall i {:trigger perm[i]} {:trigger others[i]} :: 0 <= i < |perm| ==>
          perm[i] < |back| && back[perm[i]] == i && others[i] == sources[perm[i]])
    && (forall i {:trigger back[i]} {:trigger sources[i]} :: 0 <= i < |back| ==>
          back[i] < |perm| && perm[back[i]] == i && sources[i] == others[back[i]])
  }

  lemma CollideSymmetric(xs: seq<Region>, ys: seq<Region>)
    ensures Collide(xs, ys) <==> Collide(ys, xs)
  {
  }

  lemma ApartReordered(sources: seq<HeapState>, others: seq<HeapState>, perm: seq<nat>, back: seq<nat>, d: HeapState)
    requires Reordered(sources, others, perm, back) && Apart(sources, d, |sources|)
    ensures Apart(others, d, |others|)
  {
    forall i, j {:trigger others[i], others[j]} | 0 <= i < j < |others| ensures !Collide(others[i].regions, others[j].regions) {
      assert others[i] == sources[perm[i]] && others[j] == sources[perm[j]];
      CollideSymmetric(others[i].regions, others[j].regions);
      assert back[perm[i]] == i && back[perm[j]] == j;
      assert perm[i] != perm[j];
    }
  }

  lemma ReorderedBack(sources: seq<HeapState>, others: seq<HeapState>, perm: seq<nat>, back: seq<nat>)
    requires Reordered(sources, others, perm, back)
    ensures Reordered(others, sources, back, perm)
  {
  }

  lemma FreeReordered(sources: seq<HeapState>, others: seq<HeapState>, perm: seq<nat>, back: seq<nat>, x: int)
    requires Reordered(sources, others, perm, back)
    ensures FreeIn(sources, |sources|, x) ==> FreeIn(others, |others|, x)
  {
    if FreeIn(sources, |sources|, x) {
      var i :| 0 <= i < |sources| && Free(sources[i].regions, x);
      assert sources[i] == others[back[i]];
    }
  }

  /** Which source comes first decides the base: two disjoint sources start at different
      addresses. */
  lemma BasesDiffer(sources: seq<HeapState>, d: HeapState, i: nat, j: nat)
    requires AllWellFormed(sources) && Apart(sources, d, |sources|) && i < |sources| && j < |sources|
    requires sources[i].regions != [] && sources[j].regions != []
    ensures sources[i].regions[0].ptr == sources[j].regions[0].ptr <==> i == j
  {
    if i != j {
      assert WellFormed(sources[i]) && WellFormed(sources[j]);
      FirstByteFree(sources[i].regions);
      FirstByteFree(sources[j].regions);
      CollideSymmetric(sources[i].regions, sources[j].regions);
      assert !Collide(sources[i].regions, sources[j].regions);
    }
  }

  /** Draining any number of heaps, in any order: all drains succeed iff no two of the
      sources, and no source and the destination, share a byte; then the regions at the end
      do not depend on the order. The recorded layout base does: the states at the end are
      equal iff the destination already had a base, or no source brings regions, or the same
      source is the first to bring some. */
  lemma DrainsCommute(sources: seq<HeapState>, afters: seq<HeapState>, dests: seq<HeapState>, outs: seq<Outcome>,
                      others: seq<HeapState>, aftersO: seq<HeapState>, destsO: seq<HeapState>, outsO: seq<Outcome>,
                      perm: seq<nat>, back: seq<nat>)
    requires Drains(sources, afters, dests, outs) && Drains(others, aftersO, destsO, outsO) && dests[0] == destsO[0]
    requires AllWellFormed(sources) && WellFormed(dests[0]) && Reordered(sources, others, perm, back)
    ensures AllDone(outs, |sources|) <==> Apart(sources, dests[0], |sources|)
    ensures AllDone(outs, |sources|) <==> AllDone(outsO, |sources|)
    ensures AllDone(outs, |sources|) ==>
              && Drained(sources, dests[0], |sources|, dests[|sources|])
              && destsO[|sources|].regions == dests[|sources|].regions
              && var n := |sources|;
                 (destsO[n] == dests[n] <==>
                    dests[0].layoutBase.Some? || First(sources, n) == n || (First(others, n) < n && perm[First(others, n)] == First(sources, n)))
  {
    var n := |sources|;
    assert AllWellFormed(others) by { assert forall i {:trigger others[i]} :: 0 <= i < n ==> WellFormed(sources[perm[i]]); }
    DrainedUpTo(sources, afters, dests, outs, n);
    DrainedUpTo(others, aftersO, destsO, outsO, n);
    ReorderedBack(sources, others, perm, back);
    if Apart(sources, dests[0], n) { ApartReordered(sources, others, perm, back, dests[0]); }
    if Apart(others, dests[0], n) { ApartReordered(others, sources, back, perm, dests[0]); }
    if AllDone(outs, n) {
      forall x ensures Free(dests[n].regions, x) <==> Free(destsO[n].regions, x) {
        FreeReordered(sources, others, perm, back, x);
        FreeReordered(others, sources, back, perm, x);
      }
      CanonicalUnique(dests[n].regions, destsO[n].regions);
      SameFirst(sources, others, perm, back, dests[0]);
    }
  }

  /** The two orders record the same base iff the same source is first. */
  lemma SameFirst(sources: seq<HeapState>, others: seq<HeapState>, perm: seq<nat>, back: seq<nat>, d: HeapState)
    requires Reordered(sources, others, perm, back) && AllWellFormed(sources) && Apart(sources, d, |sources|)
    ensures var n := |sources|;
            && (First(sources, n) == n <==> First(others, n) == n)
            && (First(sources, n) < n ==>
                  (sources[First(sources, n)].regions[0].ptr == others[First(others, n)].regions[0].ptr
                   <==> perm[First(others, n)] == First(sources, n)))
  {
    var n := |sources|;
    var i, j := First(sources, n), First(others, n);
    if i < n { assert others[back[i]].regions != []; }
    if j < n {
      assert sources[perm[j]].regions != [];
      if i < n { BasesDiffer(sources, d, i, perm[j]); }
    }
  }

  // ---------------------------------------------------------------------
  // Relocation: the same steps at another base address

  datatype Op =
    | Alloc(heap: nat, size: int, longTerm: bool)
    | Manage(heap: nat, ptr: int, length: int)
    | Claim(heap: nat, ptr: int, length: int)
    | Drain(source: nat, destination: nat)

  function ShiftRegions(rs: seq<Region>, delta: int): (r: seq<Region>)
    ensures |r| == |rs|
    ensures forall i :: 0 <= i < |rs| ==> r[i] == Region(rs[i].ptr + delta, rs[i].length)
  {
    if rs == [] then [] else [Region(rs[0].ptr + delta, rs[0].length)] + ShiftRegions(rs[1..], delta)
  }

  function ShiftOption(p: Option<int>, delta: int): Option<int> {
    match p case None => None case Some(v) => Some(v + delta)
  }

  function ShiftState(h: HeapState, delta: int): HeapState {
    h.(regions := ShiftRegions(h.regions, delta),
       layoutBase := ShiftOption(h.layoutBase, delta),
       layoutEnd := ShiftOption(h.layoutEnd, delta))
  }

  function ShiftOutcome(out: Outcome, delta: int): Outcome {
    if out.Allocated? then Allocated(out.ptr + delta, out.length) else out
  }

  function ShiftOp(op: Op, delta: int): Op {
    match op
    case Manage(heap, ptr, length) => Manage(heap, ptr + delta, length)
    case Claim(heap, ptr, length) => Claim(heap, ptr + delta, length)
    case _ => op
  }

  /** The argument validation decides alike at both bases. */
  predicate ValidAlike(op: Op, delta: int) {
    op.Manage? || op.Claim? ==> (ValidRegion(op.ptr, op.length) <==> ValidRegion(op.ptr + delta, op.length))
  }

  /** All free bytes stay addressable after the shift. */
  ghost predicate Relocatable(rs: seq<Region>, delta: int) {
    forall b :: Free(rs, b) ==> 0 <= b + delta < MAX_SAFE
  }

  lemma ShiftFree(rs: seq<Region>, delta: int)
    ensures forall b :: Free(ShiftRegions(rs, delta), b) <==> Free(rs, b - delta)
  {
    var rs' := ShiftRegions(rs, delta);
    forall b ensures Free(rs', b) <==> Free(rs, b - delta) {
      if Free(rs', b) {
        var i :| 0 <= i < |rs'| && rs'[i].Covers(b);
        assert rs[i].Covers(b - delta);
      }
      if Free(rs, b - delta) {
        var i :| 0 <= i < |rs| && rs[i].Covers(b - delta);
        assert rs'[i].Covers(b);
      }
    }
  }

  lemma ShiftCanonical(rs: seq<Region>, delta: int)
    requires Canonical(rs) && Relocatable(rs, delta)
    ensures Canonical(ShiftRegions(rs, delta))
  {
    var rs' := ShiftRegions(rs, delta);
    forall i | 0 <= i < |rs| ensures ValidRegion(rs'[i].ptr, rs'[i].length) {
      assert rs[i].Covers(rs[i].ptr) && rs[i].Covers(rs[i].End() - 1);
      assert Free(rs, rs[i].ptr) && Free(rs, rs[i].End() - 1);
    }
  }

  lemma ShiftRange(rs: seq<Region>, delta: int, ptr: int, length: int)
    ensures RangeFree(ShiftRegions(rs, delta), ptr + delta, length) <==> RangeFree(rs, ptr, length)
    ensures Touches(ShiftRegions(rs, delta), ptr + delta, length) <==> Touches(rs, ptr, length)
  {
    var rs' := ShiftRegions(rs, delta);
    ShiftFree(rs, delta);
    if RangeFree(rs', ptr + delta, length) {
      forall b | ptr <= b < ptr + length ensures Free(rs, b) { assert Free(rs', b + delta); }
    }
    if Touches(rs, ptr, length) {
      var b :| ptr <= b < ptr + length && Free(rs, b);
      assert Free(rs', b + delta);
    }
    if Touches(rs', ptr + delta, length) {
      var b :| ptr + delta <= b < ptr + delta + length && Free(rs', b);
      assert Free(rs, b - delta);
    }
  }

  lemma ShiftRemoved(rs: seq<Region>, ptr: int, length: int, rs': seq<Region>, delta: int)
    requires Removed(rs, ptr, length, rs') && Relocatable(rs, delta)
    ensures Relocatable(rs', delta)
    ensures Removed(ShiftRegions(rs, delta), ptr + delta, length, ShiftRegions(rs', delta))
  {
    ShiftFree(rs, delta);
    ShiftFree(rs', delta);
    ShiftCanonical(rs', delta);
  }

  lemma ShiftAdded(rs: seq<Region>, ptr: int, length: int, rs': seq<Region>, delta: int)
    requires Added(rs, ptr, length, rs') && Relocatable(rs, delta) && ValidRegion(ptr + delta, length)
    ensures Relocatable(rs', delta)
    ensures Added(ShiftRegions(rs, delta), ptr + delta, length, ShiftRegions(rs', delta))
  {
    ShiftFree(rs, delta);
    ShiftFree(rs', delta);
    ShiftCanonical(rs', delta);
  }

  lemma ShiftFits(rs: seq<Region>, size: int, delta: int, p: int)
    requires delta % ALIGNMENT == 0
    ensures Fits(ShiftRegions(rs, delta), size, p + delta) <==> Fits(rs, size, p)
  {
    ShiftRange(rs, delta, p, size);
  }

  lemma ShiftBestFit(rs: seq<Region>, size: int, longTerm: bool, ptr: int, length: int, delta: int)
    requires delta % ALIGNMENT == 0 && BestFit(rs, size, longTerm, ptr, length)
    ensures BestFit(ShiftRegions(rs, delta), size, longTerm, ptr + delta, length)
  {
    ShiftFits(rs, size, delta, ptr);
    ShiftRange(rs, delta, ptr, length);
    ShiftFree(rs, delta);
    forall p | Fits(ShiftRegions(rs, delta), size, p)
      ensures if longTerm then p <= ptr + delta else ptr + delta <= p
    {
      ShiftFits(rs, size, delta, p - delta);
    }
  }

  lemma ShiftAlloc(h: HeapState, size: int, longTerm: bool, h': HeapState, out: Outcome, delta: int)
    requires delta % ALIGNMENT == 0 && Relocatable(h.regions, delta)
    requires AllocStep(h, size, longTerm, h', out)
    ensures Relocatable(h'.regions, delta)
    ensures AllocStep(ShiftState(h, delta), size, longTerm, ShiftState(h', delta), ShiftOutcome(out, delta))
  {
    if out.Allocated? {
      ShiftBestFit(h.regions, size, longTerm, out.ptr, out.length, delta);
      ShiftRemoved(h.regions, out.ptr, out.length, h'.regions, delta);
    } else if ValidSize(size) {
      forall p ensures !Fits(ShiftRegions(h.regions, delta), size, p) {
        ShiftFits(h.regions, size, delta, p - delta);
      }
    }
  }

  lemma ShiftManage(h: HeapState, ptr: int, length: int, h': HeapState, out: Outcome, delta: int)
    requires Relocatable(h.regions, delta) && ValidAlike(Manage(0, ptr, length), delta)
    requires ManageStep(h, ptr, length, h', out)
    ensures Relocatable(h'.regions, delta)
    ensures ManageStep(ShiftState(h, delta), ptr + delta, length, ShiftState(h', delta), ShiftOutcome(out, delta))
  {
    ShiftRange(h.regions, delta, ptr, length);
    if out == Done { ShiftAdded(h.regions, ptr, length, h'.regions, delta); }
  }

  lemma ShiftClaim(h: HeapState, ptr: int, length: int, h': HeapState, out: Outcome, delta: int)
    requires Relocatable(h.regions, delta) && ValidAlike(Claim(0, ptr, length), delta)
    requires ClaimStep(h, ptr, length, h', out)
    ensures Relocatable(h'.regions, delta)
    ensures ClaimStep(ShiftState(h, delta), ptr + delta, length, ShiftState(h', delta), ShiftOutcome(out, delta))
  {
    ShiftRange(h.regions, delta, ptr, length);
    if out.Allocated? { ShiftRemoved(h.regions, ptr, length, h'.regions, delta); }
  }

  lemma ShiftDrain(s: HeapState, d: HeapState, s': HeapState, d': HeapState, out: Outcome, delta: int)
    requires Relocatable(s.regions, delta) && Relocatable(d.regions, delta)
    requires DrainStep(s, d, s', d', out)
    ensures Relocatable(s'.regions, delta) && Relocatable(d'.regions, delta)
    ensures DrainStep(ShiftState(s, delta), ShiftState(d, delta), ShiftState(s', delta), ShiftState(d', delta), out)
  {
    ShiftFree(s.regions, delta);
    ShiftFree(d.regions, delta);
    ShiftFree(d'.regions, delta);
    if out == Overlap {
      var b :| Free(s.regions, b) && Free(d.regions, b);
      assert Free(ShiftRegions(s.regions, delta), b + delta) && Free(ShiftRegions(d.regions, delta), b + delta);
    } else {
      ShiftCanonical(d'.regions, delta);
      assert !Collide(ShiftRegions(s.regions, delta), ShiftRegions(d.regions, delta));
    }
  }

  // ---------------------------------------------------------------------
  // Runs of a system of heaps

  type System = seq<HeapState>

  predicate OpInRange(op: Op, n: nat) {
    match op
    case Drain(source, destination) => source < n && destination < n
    case _ => op.heap < n
  }

  /** One operation on a system of heaps; the heaps it does not name stay put. */
  ghost predicate SystemStep(hs: System, op: Op, hs': System, out: Outcome) {
    && OpInRange(op, |hs|)
    && |hs'| == |hs|
    && match op
       case Alloc(i, size, longTerm) => hs' == hs[i := hs'[i]] && AllocStep(hs[i], size, longTerm, hs'[i], out)
       case Manage(i, ptr, length) => hs' == hs[i := hs'[i]] && ManageStep(hs[i], ptr, length, hs'[i], out)
       case Claim(i, ptr, length) => hs' == hs[i := hs'[i]] && ClaimStep(hs[i], ptr, length, hs'[i], out)
       case Drain(i, j) =>
         if i == j then hs' == hs && out == Done
         else hs' == hs[i := hs'[i]][j := hs'[j]] && DrainStep(hs[i], hs[j], hs'[i], hs'[j], out)
  }

  ghost predicate Run(states: seq<System>, ops: seq<Op>, outs: seq<Outcome>) {
    && |states| == |ops| + 1
    && |outs| == |ops|
    && (forall i :: 0 <= i < |states[0]| ==> states[0][i] == EmptyHeap)
    && forall k :: 0 <= k < |ops| ==> SystemStep(states[k], ops[k], states[k + 1], outs[k])
  }

  ghost predicate Sound(hs: System) {
    forall i :: 0 <= i < |hs| ==> WellFormed(hs[i])
  }

  lemma DrainKeepsWellFormed(s: HeapState, d: HeapState, s': HeapState, d': HeapState, out: Outcome)
    requires WellFormed(s) && WellFormed(d) && DrainStep(s, d, s', d', out)
    ensures WellFormed(s') && WellFormed(d')
  {
    if out == Done {
      assert s'.regions == [];
    }
  }

  /** Every step keeps every heap canonical. */
  lemma StepKeepsSound(hs: System, op: Op, hs': System, out: Outcome)
    requires Sound(hs) && SystemStep(hs, op, hs', out)
    ensures Sound(hs')
  {
    match op
    case Alloc(i, _, _) => assert WellFormed(hs[i]);
    case Manage(i, _, _) => assert WellFormed(hs[i]);
    case Claim(i, _, _) =>
      assert WellFormed(hs[i]);
      if hs'[i].regions != [] && out.Allocated? { FirstByteFree(hs'[i].regions); }
    case Drain(i, j) =>
      if i != j { DrainKeepsWellFormed(hs[i], hs[j], hs'[i], hs'[j], out); }
  }

  /** `hs'` is `hs` moved by `delta`. */
  ghost predicate Moved(hs: System, hs': System, delta: int) {
    && |hs'| == |hs|
    && forall i :: 0 <= i < |hs| ==> hs'[i] == ShiftState(hs[i], delta) && Relocatable(hs[i].regions, delta)
  }

  lemma RelocatedAlloc(h: HeapState, size: int, longTerm: bool, h': HeapState, out: Outcome, g': HeapState, outG: Outcome, delta: int)
    requires delta % ALIGNMENT == 0 && WellFormed(ShiftState(h, delta)) && Relocatable(h.regions, delta)
    requires AllocStep(h, size, longTerm, h', out) && AllocStep(ShiftState(h, delta), size, longTerm, g', outG)
    ensures outG == ShiftOutcome(out, delta) && g' == ShiftState(h', delta) && Relocatable(h'.regions, delta)
  {
    ShiftAlloc(h, size, longTerm, h', out, delta);
    AllocDeterministic(ShiftState(h, delta), size, longTerm, g', outG, ShiftState(h', delta), ShiftOutcome(out, delta));
  }

  lemma RelocatedManage(h: HeapState, ptr: int, length: int, h': HeapState, out: Outcome, g': HeapState, outG: Outcome, delta: int)
    requires Relocatable(h.regions, delta)
    requires ManageStep(h, ptr, length, h', out) && ManageStep(ShiftState(h, delta), ptr + delta, length, g', outG)
    ensures outG == ShiftOutcome(out, delta) <==> ValidAlike(Manage(0, ptr, length), delta)
    ensures outG == ShiftOutcome(out, delta) ==> g' == ShiftState(h', delta) && Relocatable(h'.regions, delta)
  {
    if ValidAlike(Manage(0, ptr, length), delta) {
      ShiftManage(h, ptr, length, h', out, delta);
      ManageDeterministic(ShiftState(h, delta), ptr + delta, length, g', outG, ShiftState(h', delta), ShiftOutcome(out, delta));
    }
  }

  lemma RelocatedClaim(h: HeapState, ptr: int, length: int, h': HeapState, out: Outcome, g': HeapState, outG: Outcome, delta: int)
    requires Relocatable(h.regions, delta)
    requires ClaimStep(h, ptr, length, h', out) && ClaimStep(ShiftState(h, delta), ptr + delta, length, g', outG)
    ensures outG == ShiftOutcome(out, delta) <==> ValidAlike(Claim(0, ptr, length), delta)
    ensures outG == ShiftOutcome(out, delta) ==> g' == ShiftState(h', delta) && Relocatable(h'.regions, delta)
  {
    if ValidAlike(Claim(0, ptr, length), delta) {
      ShiftClaim(h, ptr, length, h', out, delta);
      ClaimDeterministic(ShiftState(h, delta), ptr + delta, length, g', outG, ShiftState(h', delta), ShiftOutcome(out, delta));
    }
  }

  lemma RelocatedDrain(s: HeapState, d: HeapState, s': HeapState, d': HeapState, out: Outcome,
                       gs': HeapState, gd': HeapState, outG: Outcome, delta: int)
    requires Relocatable(s.regions, delta) && Relocatable(d.regions, delta)
    requires DrainStep(s, d, s', d', out) && DrainStep(ShiftState(s, delta), ShiftState(d, delta), gs', gd', outG)
    ensures outG == out && gs' == ShiftState(s', delta) && gd' == ShiftState(d', delta)
    ensures Relocatable(s'.regions, delta) && Relocatable(d'.regions, delta)
  {
    ShiftDrain(s, d, s', d', out, delta);
    DrainDeterministic(ShiftState(s, delta), ShiftState(d, delta), gs', gd', outG,
                       ShiftState(s', delta), ShiftState(d', delta), out);
  }

  lemma MovedUpdate(hs: System, i: nat, h: HeapState, gs: System, delta: int)
    requires Moved(hs, gs, delta) && i < |hs| && Relocatable(h.regions, delta)
    ensures Moved(hs[i := h], gs[i := ShiftState(h, delta)], delta)
  {
  }

  lemma RelocatedDrainStep(hs: System, i: nat, j: nat, hs': System, out: Outcome, gs: System, gs': System, outG: Outcome, delta: int)
    requires Moved(hs, gs, delta)
    requires SystemStep(hs, Drain(i, j), hs', out) && SystemStep(gs, Drain(i, j), gs', outG)
    ensures outG == out && Moved(hs', gs', delta)
  {
    if i != j {
      RelocatedDrain(hs[i], hs[j], hs'[i], hs'[j], out, gs'[i], gs'[j], outG, delta);
      MovedUpdate(hs, i, hs'[i], gs, delta);
      MovedUpdate(hs[i := hs'[i]], j, hs'[j], gs[i := gs'[i]], delta);
    }
  }

  /** One step at two bases: same relative outcome and state if the arguments
      validate alike, and different outcomes otherwise. */
  lemma RelocatedStep(hs: System, op: Op, hs': System, out: Outcome, gs: System, gs': System, outG: Outcome, delta: int)
    requires delta % ALIGNMENT == 0 && Sound(gs) && Moved(hs, gs, delta)
    requires SystemStep(hs, op, hs', out) && SystemStep(gs, ShiftOp(op, delta), gs', outG)
    ensures outG == ShiftOutcome(out, delta) <==> ValidAlike(op, delta)
    ensures ValidAlike(op, delta) ==> Moved(hs', gs', delta)
  {
    if op.Drain? {
      RelocatedDrainStep(hs, op.source, op.destination, hs', out, gs, gs', outG, delta);
    } else {
      var i := op.heap;
      match op {
        case Alloc(_, size, longTerm) => RelocatedAlloc(hs[i], size, longTerm, hs'[i], out, gs'[i], outG, delta);
        case Manage(_, ptr, length) => RelocatedManage(hs[i], ptr, length, hs'[i], out, gs'[i], outG, delta);
        case Claim(_, ptr, length) => RelocatedClaim(hs[i], ptr, length, hs'[i], out, gs'[i], outG, delta);
      }
      if ValidAlike(op, delta) { MovedUpdate(hs, i, hs'[i], gs, delta); }
    }
  }

  lemma {:induction false} RelocatedPrefix(states: seq<System>, outs: seq<Outcome>, moved: seq<System>, outsM: seq<Outcome>,
                                           ops: seq<Op>, opsM: seq<Op>, delta: int, k: nat)
    requires delta % ALIGNMENT == 0 && k <= |ops|
    requires Run(states, ops, outs) && Run(moved, opsM, outsM) && |moved[0]| == |states[0]|
    requires |opsM| == |ops| && forall i :: 0 <= i < |ops| ==> opsM[i] == ShiftOp(ops[i], delta)
    requires (forall i :: 0 <= i < k ==> outsM[i] == ShiftOutcome(outs[i], delta))
          || (forall i :: 0 <= i < k ==> ValidAlike(ops[i], delta))
    ensures Sound(states[k]) && Sound(moved[k]) && Moved(states[k], moved[k], delta)
    ensures forall i :: 0 <= i < k ==> ValidAlike(ops[i], delta) && outsM[i] == ShiftOutcome(outs[i], delta)
  {
    if k > 0 {
      RelocatedPrefix(states, outs, moved, outsM, ops, opsM, delta, k - 1);
      assert SystemStep(states[k - 1], ops[k - 1], states[k - 1 + 1], outs[k - 1]);
      assert SystemStep(moved[k - 1], opsM[k - 1], moved[k - 1 + 1], outsM[k - 1]);
      StepKeepsSound(states[k - 1], ops[k - 1], states[k], outs[k - 1]);
      StepKeepsSound(moved[k - 1], opsM[k - 1], moved[k], outsM[k - 1]);
      RelocatedStep(states[k - 1], ops[k - 1], states[k], outs[k - 1], moved[k - 1], moved[k], outsM[k - 1], delta);
    }
  }

  ghost predicate SameOffsets(outs: seq<Outcome>, outsM: seq<Outcome>, delta: int) {
    |outsM| == |outs| && forall i :: 0 <= i < |outs| ==> outsM[i] == ShiftOutcome(outs[i], delta)
  }

  ghost predicate AllValidAlike(ops: seq<Op>, delta: int) {
    forall i :: 0 <= i < |ops| ==> ValidAlike(ops[i], delta)
  }

  ghost predicate SameLayouts(hs: System, gs: System) {
    && |hs| == |gs|
    && forall i :: 0 <= i < |hs| ==> LayoutSignature(gs[i]) == LayoutSignature(hs[i])
  }

  /** Replaying a run at a base that differs by a multiple of the alignment gives
      the same outcomes at shifted addresses exactly when every step's arguments
      validate alike; then all heaps agree at every moment up to the shift, and
      have equal layout signatures. */
  lemma RelocationEquivariance(states: seq<System>, outs: seq<Outcome>, moved: seq<System>, outsM: seq<Outcome>,
                               ops: seq<Op>, opsM: seq<Op>, delta: int)
    requires delta % ALIGNMENT == 0
    requires Run(states, ops, outs) && Run(moved, opsM, outsM) && |moved[0]| == |states[0]|
    requires |opsM| == |ops| && forall i :: 0 <= i < |ops| ==> opsM[i] == ShiftOp(ops[i], delta)
    ensures SameOffsets(outs, outsM, delta) <==> AllValidAlike(ops, delta)
    ensures AllValidAlike(ops, delta) ==>
              forall k :: 0 <= k < |states| ==> Moved(states[k], moved[k], delta) && SameLayouts(states[k], moved[k])
  {
    if SameOffsets(outs, outsM, delta) || AllValidAlike(ops, delta) {
      RelocatedPrefix(states, outs, moved, outsM, ops, opsM, delta, |ops|);
      forall k | 0 <= k < |states|
        ensures Moved(states[k], moved[k], delta) && SameLayouts(states[k], moved[k])
      {
        RelocatedPrefix(states, outs, moved, outsM, ops, opsM, delta, k);
      }
    }
  }

  /** A shift that is not a multiple of the alignment, up or down, changes an outcome: one
      aligned block serves a request that its shifted copy refuses, at every base that keeps
      both inside the safe integers. */
  lemma MisalignedBaseDiverges(base: int, delta: int, h: HeapState, g: HeapState, h': HeapState, out: Outcome, g': HeapState, outG: Outcome)
    requires base % ALIGNMENT == 0 && delta % ALIGNMENT != 0
    requires ValidRegion(base, ALIGNMENT) && ValidRegion(base + delta, ALIGNMENT)
    requires ManageStep(EmptyHeap, base, ALIGNMENT, h, Done) && ManageStep(EmptyHeap, base + delta, ALIGNMENT, g, Done)
    requires AllocStep(h, ALIGNMENT, false, h', out) && AllocStep(g, ALIGNMENT, false, g', outG)
    ensures out.Allocated? && outG == Refused
  {
    BlockManaged(base, h);
    BlockManaged(base + delta, g);
    assert Fits(h.regions, ALIGNMENT, base);
    forall p ensures !Fits(g.regions, ALIGNMENT, p) {
      if RangeFree(g.regions, p, ALIGNMENT) {
        assert Free(g.regions, p) && Free(g.regions, p + ALIGNMENT - 1);
        SumNotAligned(base, delta);
      }
    }
  }

  lemma BlockManaged(ptr: int, h: HeapState)
    requires ValidRegion(ptr, ALIGNMENT) && ManageStep(EmptyHeap, ptr, ALIGNMENT, h, Done)
    ensures RangeFree(h.regions, ptr, ALIGNMENT)
    ensures forall b {:trigger Free(h.regions, b)} :: Free(h.regions, b) <==> ptr <= b < ptr + ALIGNMENT
    ensures Canonical(h.regions) && h.layoutEnd == Some(ptr)
  {
    assert forall b :: !Free(EmptyHeap.regions, b);
  }

  lemma SumNotAligned(base: int, delta: int)
    requires base % ALIGNMENT == 0 && delta % ALIGNMENT != 0
    ensures (base + delta) % ALIGNMENT != 0
  {
  }
}
