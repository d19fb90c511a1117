/** What a layout signature tells of the run behind it (src/heap.ts). */
module HeapSignature {
  import opened Wrappers
  import opened Bits
  import opened DeviceHeap
  import opened HeapLaws

  // ---------------------------------------------------------------------
  // One step of the hash

  lemma XorParts(a: nat, b: nat)
    ensures Xor(a, b) % 2 == (a % 2 + b % 2) % 2 && Xor(a, b) / 2 == Xor(a / 2, b / 2)
  {
  }

  /** Every bit of an exclusive or. */
  lemma {:induction false} XorBits(a: nat, b: nat, k: nat)
    ensures Bit(Xor(a, b), k) == 1 <==> Bit(a, k) != Bit(b, k)
    ensures Bit(a, k) < 2 && Bit(b, k) < 2 && Bit(Xor(a, b), k) < 2
  {
    XorParts(a, b);
    if k > 0 { XorBits(a / 2, b / 2, k - 1); }
  }

  lemma {:induction false} XorSymmetric(a: nat, b: nat)
    ensures Xor(a, b) == Xor(b, a)
    decreases a + b
  {
    if a != 0 || b != 0 { XorSymmetric(a / 2, b / 2); }
  }

  lemma Parity(a: nat, b: nat)
    ensures (a % 2 + (a % 2 + b % 2) % 2) % 2 == b % 2
  {
  }

  lemma SameHalves(a: nat, b: nat)
    requires a % 2 == b % 2 && a / 2 == b / 2
    ensures a == b
  {
  }

  /** Exclusive or is its own inverse. */
  lemma {:induction false} XorTwice(a: nat, b: nat)
    ensures Xor(a, Xor(a, b)) == b
    decreases a + b
  {
    if a != 0 || b != 0 {
      XorTwice(a / 2, b / 2);
      XorParts(a, b);
      XorParts(a, Xor(a, b));
      Parity(a, b);
      SameHalves(Xor(a, Xor(a, b)), b);
    }
  }

  function Pow2(n: nat): nat { if n == 0 then 1 else 2 * Pow2(n - 1) }

  lemma {:induction false} XorBelow(a: nat, b: nat, n: nat)
    requires a < Pow2(n) && b < Pow2(n)
    ensures Xor(a, b) < Pow2(n)
  {
    XorParts(a, b);
    if n > 0 { XorBelow(a / 2, b / 2, n - 1); }
  }

  lemma {:induction false} Doubles(m: nat, n: nat)
    ensures Pow2(m + n) == Pow2(m) * Pow2(n)
  {
    if n > 0 {
      Doubles(m, n - 1);
      assert Pow2(m) * (2 * Pow2(n - 1)) == 2 * (Pow2(m) * Pow2(n - 1));
    }
  }

  lemma HashWidth()
    ensures Pow2(64) == HASH_MODULUS
  {
    assert Pow2(4) == 16;
    Doubles(4, 4);
    Doubles(8, 8);
    Doubles(16, 16);
    Doubles(32, 32);
  }

  /** The multiplier that undoes the prime, modulo 2^64. */
  const HASH_INVERSE: nat := 14886173955864302971

  lemma Undone(x: nat, p: nat, q: nat, m: nat, k: nat)
    requires x < m && p * q == 1 + m * k
    ensures x * p % m * q % m == x
  {
    var d := x * p / m;
    var r := x * p % m;
    assert x * p == m * d + r;
    calc {
      r * q;
      (x * p - m * d) * q;
      x * p * q - m * d * q;
      { assert x * p * q == x * (p * q); assert m * d * q == m * (d * q); }
      x * (1 + m * k) - m * (d * q);
      { assert x * (1 + m * k) == x + m * (x * k); }
      x + m * (x * k - d * q);
    }
    Remainder(x, m, x * k - d * q);
  }

  lemma Remainder(x: nat, m: nat, z: int)
    requires x < m
    ensures (x + m * z) % m == x
  {
    var q, r := (x + m * z) / m, (x + m * z) % m;
    assert x + m * z == m * q + r;
    assert m * (z - q) == r - x;
    Scaled(m, z - q);
  }

  lemma Scaled(m: nat, z: int)
    ensures z >= 1 ==> m * z >= m
    ensures z <= -1 ==> m * z + m <= 0
  {
  }

  lemma PrimeUndone(x: nat)
    requires x < HASH_MODULUS
    ensures x * HASH_PRIME % HASH_MODULUS * HASH_INVERSE % HASH_MODULUS == x
  {
    Undone(x, HASH_PRIME, HASH_INVERSE, HASH_MODULUS, 887285111055);
  }

  /** Behind the multiplication a step holds the bits in which the hash and the size differ. */
  lemma HashStepBits(hash: nat, size: nat, k: nat)
    requires hash < HASH_MODULUS && size < HASH_MODULUS
    ensures HashStep(hash, size) < HASH_MODULUS
    ensures Bit(HashStep(hash, size) * HASH_INVERSE % HASH_MODULUS, k) == 1 <==> Bit(hash, k) != Bit(size, k)
  {
    HashWidth();
    XorBelow(hash, size, 64);
    PrimeUndone(Xor(hash, size));
    XorBits(hash, size, k);
  }

  /** A step keeps different exclusive ors apart: equal hashes come from equal sizes iff the
      hashes before them were equal. */
  lemma HashStepInjective(hash: nat, size: nat, hash': nat, size': nat)
    requires hash < HASH_MODULUS && size < HASH_MODULUS && hash' < HASH_MODULUS && size' < HASH_MODULUS
    requires HashStep(hash, size) == HashStep(hash', size')
    ensures hash == hash' <==> size == size'
  {
    HashWidth();
    XorBelow(hash, size, 64);
    XorBelow(hash', size', 64);
    PrimeUndone(Xor(hash, size));
    PrimeUndone(Xor(hash', size'));
    XorTwice(hash, size);
    XorTwice(hash', size');
    XorTwice(size, hash);
    XorTwice(size', hash');
    XorSymmetric(hash, size);
    XorSymmetric(hash', size');
  }

  // ---------------------------------------------------------------------
  // What a run did to one heap

  /** A successful allocation: where it is, and how many bytes were asked for. */
  datatype Take = Take(ptr: int, size: int) {
    function End(): int { ptr + size }
  }

  /** What one step allocated in heap i. */
  function Taken(op: Op, out: Outcome, i: nat): seq<Take> {
    if op.Alloc? && op.heap == i && out.Allocated? then [Take(out.ptr, op.size)] else []
  }

  /** The allocations heap i made in the first k steps. */
  function Takes(ops: seq<Op>, outs: seq<Outcome>, i: nat, k: nat): seq<Take>
    requires k <= |ops| == |outs|
  {
    if k == 0 then [] else Takes(ops, outs, i, k - 1) + Taken(ops[k - 1], outs[k - 1], i)
  }

  /** The lowest address one step brought to heap i: of the range it was given, or of another
      heap with free bytes drained into it. */
  function Brought(hs: System, op: Op, out: Outcome, i: nat): Option<int> {
    if out != Done then None
    else match op
      case Manage(j, ptr, _) => if j == i then Some(ptr) else None
      case Drain(j, d) =>
        if d == i && j != i && j < |hs| && hs[j].regions != [] then Some(hs[j].regions[0].ptr) else None
      case _ => None
  }

  /** The first address that came to heap i in the first k steps. */
  function FirstAddress(states: seq<System>, ops: seq<Op>, outs: seq<Outcome>, i: nat, k: nat): Option<int>
    requires k <= |ops| == |outs| && |states| == |ops| + 1
  {
    if k == 0 then None
    else
      var before := FirstAddress(states, ops, outs, i, k - 1);
      if before.Some? then before else Brought(states[k - 1], ops[k - 1], outs[k - 1], i)
  }

  /** The hash of the sizes asked for, in order. */
  function HashOf(takes: seq<Take>): (r: nat)
    requires forall t :: t in takes ==> t.size >= 0
    ensures r < HASH_MODULUS
  {
    if takes == [] then HASH_SEED
    else HashStep(HashOf(takes[..|takes| - 1]), takes[|takes| - 1].size)
  }

  ghost predicate ValidTakes(takes: seq<Take>) {
    forall t :: t in takes ==> ValidSize(t.size)
  }

  /** The highest end of the allocations, or the base if none is above it. */
  ghost predicate Highest(end: int, base: int, takes: seq<Take>) {
    && base <= end
    && (forall t :: t in takes ==> t.End() <= end)
    && (end == base || exists t :: t in takes && t.End() == end)
  }

  lemma HighestUnique(end: int, end': int, base: int, takes: seq<Take>)
    requires Highest(end, base, takes) && Highest(end', base, takes)
    ensures end == end'
  {
  }

  /** What the counters of a heap hold behind these allocations. */
  ghost predicate Recorded(h: HeapState, base: Option<int>, takes: seq<Take>) {
    && ValidTakes(takes)
    && h.layoutBase == base
    && h.layoutEnd.Some? == base.Some?
    && (base.Some? ==> Highest(h.layoutEnd.value, base.value, takes))
    && (base.None? ==> takes == [])
    && h.allocationCount == |takes|
    && h.allocationHash == HashOf(takes)
  }

  lemma RecordedAlloc(h: HeapState, size: int, longTerm: bool, h': HeapState, out: Outcome, base: Option<int>, takes: seq<Take>)
    requires WellFormed(h) && Recorded(h, base, takes) && AllocStep(h, size, longTerm, h', out)
    ensures Recorded(h', base, if out.Allocated? then takes + [Take(out.ptr, size)] else takes)
  {
    if out.Allocated? {
      var more := takes + [Take(out.ptr, size)];
      assert more[..|more| - 1] == takes;
      assert Take(out.ptr, size) in more;
      assert forall t :: t in more ==> t in takes || t == Take(out.ptr, size);
      assert forall t :: t in takes ==> t in more;
    }
  }

  lemma RecordedDrain(s: HeapState, d: HeapState, s': HeapState, d': HeapState, out: Outcome, base: Option<int>, takes: seq<Take>)
    requires WellFormed(s) && WellFormed(d) && Recorded(d, base, takes) && DrainStep(s, d, s', d', out)
    ensures Recorded(d', if base.Some? || out != Done || s.regions == [] then base else Some(s.regions[0].ptr), takes)
  {
    if base.None? && out == Done {
      assert d.regions == [];
      assert forall b :: !Free(d.regions, b);
      CanonicalUnique(d'.regions, s.regions);
    }
  }

  lemma RecordedStep(hs: System, op: Op, hs': System, out: Outcome, i: nat, base: Option<int>, takes: seq<Take>)
    requires Sound(hs) && SystemStep(hs, op, hs', out) && i < |hs| && Recorded(hs[i], base, takes)
    ensures Recorded(hs'[i], if base.Some? then base else Brought(hs, op, out, i), takes + Taken(op, out, i))
  {
    assert WellFormed(hs[i]);
    assert takes + [] == takes;
    match op {
      case Alloc(j, size, longTerm) =>
        if j == i { RecordedAlloc(hs[i], size, longTerm, hs'[i], out, base, takes); }
      case Drain(j, d) =>
        if d == i && j != i { RecordedDrain(hs[j], hs[i], hs'[j], hs'[i], out, base, takes); }
      case _ =>
    }
  }

  lemma {:induction false} RunSound(states: seq<System>, ops: seq<Op>, outs: seq<Outcome>, k: nat)
    requires Run(states, ops, outs) && k <= |ops|
    ensures Sound(states[k]) && |states[k]| == |states[0]|
  {
    if k > 0 {
      RunSound(states, ops, outs, k - 1);
      assert SystemStep(states[k - 1], ops[k - 1], states[k - 1 + 1], outs[k - 1]);
      StepKeepsSound(states[k - 1], ops[k - 1], states[k], outs[k - 1]);
    }
  }

  lemma {:induction false} RunRecorded(states: seq<System>, ops: seq<Op>, outs: seq<Outcome>, i: nat, k: nat)
    requires Run(states, ops, outs) && k <= |ops| && i < |states[0]|
    ensures i < |states[k]|
    ensures Recorded(states[k][i], FirstAddress(states, ops, outs, i, k), Takes(ops, outs, i, k))
  {
    RunSound(states, ops, outs, k);
    if k > 0 {
      RunRecorded(states, ops, outs, i, k - 1);
      RunSound(states, ops, outs, k - 1);
      assert SystemStep(states[k - 1], ops[k - 1], states[k - 1 + 1], outs[k - 1]);
      RecordedStep(states[k - 1], ops[k - 1], states[k], outs[k - 1], i,
                   FirstAddress(states, ops, outs, i, k - 1), Takes(ops, outs, i, k - 1));
    }
  }

  /** The signature of a heap after any run: its offset is the highest end of the allocations
      made, counted from the first address that came to the heap; its count is their number,
      and its hash that of the sizes asked for, one step each. */
  lemma SignatureTells(states: seq<System>, ops: seq<Op>, outs: seq<Outcome>, i: nat, k: nat)
    requires Run(states, ops, outs) && k <= |ops| && i < |states[0]|
    ensures i < |states[k]|
    ensures var (sig, base, takes) := (LayoutSignature(states[k][i]), FirstAddress(states, ops, outs, i, k), Takes(ops, outs, i, k));
            && ValidTakes(takes)
            && (base.None? ==> sig.offset == 0 && takes == [])
            && (base.Some? ==> Highest(base.value + sig.offset, base.value, takes))
            && sig.count == |takes|
            && sig.hash == HashOf(takes)
  {
    RunRecorded(states, ops, outs, i, k);
  }

  /** Two lists of sizes that differ in one place have different hashes. */
  lemma {:induction false} HashTellsOne(xs: seq<Take>, ys: seq<Take>, p: nat)
    requires ValidTakes(xs) && ValidTakes(ys) && p < |xs| == |ys|
    requires forall j :: 0 <= j < |xs| && j != p ==> xs[j].size == ys[j].size
    ensures HashOf(xs) == HashOf(ys) <==> xs[p].size == ys[p].size
    decreases |xs|
  {
    var n := |xs| - 1;
    assert xs[n] in xs && ys[n] in ys;
    if p == n {
      SameSizes(xs[..n], ys[..n]);
      if HashOf(xs) == HashOf(ys) { HashStepInjective(HashOf(xs[..n]), xs[n].size, HashOf(ys[..n]), ys[n].size); }
    } else {
      HashTellsOne(xs[..n], ys[..n], p);
      if HashOf(xs) == HashOf(ys) { HashStepInjective(HashOf(xs[..n]), xs[n].size, HashOf(ys[..n]), ys[n].size); }
    }
  }

  lemma {:induction false} SameSizes(xs: seq<Take>, ys: seq<Take>)
    requires ValidTakes(xs) && ValidTakes(ys) && |xs| == |ys|
    requires forall j :: 0 <= j < |xs| ==> xs[j].size == ys[j].size
    ensures HashOf(xs) == HashOf(ys)
    decreases |xs|
  {
    if xs != [] { SameSizes(xs[..|xs| - 1], ys[..|xs| - 1]); }
  }

  /** Heaps of two runs with one signature made equally many allocations and were filled
      equally far above their first addresses; they do not differ in the size of just one. */
  lemma SameSignature(states: seq<System>, ops: seq<Op>, outs: seq<Outcome>, i: nat, k: nat,
                      states': seq<System>, ops': seq<Op>, outs': seq<Outcome>, i': nat, k': nat)
    requires Run(states, ops, outs) && k <= |ops| && i < |states[0]| && i < |states[k]|
    requires Run(states', ops', outs') && k' <= |ops'| && i' < |states'[0]| && i' < |states'[k']|
    requires LayoutSignature(states[k][i]) == LayoutSignature(states'[k'][i'])
    ensures var (base, takes) := (FirstAddress(states, ops, outs, i, k), Takes(ops, outs, i, k));
            var (base', takes') := (FirstAddress(states', ops', outs', i', k'), Takes(ops', outs', i', k'));
            && |takes| == |takes'|
            && (base.Some? && base'.Some? ==>
                  forall end, end' :: Highest(end, base.value, takes) && Highest(end', base'.value, takes') ==>
                    end - base.value == end' - base'.value)
            && (forall p :: 0 <= p < |takes| && (forall j :: 0 <= j < |takes| && j != p ==> takes[j].size == takes'[j].size) ==>
                  takes[p].size == takes'[p].size)
  {
    SignatureTells(states, ops, outs, i, k);
    SignatureTells(states', ops', outs', i', k');
    var takes, takes' := Takes(ops, outs, i, k), Takes(ops', outs', i', k');
    SameHeights(FirstAddress(states, ops, outs, i, k), takes, FirstAddress(states', ops', outs', i', k'), takes',
                LayoutSignature(states[k][i]).offset);
    SizesTold(takes, takes');
  }

  lemma SameHeights(base: Option<int>, takes: seq<Take>, base': Option<int>, takes': seq<Take>, offset: int)
    requires base.Some? ==> Highest(base.value + offset, base.value, takes)
    requires base'.Some? ==> Highest(base'.value + offset, base'.value, takes')
    ensures base.Some? && base'.Some? ==>
              forall end, end' :: Highest(end, base.value, takes) && Highest(end', base'.value, takes') ==>
                end - base.value == end' - base'.value
  {
  }

  lemma SizesTold(xs: seq<Take>, ys: seq<Take>)
    requires ValidTakes(xs) && ValidTakes(ys) && |xs| == |ys| && HashOf(xs) == HashOf(ys)
    ensures forall p :: 0 <= p < |xs| && (forall j :: 0 <= j < |xs| && j != p ==> xs[j].size == ys[j].size) ==>
              xs[p].size == ys[p].size
  {
    forall p | 0 <= p < |xs| && (forall j :: 0 <= j < |xs| && j != p ==> xs[j].size == ys[j].size)
      ensures xs[p].size == ys[p].size
    {
      HashTellsOne(xs, ys, p);
    }
  }
}
