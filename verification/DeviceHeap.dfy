/** The device heap: a sorted, coalesced free list with aligned first-fit and
    last-fit allocation (src/heap.ts).

    Every operation is specified by the set of free bytes before and after it.
    `CanonicalUnique` shows that this determines the region list completely. */
module DeviceHeap {
  import opened Wrappers

  const ALIGNMENT := 256
  const MAX_SAFE := 9007199254740991
  const HASH_SEED := 1469598103934665603
  const HASH_PRIME := 1099511628211
  const HASH_MODULUS := 0x1_0000_0000_0000_0000

  datatype Region = Region(ptr: int, length: int) {
    function End(): int { ptr + length }

    predicate Covers(b: int) { ptr <= b < End() }
  }

  /** Region arguments that pass the source's validation. */
  predicate ValidRegion(ptr: int, length: int) {
    0 <= ptr && 0 < length && ptr + length <= MAX_SAFE
  }

  predicate ValidSize(size: int) { 0 < size <= MAX_SAFE }

  // ---------------------------------------------------------------------
  // Canonical free lists and the bytes they stand for

  ghost predicate Canonical(rs: seq<Region>) {
    && (forall i :: 0 <= i < |rs| ==> ValidRegion(rs[i].ptr, rs[i].length))
    && (forall i, j :: 0 <= i < j < |rs| ==> rs[i].End() < rs[j].ptr)
  }

  ghost predicate Free(rs: seq<Region>, b: int) {
    exists i :: 0 <= i < |rs| && rs[i].Covers(b)
  }

  ghost predicate RangeFree(rs: seq<Region>, ptr: int, length: int) {
    forall b :: ptr <= b < ptr + length ==> Free(rs, b)
  }

  /** The byte after a region is never free: regions are strictly separated. */
  lemma EndIsNotFree(rs: seq<Region>, i: nat)
    requires Canonical(rs) && i < |rs|
    ensures !Free(rs, rs[i].End())
  {
    forall j | 0 <= j < |rs| ensures !rs[j].Covers(rs[i].End()) {
      if j > i { assert rs[i].End() < rs[j].ptr; }
      if j < i { assert rs[j].End() < rs[i].ptr; }
    }
  }

  /** A fully free range lies inside a single region. */
  lemma FreeRangeHasRegion(rs: seq<Region>, ptr: int, length: int) returns (i: nat)
    requires Canonical(rs) && length > 0 && RangeFree(rs, ptr, length)
    ensures i < |rs| && rs[i].ptr <= ptr && ptr + length <= rs[i].End()
  {
    assert Free(rs, ptr);
    i :| i < |rs| && rs[i].Covers(ptr);
    EndIsNotFree(rs, i);
  }

  lemma RegionIsFree(rs: seq<Region>, i: nat, ptr: int, length: int)
    requires i < |rs| && rs[i].ptr <= ptr && ptr + length <= rs[i].End()
    ensures RangeFree(rs, ptr, length)
  {
    forall b | ptr <= b < ptr + length ensures Free(rs, b) {
      assert rs[i].Covers(b);
    }
  }

  /** The first region of one list is a prefix of the first region of any other
      list with the same free bytes. */
  lemma FirstRegionBelow(xs: seq<Region>, ys: seq<Region>)
    requires Canonical(xs) && Canonical(ys) && xs != [] && ys != []
    requires forall b :: Free(xs, b) <==> Free(ys, b)
    ensures xs[0].ptr >= ys[0].ptr
    ensures xs[0].ptr == ys[0].ptr ==> xs[0].End() <= ys[0].End()
  {
    RegionIsFree(xs, 0, xs[0].ptr, xs[0].length);
    assert RangeFree(ys, xs[0].ptr, xs[0].length);
    var i := FreeRangeHasRegion(ys, xs[0].ptr, xs[0].length);
  }

  lemma TailFree(rs: seq<Region>, b: int)
    requires Canonical(rs) && rs != []
    ensures Free(rs[1..], b) <==> Free(rs, b) && !rs[0].Covers(b)
  {
    if Free(rs[1..], b) {
      var i :| 0 <= i < |rs[1..]| && rs[1..][i].Covers(b);
      assert rs[i + 1].Covers(b);
    }
    if Free(rs, b) && !rs[0].Covers(b) {
      var i :| 0 <= i < |rs| && rs[i].Covers(b);
      assert rs[1..][i - 1].Covers(b);
    }
  }

  lemma FirstByteFree(rs: seq<Region>)
    requires Canonical(rs) && rs != []
    ensures Free(rs, rs[0].ptr)
    ensures forall b :: Free(rs, b) ==> rs[0].ptr <= b
  {
    assert rs[0].Covers(rs[0].ptr);
  }

  /** A canonical list is determined by its free bytes. */
  lemma {:induction false} CanonicalUnique(xs: seq<Region>, ys: seq<Region>)
    requires Canonical(xs) && Canonical(ys)
    requires forall b :: Free(xs, b) <==> Free(ys, b)
    ensures xs == ys
  {
    if xs != [] { FirstByteFree(xs); }
    if ys != [] { FirstByteFree(ys); }
    if xs != [] && ys != [] {
      FirstRegionBelow(xs, ys);
      FirstRegionBelow(ys, xs);
      assert xs[0] == ys[0];
      forall b ensures Free(xs[1..], b) <==> Free(ys[1..], b) {
        TailFree(xs, b);
        TailFree(ys, b);
      }
      CanonicalUnique(xs[1..], ys[1..]);
      assert xs == [xs[0]] + xs[1..] && ys == [ys[0]] + ys[1..];
    }
  }

  // ---------------------------------------------------------------------
  // List surgery

  /** The list with [ptr, ptr + length) cut out of region i. */
  function Carve(rs: seq<Region>, i: nat, ptr: int, length: int): seq<Region>
    requires i < |rs|
  {
    var region := rs[i];
    var end := ptr + length;
    var prefixLength := ptr - region.ptr;
    var suffixLength := region.End() - end;
    if prefixLength != 0 && suffixLength != 0 then
      rs[..i] + [Region(region.ptr, prefixLength), Region(end, suffixLength)] + rs[i + 1..]
    else if prefixLength != 0 then rs[i := Region(region.ptr, prefixLength)]
    else if suffixLength != 0 then rs[i := Region(end, suffixLength)]
    else rs[..i] + rs[i + 1..]
  }

  /** `rs'` has the bytes of `rs` without [ptr, ptr + length), and is canonical. */
  ghost predicate Removed(rs: seq<Region>, ptr: int, length: int, rs': seq<Region>) {
    && Canonical(rs')
    && forall b :: Free(rs', b) <==> Free(rs, b) && !(ptr <= b < ptr + length)
  }

  /** `rs'` has the bytes of `rs` together with [ptr, ptr + length), and is canonical. */
  ghost predicate Added(rs: seq<Region>, ptr: int, length: int, rs': seq<Region>) {
    && Canonical(rs')
    && forall b :: Free(rs', b) <==> Free(rs, b) || ptr <= b < ptr + length
  }

  lemma FreeConcat(xs: seq<Region>, ys: seq<Region>, b: int)
    ensures Free(xs + ys, b) <==> Free(xs, b) || Free(ys, b)
  {
    var zs := xs + ys;
    if Free(zs, b) {
      var i :| 0 <= i < |zs| && zs[i].Covers(b);
      if i < |xs| { assert xs[i].Covers(b); } else { assert ys[i - |xs|].Covers(b); }
    }
    if Free(xs, b) {
      var i :| 0 <= i < |xs| && xs[i].Covers(b);
      assert zs[i].Covers(b);
    }
    if Free(ys, b) {
      var i :| 0 <= i < |ys| && ys[i].Covers(b);
      assert zs[|xs| + i].Covers(b);
    }
  }

  /** Everything in `xs` ends strictly before everything in `ys` starts. */
  ghost predicate Before(xs: seq<Region>, ys: seq<Region>) {
    forall i, j :: 0 <= i < |xs| && 0 <= j < |ys| ==> xs[i].End() < ys[j].ptr
  }

  lemma CanonicalConcat(xs: seq<Region>, ys: seq<Region>)
    requires Canonical(xs) && Canonical(ys) && Before(xs, ys)
    ensures Canonical(xs + ys)
  {
  }

  lemma CanonicalSplit(rs: seq<Region>, k: nat)
    requires Canonical(rs) && k <= |rs|
    ensures Canonical(rs[..k]) && Canonical(rs[k..]) && Before(rs[..k], rs[k..])
    ensures rs == rs[..k] + rs[k..]
  {
  }

  /** Replacing the regions lo..hi by `middle` changes only their bytes. */
  lemma Splice(rs: seq<Region>, lo: nat, hi: nat, middle: seq<Region>)
    requires Canonical(rs) && lo <= hi <= |rs| && Canonical(middle)
    requires Before(rs[..lo], middle) && Before(middle, rs[hi..])
    ensures Canonical(rs[..lo] + middle + rs[hi..])
    ensures forall b :: Free(rs[..lo] + middle + rs[hi..], b)
                   <==> Free(rs[..lo], b) || Free(middle, b) || Free(rs[hi..], b)
    ensures forall b :: Free(rs, b)
                   <==> Free(rs[..lo], b) || Free(rs[lo..hi], b) || Free(rs[hi..], b)
  {
    CanonicalConcat(rs[..lo], middle);
    CanonicalConcat(rs[..lo] + middle, rs[hi..]);
    assert rs == rs[..lo] + rs[lo..hi] + rs[hi..];
    forall b
      ensures Free(rs[..lo] + middle + rs[hi..], b)
         <==> Free(rs[..lo], b) || Free(middle, b) || Free(rs[hi..], b)
      ensures Free(rs, b)
         <==> Free(rs[..lo], b) || Free(rs[lo..hi], b) || Free(rs[hi..], b)
    {
      FreeConcat(rs[..lo], middle, b);
      FreeConcat(rs[..lo] + middle, rs[hi..], b);
      FreeConcat(rs[..lo], rs[lo..hi], b);
      FreeConcat(rs[..lo] + rs[lo..hi], rs[hi..], b);
    }
  }

  lemma FreeSmall(b: int)
    ensures !Free([], b)
    ensures forall r: Region :: Free([r], b) <==> r.Covers(b)
    ensures forall r: Region, q: Region :: Free([r, q], b) <==> r.Covers(b) || q.Covers(b)
  {
    forall r: Region ensures Free([r], b) <==> r.Covers(b) {
      if r.Covers(b) { assert [r][0].Covers(b); }
    }
    forall r: Region, q: Region ensures Free([r, q], b) <==> r.Covers(b) || q.Covers(b) {
      if r.Covers(b) { assert [r, q][0].Covers(b); }
      if q.Covers(b) { assert [r, q][1].Covers(b); }
    }
  }

  lemma OutsideNeighbours(rs: seq<Region>, i: nat, b: int)
    requires Canonical(rs) && i < |rs| && rs[i].Covers(b)
    ensures !Free(rs[..i], b) && !Free(rs[i + 1..], b)
  {
  }

  lemma CarveRemoves(rs: seq<Region>, i: nat, ptr: int, length: int)
    requires Canonical(rs) && i < |rs| && length > 0
    requires rs[i].ptr <= ptr && ptr + length <= rs[i].End()
    ensures Removed(rs, ptr, length, Carve(rs, i, ptr, length))
  {
    var rs' := Carve(rs, i, ptr, length);
    var prefix := Region(rs[i].ptr, ptr - rs[i].ptr);
    var suffix := Region(ptr + length, rs[i].End() - (ptr + length));
    var middle := (if prefix.length != 0 then [prefix] else []) + (if suffix.length != 0 then [suffix] else []);
    assert rs' == rs[..i] + middle + rs[i + 1..];
    Splice(rs, i, i + 1, middle);
    assert rs[i..i + 1] == [rs[i]];
    forall b ensures Free(rs', b) <==> Free(rs, b) && !(ptr <= b < ptr + length) {
      FreeSmall(b);
      FreeConcat(if prefix.length != 0 then [prefix] else [], if suffix.length != 0 then [suffix] else [], b);
      if rs[i].Covers(b) { OutsideNeighbours(rs, i, b); }
    }
  }

  /** The list with [ptr, ptr + length) joined in before position `index`. */
  function Join(rs: seq<Region>, index: nat, ptr: int, length: int): seq<Region>
    requires index <= |rs|
  {
    var end := ptr + length;
    var joinsPrevious := index > 0 && rs[index - 1].End() == ptr;
    var joinsNext := index < |rs| && end == rs[index].ptr;
    if joinsPrevious && joinsNext then
      rs[..index - 1] + [Region(rs[index - 1].ptr, rs[index - 1].length + length + rs[index].length)] + rs[index + 1..]
    else if joinsPrevious then rs[index - 1 := Region(rs[index - 1].ptr, rs[index - 1].length + length)]
    else if joinsNext then rs[index := Region(ptr, rs[index].length + length)]
    else rs[..index] + [Region(ptr, length)] + rs[index..]
  }

  /** Join as one splice: `middle` replaces the neighbours it touches. */
  lemma JoinIsSplice(rs: seq<Region>, index: nat, ptr: int, length: int) returns (lo: nat, hi: nat, middle: Region)
    requires index <= |rs|
    ensures lo <= index <= hi <= |rs| && lo + 1 >= index && hi <= index + 1
    ensures lo < index <==> index > 0 && rs[index - 1].End() == ptr
    ensures hi > index <==> index < |rs| && ptr + length == rs[index].ptr
    ensures middle.ptr == if lo < index then rs[lo].ptr else ptr
    ensures middle.End() == if index < hi then rs[index].End() else ptr + length
    ensures Join(rs, index, ptr, length) == rs[..lo] + [middle] + rs[hi..]
  {
    lo := if index > 0 && rs[index - 1].End() == ptr then index - 1 else index;
    hi := if index < |rs| && ptr + length == rs[index].ptr then index + 1 else index;
    var start := if lo < index then rs[lo].ptr else ptr;
    middle := Region(start, (if index < hi then rs[index].End() else ptr + length) - start);
  }

  lemma JoinSeparated(rs: seq<Region>, index: nat, ptr: int, length: int, lo: nat, hi: nat, middle: Region)
    requires Canonical(rs) && ValidRegion(ptr, length)
    requires lo <= index <= hi <= |rs| && lo + 1 >= index && hi <= index + 1
    requires forall j :: 0 <= j < index ==> rs[j].End() <= ptr
    requires forall j :: index <= j < |rs| ==> ptr + length <= rs[j].ptr
    requires lo < index <==> index > 0 && rs[index - 1].End() == ptr
    requires hi > index <==> index < |rs| && ptr + length == rs[index].ptr
    requires middle.ptr == if lo < index then rs[lo].ptr else ptr
    requires middle.End() == if index < hi then rs[index].End() else ptr + length
    ensures Canonical([middle])
    ensures Before(rs[..lo], [middle]) && Before([middle], rs[hi..])
  {
    forall j | 0 <= j < lo ensures rs[j].End() < middle.ptr {
      assert lo < index ==> rs[j].End() < rs[lo].ptr;
      assert lo == index && j < index - 1 ==> rs[j].End() < rs[index - 1].ptr;
    }
    forall j | hi <= j < |rs| ensures middle.End() < rs[j].ptr {
      assert hi > index ==> rs[index].End() < rs[j].ptr;
      assert hi == index && j > index ==> rs[index].End() < rs[j].ptr;
    }
  }

  lemma JoinAdds(rs: seq<Region>, index: nat, ptr: int, length: int)
    requires Canonical(rs) && index <= |rs| && ValidRegion(ptr, length)
    requires forall j :: 0 <= j < index ==> rs[j].End() <= ptr
    requires forall j :: index <= j < |rs| ==> ptr + length <= rs[j].ptr
    ensures Added(rs, ptr, length, Join(rs, index, ptr, length))
  {
    var lo, hi, middle := JoinIsSplice(rs, index, ptr, length);
    JoinSeparated(rs, index, ptr, length, lo, hi, middle);
    SpliceAdds(rs, index, ptr, length, lo, hi, middle);
  }

  lemma SpliceAdds(rs: seq<Region>, index: nat, ptr: int, length: int, lo: nat, hi: nat, middle: Region)
    requires Canonical(rs) && length > 0 && Canonical([middle])
    requires lo <= index <= hi <= |rs| && lo + 1 >= index && hi <= index + 1
    requires Before(rs[..lo], [middle]) && Before([middle], rs[hi..])
    requires lo < index ==> rs[lo].End() == ptr
    requires hi > index ==> ptr + length == rs[index].ptr
    requires middle.ptr == if lo < index then rs[lo].ptr else ptr
    requires middle.End() == if index < hi then rs[index].End() else ptr + length
    ensures Added(rs, ptr, length, rs[..lo] + [middle] + rs[hi..])
  {
    Splice(rs, lo, hi, [middle]);
    forall b ensures Free([middle], b) <==> Free(rs[lo..hi], b) || ptr <= b < ptr + length {
      JoinBytes(rs, index, ptr, length, lo, hi, middle, b);
    }
  }

  lemma JoinBytes(rs: seq<Region>, index: nat, ptr: int, length: int, lo: nat, hi: nat, middle: Region, b: int)
    requires index <= |rs| && lo <= index <= hi <= |rs| && lo + 1 >= index && hi <= index + 1 && length > 0
    requires lo < index ==> rs[lo].End() == ptr && rs[lo].length > 0
    requires hi > index ==> ptr + length == rs[index].ptr && rs[index].length > 0
    requires middle.ptr == if lo < index then rs[lo].ptr else ptr
    requires middle.End() == if index < hi then rs[index].End() else ptr + length
    ensures Free([middle], b) <==> Free(rs[lo..hi], b) || ptr <= b < ptr + length
  {
    var left := if lo < index then [rs[lo]] else [];
    var right := if index < hi then [rs[index]] else [];
    assert rs[lo..hi] == left + right;
    FreeSmall(b);
    FreeConcat(left, right, b);
  }

  // ---------------------------------------------------------------------
  // Heap states and what each operation does to them

  datatype HeapState = HeapState(regions: seq<Region>, layoutBase: Option<int>, layoutEnd: Option<int>,
                                 allocationCount: nat, allocationHash: nat)

  datatype Outcome =
    | Done                              // manage and drainTo returned
    | Allocated(ptr: int, length: int)  // tryAlloc and claim returned a range
    | Refused                           // tryAlloc and claim returned undefined
    | Invalid                           // an argument failed validation
    | Overlap                           // manage and drainTo threw

  const EmptyHeap := HeapState([], None, None, 0, HASH_SEED)

  ghost predicate WellFormed(h: HeapState) {
    && Canonical(h.regions)
    && (h.regions != [] ==> h.layoutBase.Some?)
    && (h.layoutBase.Some? <==> h.layoutEnd.Some?)
  }

  function Xor(a: nat, b: nat): nat {
    if a == 0 && b == 0 then 0 else (a % 2 + b % 2) % 2 + 2 * Xor(a / 2, b / 2)
  }

  /** FNV step over the requested size, wrapped to 64 bits. */
  function HashStep(hash: nat, size: nat): nat {
    Xor(hash, size) * HASH_PRIME % HASH_MODULUS
  }

  datatype Signature = Signature(offset: int, count: nat, hash: nat)

  function LayoutSignature(h: HeapState): Signature {
    var offset := match h.layoutBase
      case None => 0
      case Some(base) => (if h.layoutEnd.Some? then h.layoutEnd.value else base) - base;
    Signature(offset, h.allocationCount, h.allocationHash)
  }

  ghost predicate Touches(rs: seq<Region>, ptr: int, length: int) {
    exists b :: ptr <= b < ptr + length && Free(rs, b)
  }

  ghost predicate ManageStep(h: HeapState, ptr: int, length: int, h': HeapState, out: Outcome) {
    if !ValidRegion(ptr, length) then out == Invalid && h' == h
    else if Touches(h.regions, ptr, length) then out == Overlap && h' == h
    else
      && out == Done
      && Added(h.regions, ptr, length, h'.regions)
      && h' == h.(regions := h'.regions,
                  layoutBase := if h.layoutBase.None? then Some(ptr) else h.layoutBase,
                  layoutEnd := if h.layoutBase.None? then Some(ptr) else h.layoutEnd)
  }

  /** An aligned address from which `size` bytes are free. */
  ghost predicate Fits(rs: seq<Region>, size: int, p: int) {
    p % ALIGNMENT == 0 && RangeFree(rs, p, size)
  }

  function RoundUp(n: int): int { (n + ALIGNMENT - 1) / ALIGNMENT * ALIGNMENT }

  /** The range a successful allocation returns: the extreme fitting address, and
      a length that reaches the rounded size or the end of the free run. */
  ghost predicate BestFit(rs: seq<Region>, size: int, longTerm: bool, ptr: int, length: int) {
    && Fits(rs, size, ptr)
    && (forall p :: Fits(rs, size, p) ==> if longTerm then p <= ptr else ptr <= p)
    && size <= length < size + ALIGNMENT
    && RangeFree(rs, ptr, length)
    && (longTerm ==> !Free(rs, ptr + length))
    && (!longTerm ==> length <= RoundUp(size) && (length < RoundUp(size) ==> !Free(rs, ptr + length)))
  }

  ghost predicate AllocStep(h: HeapState, size: int, longTerm: bool, h': HeapState, out: Outcome) {
    if !ValidSize(size) then out == Invalid && h' == h
    else if !exists p :: Fits(h.regions, size, p) then out == Refused && h' == h
    else
      && out.Allocated?
      && BestFit(h.regions, size, longTerm, out.ptr, out.length)
      && Removed(h.regions, out.ptr, out.length, h'.regions)
      && h.layoutEnd.Some?
      && h' == h.(regions := h'.regions,
                  layoutEnd := Some(if h.layoutEnd.value < out.ptr + size then out.ptr + size else h.layoutEnd.value),
                  allocationCount := h.allocationCount + 1,
                  allocationHash := HashStep(h.allocationHash, size))
  }

  ghost predicate ClaimStep(h: HeapState, ptr: int, length: int, h': HeapState, out: Outcome) {
    if !ValidRegion(ptr, length) then out == Invalid && h' == h
    else if !RangeFree(h.regions, ptr, length) then out == Refused && h' == h
    else
      && out == Allocated(ptr, length)
      && Removed(h.regions, ptr, length, h'.regions)
      && h' == h.(regions := h'.regions)
  }

  ghost predicate Collide(xs: seq<Region>, ys: seq<Region>) {
    exists b :: Free(xs, b) && Free(ys, b)
  }

  ghost predicate Union(xs: seq<Region>, ys: seq<Region>, zs: seq<Region>) {
    Canonical(zs) && forall b :: Free(zs, b) <==> Free(xs, b) || Free(ys, b)
  }

  ghost predicate DrainStep(source: HeapState, destination: HeapState,
                            source': HeapState, destination': HeapState, out: Outcome)
  {
    if Collide(source.regions, destination.regions)
    then out == Overlap && source' == source && destination' == destination
    else
      var merged := destination'.regions;
      var rebased := destination.layoutBase.None? && merged != [];
      && out == Done
      && source' == source.(regions := [])
      && Union(source.regions, destination.regions, merged)
      && destination' == destination.(regions := merged,
                                      layoutBase := if rebased then Some(merged[0].ptr) else destination.layoutBase,
                                      layoutEnd := if rebased then Some(merged[0].ptr) else destination.layoutEnd)
  }

  // ---------------------------------------------------------------------
  // The heap object

  /** No aligned range of `size` bytes inside one region. */
  ghost predicate NoFitIn(region: Region, size: int) {
    forall p {:trigger p % ALIGNMENT} :: p % ALIGNMENT == 0 && region.ptr <= p ==> region.End() < p + size
  }

  function AlignUp(p: int): int { p + (ALIGNMENT - p % ALIGNMENT) % ALIGNMENT }

  function AlignDown(p: int): int { p / ALIGNMENT * ALIGNMENT }

  lemma AlignUpIsLeast(p: int, q: int)
    requires q % ALIGNMENT == 0
    ensures AlignUp(p) % ALIGNMENT == 0 && p <= AlignUp(p) < p + ALIGNMENT
    ensures p <= q ==> AlignUp(p) <= q
  {
    var k, r, m := p / ALIGNMENT, p % ALIGNMENT, q / ALIGNMENT;
    assert p == ALIGNMENT * k + r && q == ALIGNMENT * m;
    assert AlignUp(p) == ALIGNMENT * (if r == 0 then k else k + 1);
  }

  lemma AlignDownIsGreatest(p: int, q: int)
    requires q % ALIGNMENT == 0
    ensures AlignDown(p) % ALIGNMENT == 0 && p - ALIGNMENT < AlignDown(p) <= p
    ensures q <= p ==> q <= AlignDown(p)
  {
    var k, m := p / ALIGNMENT, q / ALIGNMENT;
    assert p == ALIGNMENT * k + p % ALIGNMENT && q == ALIGNMENT * m;
  }

  lemma NoFitAnywhere(rs: seq<Region>, size: int)
    requires Canonical(rs) && size > 0
    requires forall i :: 0 <= i < |rs| ==> NoFitIn(rs[i], size)
    ensures !exists p :: Fits(rs, size, p)
  {
    forall p ensures !Fits(rs, size, p) {
      if Fits(rs, size, p) {
        var i := FreeRangeHasRegion(rs, p, size);
      }
    }
  }

  ghost predicate Occurs(origin: seq<nat>, i: int) {
    exists k :: 0 <= k < |origin| && origin[k] == i
  }

  /** Region k of `sorted` is region origin[k] of `rs`, in pointer order. */
  ghost predicate SortedFrom(rs: seq<Region>, sorted: seq<Region>, origin: seq<nat>) {
    && |sorted| == |origin| == |rs|
    && (forall k :: 0 <= k < |sorted| ==> origin[k] < |rs| && sorted[k] == rs[origin[k]])
    && (forall j, k :: 0 <= j < k < |origin| ==> origin[j] != origin[k])
    && (forall i :: 0 <= i < |rs| ==> Occurs(origin, i))
    && (forall j, k :: 0 <= j < k < |sorted| ==> sorted[j].ptr <= sorted[k].ptr)
  }

  function InsertAt<T>(xs: seq<T>, k: nat, x: T): (r: seq<T>)
    requires k <= |xs|
    ensures |r| == |xs| + 1 && r[k] == x
    ensures forall j :: 0 <= j < k ==> r[j] == xs[j]
    ensures forall j :: k < j < |r| ==> r[j] == xs[j - 1]
  {
    xs[..k] + [x] + xs[k..]
  }

  lemma InsertOccurs(origin: seq<nat>, k: nat, n: nat, i: int)
    requires k <= |origin| && (i == n || Occurs(origin, i))
    ensures Occurs(InsertAt(origin, k, n), i)
  {
    var origin' := InsertAt(origin, k, n);
    if i == n {
      assert origin'[k] == i;
    } else {
      var j :| 0 <= j < |origin| && origin[j] == i;
      assert origin'[if j < k then j else j + 1] == i;
    }
  }

  /** Inserting at position k keeps `sorted` a reordering of `rs`, and sorted. */
  lemma InsertSorted(rs: seq<Region>, region: Region, sorted: seq<Region>, origin: seq<nat>, k: nat)
    requires SortedFrom(rs, sorted, origin) && k <= |sorted|
    requires forall j :: 0 <= j < k ==> sorted[j].ptr <= region.ptr
    requires forall j :: k <= j < |sorted| ==> region.ptr <= sorted[j].ptr
    ensures SortedFrom(rs + [region], InsertAt(sorted, k, region), InsertAt(origin, k, |rs|))
  {
    forall i | 0 <= i < |rs| + 1 ensures Occurs(InsertAt(origin, k, |rs|), i) {
      assert i < |rs| ==> Occurs(origin, i);
      InsertOccurs(origin, k, |rs|, i);
    }
  }

  method InsertionPoint(sorted: seq<Region>, ptr: int) returns (k: nat)
    requires forall i, j :: 0 <= i < j < |sorted| ==> sorted[i].ptr <= sorted[j].ptr
    ensures k <= |sorted|
    ensures forall j :: 0 <= j < k ==> sorted[j].ptr <= ptr
    ensures forall j :: k <= j < |sorted| ==> ptr <= sorted[j].ptr
  {
    k := 0;
    while k < |sorted| && sorted[k].ptr <= ptr
      invariant k <= |sorted|
      invariant forall j :: 0 <= j < k ==> sorted[j].ptr <= ptr
    {
      k := k + 1;
    }
  }

  method SortByPtr(rs: seq<Region>) returns (sorted: seq<Region>, ghost origin: seq<nat>)
    ensures SortedFrom(rs, sorted, origin)
  {
    sorted, origin := [], [];
    var n := 0;
    while n < |rs|
      invariant n <= |rs|
      invariant SortedFrom(rs[..n], sorted, origin)
    {
      var k := InsertionPoint(sorted, rs[n].ptr);
      InsertSorted(rs[..n], rs[n], sorted, origin, k);
      assert rs[..n] + [rs[n]] == rs[..n + 1];
      sorted, origin := InsertAt(sorted, k, rs[n]), InsertAt(origin, k, n);
      n := n + 1;
    }
    assert rs[..n] == rs;
  }

  lemma CoveredOnce(rs: seq<Region>, i: int, j: int, b: int)
    requires Canonical(rs) && 0 <= i < |rs| && 0 <= j < |rs| && rs[i].Covers(b) && rs[j].Covers(b)
    ensures i == j
  {
  }

  /** Two different sorted entries covering one byte come from different lists. */
  lemma CommonByte(xs: seq<Region>, ys: seq<Region>, sorted: seq<Region>, origin: seq<nat>, j: nat, k: nat, b: int)
    requires Canonical(xs) && Canonical(ys) && SortedFrom(xs + ys, sorted, origin)
    requires j < k < |sorted| && sorted[j].Covers(b) && sorted[k].Covers(b)
    ensures Free(xs, b) && Free(ys, b)
  {
    var p, q := origin[j], origin[k];
    if p < |xs| && q < |xs| {
      CoveredOnce(xs, p, q, b);
    } else if p >= |xs| && q >= |xs| {
      CoveredOnce(ys, p - |xs|, q - |xs|, b);
    } else {
      var x, y := if p < |xs| then p else q, (if p < |xs| then q else p) - |xs|;
      assert xs[x].Covers(b) && ys[y].Covers(b);
    }
  }

  /** A byte of both lists is covered by two different sorted entries. */
  lemma CollisionInSorted(xs: seq<Region>, ys: seq<Region>, sorted: seq<Region>, origin: seq<nat>, b: int)
    returns (j: nat, k: nat)
    requires SortedFrom(xs + ys, sorted, origin) && Free(xs, b) && Free(ys, b)
    ensures j < |sorted| && k < |sorted| && j != k && sorted[j].Covers(b) && sorted[k].Covers(b)
  {
    var x :| 0 <= x < |xs| && xs[x].Covers(b);
    var y :| 0 <= y < |ys| && ys[y].Covers(b);
    assert Occurs(origin, x) && Occurs(origin, |xs| + y);
    j :| 0 <= j < |origin| && origin[j] == x;
    k :| 0 <= k < |origin| && origin[k] == |xs| + y;
  }

  /** Sorted entries that follow one another without overlap share no byte. */
  lemma NoCommonByte(xs: seq<Region>, ys: seq<Region>, sorted: seq<Region>, origin: seq<nat>)
    requires SortedFrom(xs + ys, sorted, origin)
    requires forall j, k :: 0 <= j < k < |sorted| ==> sorted[j].End() <= sorted[k].ptr
    ensures !Collide(ys, xs)
  {
    forall b ensures !(Free(ys, b) && Free(xs, b)) {
      if Free(ys, b) && Free(xs, b) {
        var j, k := CollisionInSorted(xs, ys, sorted, origin, b);
      }
    }
  }

  lemma SortedSameBytes(xs: seq<Region>, ys: seq<Region>, sorted: seq<Region>, origin: seq<nat>, b: int)
    requires SortedFrom(xs + ys, sorted, origin)
    ensures Free(sorted, b) <==> Free(xs, b) || Free(ys, b)
  {
    FreeConcat(xs, ys, b);
    if Free(sorted, b) {
      var k :| 0 <= k < |sorted| && sorted[k].Covers(b);
      assert (xs + ys)[origin[k]].Covers(b);
    }
    if Free(xs + ys, b) {
      var i :| 0 <= i < |xs + ys| && (xs + ys)[i].Covers(b);
      assert Occurs(origin, i);
      var k :| 0 <= k < |origin| && origin[k] == i;
      assert sorted[k].Covers(b);
    }
  }

  /** One round of the merge loop: extend the last region or start a new one. */
  function AppendRegion(merged: seq<Region>, region: Region): (r: seq<Region>)
    requires Canonical(merged) && ValidRegion(region.ptr, region.length)
    requires merged != [] ==> Last(merged).End() <= region.ptr
    ensures Canonical(r) && r != []
    ensures forall b :: Free(r, b) <==> Free(merged, b) || region.Covers(b)
    ensures Last(r).End() == region.End() && Last(r).ptr <= region.ptr
  {
    JoinAdds(merged, |merged|, region.ptr, region.length);
    Join(merged, |merged|, region.ptr, region.length)
  }

  /** The address the search tries in a region. */
  function Candidate(region: Region, size: int, longTerm: bool): int {
    if longTerm then AlignDown(region.End() - size) else AlignUp(region.ptr)
  }

  function AllocLength(region: Region, size: int, longTerm: bool): int {
    var available := region.End() - Candidate(region, size, longTerm);
    if !longTerm && RoundUp(size) <= available then RoundUp(size) else available
  }

  /** Every region the search has passed has no room. */
  ghost predicate RejectedBeyond(rs: seq<Region>, size: int, longTerm: bool, index: int) {
    forall j :: 0 <= j < |rs| && (if longTerm then index < j else j < index) ==> NoFitIn(rs[j], size)
  }

  lemma RejectedRegion(region: Region, size: int, longTerm: bool)
    requires ValidRegion(region.ptr, region.length) && ValidSize(size)
    requires var ptr := Candidate(region, size, longTerm); ptr < region.ptr || ptr + size > region.End()
    ensures NoFitIn(region, size)
  {
    forall p {:trigger p % ALIGNMENT} | p % ALIGNMENT == 0 && region.ptr <= p ensures region.End() < p + size {
      if longTerm { AlignDownIsGreatest(region.End() - size, p); } else { AlignUpIsLeast(region.ptr, p); }
    }
  }

  lemma AcceptedRegion(rs: seq<Region>, i: nat, size: int, longTerm: bool, ptr: int, length: int)
    requires Canonical(rs) && i < |rs| && ValidSize(size)
    requires ptr == Candidate(rs[i], size, longTerm) && length == AllocLength(rs[i], size, longTerm)
    requires rs[i].ptr <= ptr && ptr + size <= rs[i].End()
    requires RejectedBeyond(rs, size, longTerm, i)
    ensures BestFit(rs, size, longTerm, ptr, length)
    ensures ptr + length <= rs[i].End()
  {
    if longTerm { AlignDownIsGreatest(rs[i].End() - size, 0); } else { AlignUpIsLeast(rs[i].ptr, 0); }
    RegionIsFree(rs, i, ptr, size);
    RegionIsFree(rs, i, ptr, length);
    EndIsNotFree(rs, i);
    forall p | Fits(rs, size, p) ensures if longTerm then p <= ptr else ptr <= p {
      var j := FreeRangeHasRegion(rs, p, size);
      if longTerm { AlignDownIsGreatest(rs[i].End() - size, p); } else { AlignUpIsLeast(rs[i].ptr, p); }
    }
  }

  /** The heap after taking [ptr, ptr + length) out of region i for a request of `size`. */
  function AfterAlloc(h: HeapState, i: nat, size: int, ptr: int, length: int): HeapState
    requires i < |h.regions| && ValidSize(size)
  {
    var requestedEnd := ptr + size;
    h.(regions := Carve(h.regions, i, ptr, length),
       layoutEnd := Some(if h.layoutEnd.Some? && h.layoutEnd.value >= requestedEnd then h.layoutEnd.value else requestedEnd),
       allocationCount := h.allocationCount + 1,
       allocationHash := HashStep(h.allocationHash, size))
  }

  lemma AcceptedAlloc(h: HeapState, i: nat, size: int, longTerm: bool)
    requires WellFormed(h) && i < |h.regions| && ValidSize(size)
    requires RejectedBeyond(h.regions, size, longTerm, i)
    requires h.regions[i].ptr <= Candidate(h.regions[i], size, longTerm)
    requires Candidate(h.regions[i], size, longTerm) + size <= h.regions[i].End()
    ensures
      var ptr, length := Candidate(h.regions[i], size, longTerm), AllocLength(h.regions[i], size, longTerm);
      && AllocStep(h, size, longTerm, AfterAlloc(h, i, size, ptr, length), Allocated(ptr, length))
      && WellFormed(AfterAlloc(h, i, size, ptr, length))
  {
    var ptr, length := Candidate(h.regions[i], size, longTerm), AllocLength(h.regions[i], size, longTerm);
    AcceptedRegion(h.regions, i, size, longTerm, ptr, length);
    CarveRemoves(h.regions, i, ptr, length);
  }

  lemma NothingFits(h: HeapState, size: int, longTerm: bool, index: int)
    requires WellFormed(h) && ValidSize(size)
    requires index == if longTerm then -1 else |h.regions|
    requires RejectedBeyond(h.regions, size, longTerm, index)
    ensures AllocStep(h, size, longTerm, h, Refused)
  {
    NoFitAnywhere(h.regions, size);
  }

  /** `merged` is the coalesced form of the first k sorted regions. */
  ghost predicate MergedPrefix(combined: seq<Region>, merged: seq<Region>, k: nat) {
    && k <= |combined|
    && Canonical(merged)
    && (merged == [] <==> k == 0)
    && (forall b :: Free(merged, b) <==> Free(combined[..k], b))
    && (forall i, j :: 0 <= i < j < k ==> combined[i].End() <= combined[j].ptr)
    && (k > 0 ==> Last(merged).ptr <= combined[k - 1].ptr)
    && (k > 0 ==> forall j :: 0 <= j < k ==> combined[j].End() <= Last(merged).End())
  }

  function Last(rs: seq<Region>): Region
    requires rs != []
  {
    rs[|rs| - 1]
  }

  lemma MergeNext(xs: seq<Region>, ys: seq<Region>, combined: seq<Region>, origin: seq<nat>, merged: seq<Region>, k: nat)
    requires Canonical(xs) && Canonical(ys) && SortedFrom(xs + ys, combined, origin)
    requires k < |combined| && MergedPrefix(combined, merged, k)
    requires k > 0 ==> Last(merged).End() <= combined[k].ptr
    ensures ValidRegion(combined[k].ptr, combined[k].length)
    ensures MergedPrefix(combined, AppendRegion(merged, combined[k]), k + 1)
  {
    assert combined[k] == (xs + ys)[origin[k]];
    PrefixFree(combined, k);
  }

  lemma MergeClash(xs: seq<Region>, ys: seq<Region>, combined: seq<Region>, origin: seq<nat>, merged: seq<Region>, k: nat)
    requires Canonical(xs) && Canonical(ys) && SortedFrom(xs + ys, combined, origin)
    requires 0 < k < |combined| && MergedPrefix(combined, merged, k)
    requires Last(merged).End() > combined[k].ptr
    ensures Collide(ys, xs)
  {
    var b := combined[k].ptr;
    assert combined[k] == (xs + ys)[origin[k]];
    assert combined[k - 1].ptr <= b;
    assert merged[|merged| - 1].Covers(b);
    assert Free(merged, b);
    assert Free(combined[..k], b);
    var j :| 0 <= j < k && combined[..k][j].Covers(b);
    CommonByte(xs, ys, combined, origin, j, k, b);
  }

  lemma MergeDone(xs: seq<Region>, ys: seq<Region>, combined: seq<Region>, origin: seq<nat>, merged: seq<Region>)
    requires SortedFrom(xs + ys, combined, origin) && MergedPrefix(combined, merged, |combined|)
    ensures !Collide(ys, xs) && Union(ys, xs, merged)
  {
    NoCommonByte(xs, ys, combined, origin);
    assert combined[..|combined|] == combined;
    forall b ensures Free(merged, b) <==> Free(ys, b) || Free(xs, b) {
      SortedSameBytes(xs, ys, combined, origin, b);
    }
  }

  /** Concatenate, sort, and merge touching regions; None when two overlap. */
  method MergeRegions(xs: seq<Region>, ys: seq<Region>) returns (r: Option<seq<Region>>)
    requires Canonical(xs) && Canonical(ys)
    ensures r.None? <==> Collide(ys, xs)
    ensures r.Some? ==> Union(ys, xs, r.value)
  {
    var combined, origin := SortByPtr(xs + ys);
    var merged: seq<Region> := [];
    var k := 0;
    while k < |combined|
      invariant k <= |combined|
      invariant MergedPrefix(combined, merged, k)
    {
      if k > 0 && Last(merged).End() > combined[k].ptr {
        MergeClash(xs, ys, combined, origin, merged, k);
        return None;
      }
      MergeNext(xs, ys, combined, origin, merged, k);
      merged := AppendRegion(merged, combined[k]);
      k := k + 1;
    }
    MergeDone(xs, ys, combined, origin, merged);
    r := Some(merged);
  }

  lemma PrefixFree(rs: seq<Region>, k: nat)
    requires k < |rs|
    ensures forall b :: Free(rs[..k + 1], b) <==> Free(rs[..k], b) || rs[k].Covers(b)
  {
    assert rs[..k + 1] == rs[..k] + [rs[k]];
    forall b ensures Free(rs[..k + 1], b) <==> Free(rs[..k], b) || rs[k].Covers(b) {
      FreeConcat(rs[..k], [rs[k]], b);
      FreeSmall(b);
    }
  }

  class Heap {
    var regions: seq<Region>
    var layoutBase: Option<int>
    var layoutEnd: Option<int>
    var allocationCount: nat
    var allocationHash: nat

    function View(): HeapState
      reads this
    {
      HeapState(regions, layoutBase, layoutEnd, allocationCount, allocationHash)
    }

    ghost predicate Valid()
      reads this
    {
      WellFormed(View())
    }

    constructor ()
      ensures Valid() && View() == EmptyHeap
    {
      regions, layoutBase, layoutEnd := [], None, None;
      allocationCount, allocationHash := 0, HASH_SEED;
    }

    method Manage(ptr: int, length: int) returns (out: Outcome)
      requires Valid()
      modifies this
      ensures Valid()
      ensures ManageStep(old(View()), ptr, length, View(), out)
    {
      if !ValidRegion(ptr, length) { return Invalid; }
      if layoutBase.None? {
        layoutBase, layoutEnd := Some(ptr), Some(ptr);
      }
      var index := 0;
      while index < |regions| && regions[index].ptr < ptr
        invariant 0 <= index <= |regions|
        invariant forall j :: 0 <= j < index ==> regions[j].ptr < ptr
      {
        index := index + 1;
      }
      if index > 0 && regions[index - 1].End() > ptr {
        assert regions[index - 1].Covers(ptr);
        assert Free(regions, ptr);
        return Overlap;
      }
      if index < |regions| && ptr + length > regions[index].ptr {
        assert regions[index].Covers(regions[index].ptr);
        assert Free(regions, regions[index].ptr);
        return Overlap;
      }
      assert !Touches(regions, ptr, length) by {
        forall b | ptr <= b < ptr + length ensures !Free(regions, b) {
          forall j | 0 <= j < |regions| ensures !regions[j].Covers(b) {
          }
        }
      }
      JoinAdds(regions, index, ptr, length);
      regions := Join(regions, index, ptr, length);
      out := Done;
    }

    method TryAlloc(size: int, longTerm: bool) returns (out: Outcome)
      requires Valid()
      modifies this
      ensures Valid()
      ensures AllocStep(old(View()), size, longTerm, View(), out)
    {
      if !ValidSize(size) { return Invalid; }
      ghost var h := View();
      var index := if longTerm then |regions| - 1 else 0;
      var end := if longTerm then -1 else |regions|;
      while index != end
        invariant if longTerm then -1 <= index < |regions| else 0 <= index <= |regions|
        invariant RejectedBeyond(regions, size, longTerm, index)
        invariant View() == h
        decreases if longTerm then index + 1 else |regions| - index
      {
        var region := regions[index];
        var ptr := Candidate(region, size, longTerm);
        if ptr < region.ptr || ptr + size > MAX_SAFE || ptr + size > region.End() {
          RejectedRegion(region, size, longTerm);
          index := if longTerm then index - 1 else index + 1;
        } else {
          var length := AllocLength(region, size, longTerm);
          AcceptedAlloc(h, index, size, longTerm);
          Take(index, size, ptr, length);
          return Allocated(ptr, length);
        }
      }
      NothingFits(h, size, longTerm, index);
      return Refused;
    }

    /** Cut an allocation out of a region and record it in the layout. */
    method Take(index: nat, size: int, ptr: int, length: int)
      requires index < |regions| && ValidSize(size)
      modifies this
      ensures View() == AfterAlloc(old(View()), index, size, ptr, length)
    {
      var requestedEnd := ptr + size;
      regions := Carve(regions, index, ptr, length);
      layoutEnd := Some(if layoutEnd.Some? && layoutEnd.value >= requestedEnd then layoutEnd.value else requestedEnd);
      allocationCount := allocationCount + 1;
      allocationHash := HashStep(allocationHash, size);
    }

    method Claim(ptr: int, length: int) returns (out: Outcome)
      requires Valid()
      modifies this
      ensures Valid()
      ensures ClaimStep(old(View()), ptr, length, View(), out)
    {
      if !ValidRegion(ptr, length) { return Invalid; }
      var end := ptr + length;
      var index := 0;
      while index < |regions|
        invariant 0 <= index <= |regions|
        invariant forall j :: 0 <= j < index ==> regions[j].End() <= ptr
        invariant View() == old(View())
      {
        var region := regions[index];
        if ptr < region.ptr {
          assert !Free(regions, ptr);
          return Refused;
        }
        if ptr >= region.End() {
          index := index + 1;
        } else {
          if end > region.End() {
            EndIsNotFree(regions, index);
            return Refused;
          }
          RegionIsFree(regions, index, ptr, length);
          CarveRemoves(regions, index, ptr, length);
          regions := Carve(regions, index, ptr, length);
          return Allocated(ptr, length);
        }
      }
      assert !Free(regions, ptr);
      return Refused;
    }

    /** None stands for the validation error. */
    method Contains(ptr: int, length: int) returns (found: Option<bool>)
      requires Valid()
      ensures found.Some? <==> ValidRegion(ptr, length)
      ensures found.Some? ==> (found.value <==> RangeFree(regions, ptr, length))
    {
      if !ValidRegion(ptr, length) { return None; }
      var i := 0;
      while i < |regions|
        invariant 0 <= i <= |regions|
        invariant forall j :: 0 <= j < i ==> !(regions[j].ptr <= ptr && ptr + length <= regions[j].End())
      {
        if regions[i].ptr <= ptr && ptr + length <= regions[i].End() {
          RegionIsFree(regions, i, ptr, length);
          return Some(true);
        }
        i := i + 1;
      }
      if RangeFree(regions, ptr, length) {
        var k := FreeRangeHasRegion(regions, ptr, length);
      }
      return Some(false);
    }

    method DrainTo(destination: Heap) returns (out: Outcome)
      requires Valid() && destination.Valid()
      modifies this, destination
      ensures Valid() && destination.Valid()
      ensures destination == this ==> out == Done && View() == old(View())
      ensures destination != this ==>
                DrainStep(old(View()), old(destination.View()), View(), destination.View(), out)
    {
      if destination == this { return Done; }
      var merged := MergeRegions(destination.regions, regions);
      if merged.None? { return Overlap; }
      destination.regions := merged.value;
      if destination.layoutBase.None? && merged.value != [] {
        destination.layoutBase := Some(merged.value[0].ptr);
        destination.layoutEnd := Some(merged.value[0].ptr);
      }
      regions := [];
      out := Done;
    }
  }
}
