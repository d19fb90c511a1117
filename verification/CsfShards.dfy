/** Slicing compressed scale planes to a shard, fusing two projections, and the
    extents of a tensor-parallel partition (src/csf_codec.ts). */
module CsfShards {
  import opened Wrappers
  import TokenChunks
  import opened CsfCodec

  // ---------------------------------------------------------------------
  // Writing words

  function Pow2(n: nat): nat { if n == 0 then 1 else 2 * Pow2(n - 1) }

  /** Bitwise or of two n-bit numbers. */
  function BitOr(a: nat, b: nat, n: nat): (r: nat)
    ensures r < Pow2(n)
  {
    if n == 0 then 0 else 2 * BitOr(a / 2, b / 2, n - 1) + (if a % 2 == 1 || b % 2 == 1 then 1 else 0)
  }

  lemma {:induction false} OrZero(a: nat, n: nat)
    requires a < Pow2(n)
    ensures BitOr(a, 0, n) == a
  {
    if n > 0 { OrZero(a / 2, n - 1); }
  }

  lemma ByteWidth()
    ensures Pow2(8) == 256
  {
    assert Pow2(2) == 4;
    assert Pow2(4) == 16;
    assert Pow2(6) == 64;
  }

  /** The value byte, or-ed with whatever of the position exceeds 24 bits. */
  function TopByte(entry: Entry): Byte {
    ByteWidth();
    BitOr(entry.value, entry.position / POSITION_LIMIT % 256, 8)
  }

  function EncodedByte(entry: Entry, j: nat): Byte
    requires j < 4
  {
    if j == 0 then entry.position % 256
    else if j == 1 then entry.position / 256 % 256
    else if j == 2 then entry.position / 65536 % 256
    else TopByte(entry)
  }

  function Word(entry: Entry): (bytes: seq<Byte>)
    ensures |bytes| == 4
  {
    [EncodedByte(entry, 0), EncodedByte(entry, 1), EncodedByte(entry, 2), EncodedByte(entry, 3)]
  }

  /** The exception plane of the first n replacements, as the shifts and ors write it. */
  function EncodeFirst(entries: seq<Entry>, n: nat): (bytes: seq<Byte>)
    requires n <= |entries|
    ensures |bytes| == 4 * n
  {
    if n == 0 then [] else EncodeFirst(entries, n - 1) + Word(entries[n - 1])
  }

  function Encode(entries: seq<Entry>): (bytes: seq<Byte>)
    ensures |bytes| == 4 * |entries|
  {
    EncodeFirst(entries, |entries|)
  }

  lemma {:induction false} EncodedAt(entries: seq<Entry>, n: nat, k: nat)
    requires n <= |entries| && k < 4 * n
    ensures EncodeFirst(entries, n)[k] == EncodedByte(entries[k / 4], k % 4)
  {
    if k < 4 * (n - 1) { EncodedAt(entries, n - 1, k); }
  }

  function Truncated(entry: Entry): Entry {
    Entry(entry.position % POSITION_LIMIT, TopByte(entry))
  }

  lemma LowBytes(position: nat)
    ensures position % POSITION_LIMIT == position % 256 + 256 * (position / 256 % 256) + 65536 * (position / 65536 % 256)
  {
    var q1 := position / 256;
    var q2 := q1 / 256;
    var q3 := q2 / 256;
    assert position == 65536 * q2 + (256 * (q1 % 256) + position % 256);
    assert position / 65536 == q2;
    assert position == POSITION_LIMIT * q3 + (65536 * (q2 % 256) + 256 * (q1 % 256) + position % 256);
  }

  lemma EncodedEntry(entries: seq<Entry>, i: nat)
    requires i < |entries|
    ensures ReadEntry(Encode(entries), i) == Truncated(entries[i])
  {
    LowBytes(entries[i].position);
    EncodedAt(entries, |entries|, 4 * i);
    EncodedAt(entries, |entries|, 4 * i + 1);
    EncodedAt(entries, |entries|, 4 * i + 2);
    EncodedAt(entries, |entries|, 4 * i + 3);
  }

  lemma TruncatedExact(entry: Entry)
    ensures Truncated(entry) == entry <==> entry.position < POSITION_LIMIT
  {
    ByteWidth();
    OrZero(entry.value, 8);
  }

  ghost predicate Fits(entries: seq<Entry>) {
    forall i {:trigger entries[i]} :: 0 <= i < |entries| ==> entries[i].position < POSITION_LIMIT
  }

  /** Written words read back exactly iff every position fits in 24 bits. */
  lemma EncodeExact(entries: seq<Entry>)
    ensures Entries(Encode(entries)) == entries <==> Fits(entries)
  {
    var read := Entries(Encode(entries));
    forall i {:trigger entries[i]} | 0 <= i < |entries|
      ensures read[i] == entries[i] <==> entries[i].position < POSITION_LIMIT
    {
      EncodedEntry(entries, i);
      TruncatedExact(entries[i]);
    }
  }

  // ---------------------------------------------------------------------
  // Slices

  datatype Slice = Slice(r0: int, r1: int, c0: int, c1: int, outRows: Option<int>, outColumns: Option<int>)

  function SliceRows(s: Slice): int { s.r1 - s.r0 }

  function SliceColumns(s: Slice): int { s.c1 - s.c0 }

  function OutRows(s: Slice): int { if s.outRows.Some? then s.outRows.value else SliceRows(s) }

  function OutColumns(s: Slice): int { if s.outColumns.Some? then s.outColumns.value else SliceColumns(s) }

  predicate GoodSlice(s: Slice, rows: int, columns: int) {
    && 0 <= s.r0 < s.r1 <= rows && s.r0 % 16 == 0 && s.r1 % 16 == 0
    && 0 <= s.c0 < s.c1 <= columns && s.c0 % 2 == 0 && s.c1 % 2 == 0
    && OutRows(s) >= SliceRows(s) && OutRows(s) % 16 == 0
    && OutColumns(s) >= SliceColumns(s) && OutColumns(s) % 2 == 0
  }

  function SlicedBase(fixedPlane: seq<Byte>, columns: nat, s: Slice, row: nat): Byte
    requires 0 <= s.r0
  {
    if row < SliceRows(s) then Base(fixedPlane, columns, s.r0 + row) else PADDED_SCALE_CODE
  }

  function SlicedPair(fixedPlane: seq<Byte>, columns: nat, s: Slice, row: nat, c: nat): Byte
    requires 0 <= s.r0 && 0 <= s.c0
  {
    if row < SliceRows(s) && c < SliceColumns(s) / 2 then At(fixedPlane, PackedIndex(s.r0 + row, s.c0 / 2 + c, columns)) else 0
  }

  /** Byte o of a slab of the sliced plane. */
  function SlabByte(fixedPlane: seq<Byte>, columns: nat, s: Slice, slab: nat, o: nat): Byte
    requires 0 <= s.r0 && 0 <= s.c0 && OutColumns(s) >= 2
  {
    if o < 16 then SlicedBase(fixedPlane, columns, s, slab * 16 + o)
    else
      var selectors := OutColumns(s) / 2;
      SlicedPair(fixedPlane, columns, s, slab * 16 + RowOf(o - 16, selectors), ColOf(o - 16, selectors))
  }

  function SlicedByte(fixedPlane: seq<Byte>, columns: nat, s: Slice, k: nat): Byte
    requires 0 <= s.r0 && 0 <= s.c0 && OutColumns(s) >= 2
  {
    SlabByte(fixedPlane, columns, s, RowOf(k, Stride(OutColumns(s))), ColOf(k, Stride(OutColumns(s))))
  }

  function SlicedFixed(fixedPlane: seq<Byte>, columns: nat, s: Slice): (f: seq<Byte>)
    requires 0 <= s.r0 && 0 <= s.c0 && OutColumns(s) >= 2 && OutRows(s) >= 0
    ensures |f| == FixedLength(OutRows(s), OutColumns(s))
    ensures forall k {:trigger f[k]} :: 0 <= k < |f| ==> f[k] == SlicedByte(fixedPlane, columns, s, k)
  {
    seq(FixedLength(OutRows(s), OutColumns(s)), k requires 0 <= k < FixedLength(OutRows(s), OutColumns(s)) =>
      SlicedByte(fixedPlane, columns, s, k))
  }

  lemma SlicedBaseAt(fixedPlane: seq<Byte>, rows: nat, columns: nat, s: Slice, row: nat)
    requires GoodSlice(s, rows, columns) && row < OutRows(s)
    ensures Base(SlicedFixed(fixedPlane, columns, s), OutColumns(s), row) == SlicedBase(fixedPlane, columns, s, row)
  {
    var out := OutColumns(s);
    IndexBelow(row, 0, OutRows(s), out);
    FlatSplits(row / 16, row % 16, Stride(out));
  }

  lemma SlicedPairAt(fixedPlane: seq<Byte>, rows: nat, columns: nat, s: Slice, row: nat, c: nat)
    requires GoodSlice(s, rows, columns) && row < OutRows(s) && c < OutColumns(s) / 2
    ensures At(SlicedFixed(fixedPlane, columns, s), PackedIndex(row, c, OutColumns(s))) == SlicedPair(fixedPlane, columns, s, row, c)
  {
    var out := OutColumns(s);
    IndexBelow(row, c, OutRows(s), out);
    PackedOffset(row % 16, c, out);
    FlatSplits(row / 16, 16 + Flat(row % 16, c, out / 2), Stride(out));
    FlatSplits(row % 16, c, out / 2);
  }

  /** Where a replacement lands in the slice, if it does. */
  function Rebased(s: Slice, columns: nat, position: nat): Option<nat>
    requires columns > 0 && OutColumns(s) >= 0
  {
    var row, col := position / columns, position % columns;
    if s.r0 <= row < s.r1 && s.c0 <= col < s.c1
    then Some(Flat(row - s.r0, col - s.c0, OutColumns(s))) else None
  }

  /** The replacements among the first n that land in the slice, rebased. */
  function SlicedEntries(entries: seq<Entry>, columns: nat, s: Slice, n: nat): seq<Entry>
    requires columns > 0 && OutColumns(s) >= 0 && n <= |entries|
  {
    if n == 0 then []
    else
      var rest := SlicedEntries(entries, columns, s, n - 1);
      var moved := Rebased(s, columns, entries[n - 1].position);
      if moved.Some? then rest + [Entry(moved.value, entries[n - 1].value)] else rest
  }

  function SlicedPlanes(planes: Planes, columns: nat, s: Slice): Planes
    requires columns > 0 && 0 <= s.r0 && 0 <= s.c0 && OutColumns(s) >= 2 && OutRows(s) >= 0
  {
    var entries := Entries(planes.exceptions);
    Planes(SlicedFixed(planes.fixedPlane, columns, s), Encode(SlicedEntries(entries, columns, s, |entries|)))
  }

  /** Bytes [srcStart, srcStart + n) of src to dst at dstStart. */
  method CopyBytes(src: seq<Byte>, srcStart: nat, dst: array<Byte>, dstStart: nat, n: nat)
    requires srcStart + n <= |src| && dstStart + n <= dst.Length
    modifies dst
    ensures forall k {:trigger dst[k]} :: 0 <= k < dst.Length ==>
              dst[k] == if dstStart <= k < dstStart + n then src[srcStart + (k - dstStart)] else old(dst[k])
  {
    var i := 0;
    while i < n
      invariant 0 <= i <= n
      invariant forall k {:trigger dst[k]} :: 0 <= k < dst.Length ==>
                  dst[k] == if dstStart <= k < dstStart + i then src[srcStart + (k - dstStart)] else old(dst[k])
    {
      dst[dstStart + i] := src[srcStart + i];
      i := i + 1;
    }
  }

  /** The 16 row bases of a slab. */
  method WriteBases(fixedPlane: seq<Byte>, baseStart: nat, realSlab: bool, out: array<Byte>, start: nat)
    requires start + 16 <= out.Length && (realSlab ==> baseStart + 16 <= |fixedPlane|)
    modifies out
    ensures forall k {:trigger out[k]} :: 0 <= k < out.Length ==>
              out[k] == if start <= k < start + 16 then (if realSlab then fixedPlane[baseStart + (k - start)] else PADDED_SCALE_CODE)
                        else old(out[k])
  {
    var r := 0;
    while r < 16
      invariant 0 <= r <= 16
      invariant forall k {:trigger out[k]} :: 0 <= k < out.Length ==>
                  out[k] == if start <= k < start + r then (if realSlab then fixedPlane[baseStart + (k - start)] else PADDED_SCALE_CODE)
                            else old(out[k])
    {
      out[start + r] := if realSlab then fixedPlane[baseStart + r] else PADDED_SCALE_CODE;
      r := r + 1;
    }
  }

  /** Byte k of 16 rows of `step` bytes that copy n bytes of rows of `inStep` bytes. */
  function RowsByte(src: seq<Byte>, inStart: nat, inStep: nat, step: nat, n: nat, k: nat): Byte
    requires step > 0
  {
    if ColOf(k, step) < n then At(src, inStart + RowOf(k, step) * inStep + ColOf(k, step)) else 0
  }

  method CopyRow(src: seq<Byte>, inStart: nat, inStep: nat, out: array<Byte>, outStart: nat, step: nat, n: nat, r: nat)
    requires 0 < n <= step && inStart + r * inStep + n <= |src| && outStart + (r + 1) * step <= out.Length
    requires forall k {:trigger out[k]} :: outStart <= k < outStart + r * step ==> out[k] == RowsByte(src, inStart, inStep, step, n, k - outStart)
    requires forall k {:trigger out[k]} :: outStart + r * step <= k < out.Length ==> out[k] == 0
    modifies out
    ensures forall k {:trigger out[k]} :: 0 <= k < outStart ==> out[k] == old(out[k])
    ensures forall k {:trigger out[k]} :: outStart <= k < outStart + (r + 1) * step ==> out[k] == RowsByte(src, inStart, inStep, step, n, k - outStart)
    ensures forall k {:trigger out[k]} :: outStart + (r + 1) * step <= k < out.Length ==> out[k] == 0
  {
    var rowStart, inRow := r * step, inStart + r * inStep;
    assert (r + 1) * step == rowStart + step;
    CopyBytes(src, inRow, out, outStart + rowStart, n);
    forall k {:trigger out[k]} | outStart + rowStart <= k < outStart + rowStart + step
      ensures out[k] == RowsByte(src, inStart, inStep, step, n, k - outStart)
    {
      FlatSplits(r, k - outStart - rowStart, step);
      assert k - outStart == Flat(r, k - outStart - rowStart, step);
    }
  }

  method CopyRows(src: seq<Byte>, inStart: nat, inStep: nat, out: array<Byte>, outStart: nat, step: nat, n: nat)
    requires 0 < n <= step && inStart + 15 * inStep + n <= |src| && outStart + 16 * step <= out.Length
    requires forall k {:trigger out[k]} :: outStart <= k < out.Length ==> out[k] == 0
    modifies out
    ensures forall k {:trigger out[k]} :: 0 <= k < outStart ==> out[k] == old(out[k])
    ensures forall k {:trigger out[k]} :: outStart <= k < outStart + 16 * step ==> out[k] == RowsByte(src, inStart, inStep, step, n, k - outStart)
    ensures forall k {:trigger out[k]} :: outStart + 16 * step <= k < out.Length ==> out[k] == 0
  {
    var r := 0;
    while r < 16
      invariant 0 <= r <= 16
      invariant forall k {:trigger out[k]} :: 0 <= k < outStart ==> out[k] == old(out[k])
      invariant forall k {:trigger out[k]} :: outStart <= k < outStart + r * step ==> out[k] == RowsByte(src, inStart, inStep, step, n, k - outStart)
      invariant forall k {:trigger out[k]} :: outStart + r * step <= k < out.Length ==> out[k] == 0
    {
      RowFits(r, inStep, step);
      CopyRow(src, inStart, inStep, out, outStart, step, n, r);
      r := r + 1;
    }
  }

  lemma RowFits(r: nat, inStep: nat, step: nat)
    requires r < 16
    ensures r * inStep <= 15 * inStep && (r + 1) * step <= 16 * step
  {
    if r < 15 { RowsApart(r, 15, inStep); RowsApart(r + 1, 16, step); }
  }

  predicate RealSlab(s: Slice, slab: nat) { slab < SliceRows(s) / 16 }

  lemma Aligned(a: nat, r: nat, c: nat, columns: nat)
    requires r < 16
    ensures BaseIndex(16 * a + r, columns) == a * Stride(columns) + r
    ensures PackedIndex(16 * a + r, c, columns) == a * Stride(columns) + 16 + r * (columns / 2) + c
  {
    assert (16 * a + r) / 16 == a && (16 * a + r) % 16 == r;
  }

  /** The source slab of an output slab. */
  function SourceSlab(s: Slice, slab: nat): nat
    requires 0 <= s.r0
  {
    s.r0 / 16 + slab
  }

  lemma SourceRow(s: Slice, rows: nat, columns: nat, slab: nat, r: nat)
    requires GoodSlice(s, rows, columns) && r < 16
    ensures s.r0 + (slab * 16 + r) == 16 * SourceSlab(s, slab) + r
    ensures slab * 16 + r < SliceRows(s) <==> RealSlab(s, slab)
    ensures RealSlab(s, slab) ==> SourceSlab(s, slab) < rows / 16
  {
  }

  lemma SlabBases(fixedPlane: seq<Byte>, rows: nat, columns: nat, s: Slice, slab: nat, o: nat)
    requires GoodFixed(fixedPlane, rows, columns) && GoodSlice(s, rows, columns) && o < 16
    ensures RealSlab(s, slab) ==> SourceSlab(s, slab) * Stride(columns) + 16 <= |fixedPlane|
    ensures SlabByte(fixedPlane, columns, s, slab, o)
         == if RealSlab(s, slab) then At(fixedPlane, SourceSlab(s, slab) * Stride(columns) + o) else PADDED_SCALE_CODE
  {
    SourceRow(s, rows, columns, slab, o);
    if RealSlab(s, slab) {
      RowsApart(SourceSlab(s, slab), rows / 16, Stride(columns));
      Aligned(SourceSlab(s, slab), o, 0, columns);
    }
  }

  /** Where the packed bytes of a slab's first sliced pair are. */
  function PackedSource(columns: nat, s: Slice, slab: nat): nat
    requires 0 <= s.r0 && 0 <= s.c0
  {
    SourceSlab(s, slab) * Stride(columns) + 16 + s.c0 / 2
  }

  lemma PackedSourceFits(rows: nat, columns: nat, s: Slice, slab: nat)
    requires GoodGeometry(rows, columns) && GoodSlice(s, rows, columns) && RealSlab(s, slab)
    ensures PackedSource(columns, s, slab) + 15 * (columns / 2) + SliceColumns(s) / 2 <= FixedLength(rows, columns)
  {
    SourceRow(s, rows, columns, slab, 15);
    RowsApart(SourceSlab(s, slab), rows / 16, Stride(columns));
  }

  lemma SlabPacked(fixedPlane: seq<Byte>, rows: nat, columns: nat, s: Slice, slab: nat, o: nat)
    requires GoodFixed(fixedPlane, rows, columns) && GoodSlice(s, rows, columns) && 16 <= o < Stride(OutColumns(s))
    ensures SlabByte(fixedPlane, columns, s, slab, o)
         == if RealSlab(s, slab)
            then RowsByte(fixedPlane, PackedSource(columns, s, slab), columns / 2, OutColumns(s) / 2, SliceColumns(s) / 2, o - 16)
            else 0
  {
    var selectors := OutColumns(s) / 2;
    RowBelow(o - 16, 16, selectors);
    var r, c := RowOf(o - 16, selectors), ColOf(o - 16, selectors);
    assert SlabByte(fixedPlane, columns, s, slab, o) == SlicedPair(fixedPlane, columns, s, slab * 16 + r, c);
    SlabPair(fixedPlane, rows, columns, s, slab, r, c);
  }

  lemma SlabPair(fixedPlane: seq<Byte>, rows: nat, columns: nat, s: Slice, slab: nat, r: nat, c: nat)
    requires GoodFixed(fixedPlane, rows, columns) && GoodSlice(s, rows, columns) && r < 16
    ensures SlicedPair(fixedPlane, columns, s, slab * 16 + r, c)
         == if RealSlab(s, slab) && c < SliceColumns(s) / 2
            then At(fixedPlane, PackedSource(columns, s, slab) + r * (columns / 2) + c)
            else 0
  {
    SourceRow(s, rows, columns, slab, r);
    Aligned(SourceSlab(s, slab), r, s.c0 / 2 + c, columns);
  }

  /** How a slab is copied together: from where, and how much a row. */
  datatype SlabCopy = SlabCopy(baseStart: nat, packedStart: nat, inStep: nat, realSlab: bool, step: nat, n: nat)

  function SlabCopyOf(columns: nat, s: Slice, slab: nat): SlabCopy
    requires 0 <= s.r0 && 0 <= s.c0 && OutColumns(s) >= 0 && SliceColumns(s) >= 0
  {
    SlabCopy(SourceSlab(s, slab) * Stride(columns), PackedSource(columns, s, slab), columns / 2, RealSlab(s, slab),
             OutColumns(s) / 2, SliceColumns(s) / 2)
  }

  predicate CopyFits(copy: SlabCopy, length: nat) {
    && 0 < copy.n <= copy.step
    && (copy.realSlab ==> copy.baseStart + 16 <= length && copy.packedStart + 15 * copy.inStep + copy.n <= length)
  }

  function CopiedByte(fixedPlane: seq<Byte>, copy: SlabCopy, o: nat): Byte
    requires copy.step > 0
  {
    if o < 16 then (if copy.realSlab then At(fixedPlane, copy.baseStart + o) else PADDED_SCALE_CODE)
    else if copy.realSlab then RowsByte(fixedPlane, copy.packedStart, copy.inStep, copy.step, copy.n, o - 16)
    else 0
  }

  /** A slab: its bases, then its packed rows when it has a source. */
  method FillSlab(fixedPlane: seq<Byte>, copy: SlabCopy, out: array<Byte>, start: nat)
    requires CopyFits(copy, |fixedPlane|) && start + 16 + 16 * copy.step <= out.Length
    requires forall k {:trigger out[k]} :: start <= k < out.Length ==> out[k] == 0
    modifies out
    ensures forall k {:trigger out[k]} :: 0 <= k < start ==> out[k] == old(out[k])
    ensures forall k {:trigger out[k]} :: start <= k < start + 16 + 16 * copy.step ==> out[k] == CopiedByte(fixedPlane, copy, k - start)
    ensures forall k {:trigger out[k]} :: start + 16 + 16 * copy.step <= k < out.Length ==> out[k] == 0
  {
    WriteBases(fixedPlane, copy.baseStart, copy.realSlab, out, start);
    if copy.realSlab {
      CopyRows(fixedPlane, copy.packedStart, copy.inStep, out, start + 16, copy.step, copy.n);
    }
  }

  lemma SlabAt(fixedPlane: seq<Byte>, columns: nat, s: Slice, slab: nat, o: nat)
    requires 0 <= s.r0 && 0 <= s.c0 && OutColumns(s) >= 2 && o < Stride(OutColumns(s))
    ensures SlicedByte(fixedPlane, columns, s, slab * Stride(OutColumns(s)) + o) == SlabByte(fixedPlane, columns, s, slab, o)
  {
    FlatSplits(slab, o, Stride(OutColumns(s)));
  }

  lemma SlabCopied(fixedPlane: seq<Byte>, rows: nat, columns: nat, s: Slice, slab: nat, o: nat)
    requires GoodFixed(fixedPlane, rows, columns) && GoodSlice(s, rows, columns) && o < Stride(OutColumns(s))
    ensures SlabByte(fixedPlane, columns, s, slab, o) == CopiedByte(fixedPlane, SlabCopyOf(columns, s, slab), o)
  {
    if o < 16 { SlabBases(fixedPlane, rows, columns, s, slab, o); }
    else { SlabPacked(fixedPlane, rows, columns, s, slab, o); }
  }

  /** The specified plane, slab by slab. */
  ghost predicate SpecSlab(fixedPlane: seq<Byte>, copy: SlabCopy, plane: seq<Byte>, start: nat)
    requires copy.step > 0
  {
    && start + 16 + 16 * copy.step <= |plane|
    && forall k {:trigger plane[k]} :: start <= k < start + 16 + 16 * copy.step ==> plane[k] == CopiedByte(fixedPlane, copy, k - start)
  }

  lemma SlabFits(fixedPlane: seq<Byte>, rows: nat, columns: nat, s: Slice, slab: nat)
    requires GoodFixed(fixedPlane, rows, columns) && GoodSlice(s, rows, columns)
    ensures CopyFits(SlabCopyOf(columns, s, slab), |fixedPlane|)
  {
    if RealSlab(s, slab) {
      SlabBases(fixedPlane, rows, columns, s, slab, 0);
      PackedSourceFits(rows, columns, s, slab);
    }
  }

  lemma SlabOfSpec(fixedPlane: seq<Byte>, rows: nat, columns: nat, s: Slice, slab: nat, plane: seq<Byte>, start: nat)
    requires GoodFixed(fixedPlane, rows, columns) && GoodSlice(s, rows, columns) && slab < OutRows(s) / 16
    requires plane == SlicedFixed(fixedPlane, columns, s) && start == TokenChunks.Times(slab, Stride(OutColumns(s)))
    ensures SpecSlab(fixedPlane, SlabCopyOf(columns, s, slab), plane, start)
    ensures 16 + 16 * (OutColumns(s) / 2) == Stride(OutColumns(s))
    ensures TokenChunks.Times(slab + 1, Stride(OutColumns(s))) == start + Stride(OutColumns(s)) <= |plane|
  {
    var stride, copy := Stride(OutColumns(s)), SlabCopyOf(columns, s, slab);
    TokenChunks.TimesMono(slab + 1, OutRows(s) / 16, stride);
    TokenChunks.TimesIsProduct(OutRows(s) / 16, stride);
    forall k {:trigger plane[k]} | start <= k < start + stride ensures plane[k] == CopiedByte(fixedPlane, copy, k - start) {
      SlabOfSpecAt(fixedPlane, rows, columns, s, slab, start, k);
    }
  }

  lemma SlabOfSpecAt(fixedPlane: seq<Byte>, rows: nat, columns: nat, s: Slice, slab: nat, start: nat, k: nat)
    requires GoodFixed(fixedPlane, rows, columns) && GoodSlice(s, rows, columns)
    requires start == TokenChunks.Times(slab, Stride(OutColumns(s))) && start <= k < start + Stride(OutColumns(s))
    ensures SlicedByte(fixedPlane, columns, s, k) == CopiedByte(fixedPlane, SlabCopyOf(columns, s, slab), k - start)
  {
    TokenChunks.TimesIsProduct(slab, Stride(OutColumns(s)));
    SlabAt(fixedPlane, columns, s, slab, k - start);
    SlabCopied(fixedPlane, rows, columns, s, slab, k - start);
  }

  /** All slabs of the output plane. */
  method WriteSlabs(fixedPlane: seq<Byte>, rows: nat, columns: nat, s: Slice, out: array<Byte>, ghost plane: seq<Byte>)
    requires GoodFixed(fixedPlane, rows, columns) && GoodSlice(s, rows, columns)
    requires plane == SlicedFixed(fixedPlane, columns, s) && out.Length == |plane|
    requires forall k {:trigger out[k]} :: 0 <= k < out.Length ==> out[k] == 0
    modifies out
    ensures out[..] == plane
  {
    ghost var stride := Stride(OutColumns(s));
    TokenChunks.TimesIsProduct(OutRows(s) / 16, stride);
    var slab, start := 0, 0;
    while slab < OutRows(s) / 16
      invariant 0 <= slab <= OutRows(s) / 16 && start == TokenChunks.Times(slab, stride) <= out.Length
      invariant forall k {:trigger out[k]} :: 0 <= k < start ==> out[k] == plane[k]
      invariant forall k {:trigger out[k]} :: start <= k < out.Length ==> out[k] == 0
    {
      SlabFits(fixedPlane, rows, columns, s, slab);
      SlabOfSpec(fixedPlane, rows, columns, s, slab, plane, start);
      FillSlab(fixedPlane, SlabCopyOf(columns, s, slab), out, start);
      start, slab := start + Stride(OutColumns(s)), slab + 1;
    }
  }

  /** The loop selecting and rebasing replacements. */
  method SelectEntries(entries: seq<Entry>, columns: nat, s: Slice) returns (selected: seq<Entry>)
    requires columns > 0 && OutColumns(s) >= 0
    ensures selected == SlicedEntries(entries, columns, s, |entries|)
  {
    selected := [];
    var i := 0;
    while i < |entries|
      invariant 0 <= i <= |entries| && selected == SlicedEntries(entries, columns, s, i)
    {
      var row, col := entries[i].position / columns, entries[i].position % columns;
      if s.r0 <= row < s.r1 && s.c0 <= col < s.c1 {
        selected := selected + [Entry((row - s.r0) * OutColumns(s) + (col - s.c0), entries[i].value)];
      }
      i := i + 1;
    }
  }

  /** One little-endian word. */
  method WriteWord(out: array<Byte>, i: nat, entry: Entry)
    requires 4 * i + 4 <= out.Length
    modifies out
    ensures forall k {:trigger out[k]} :: 0 <= k < out.Length ==>
              out[k] == if 4 * i <= k < 4 * i + 4 then EncodedByte(entry, k - 4 * i) else old(out[k])
  {
    out[4 * i], out[4 * i + 1] := EncodedByte(entry, 0), EncodedByte(entry, 1);
    out[4 * i + 2], out[4 * i + 3] := EncodedByte(entry, 2), EncodedByte(entry, 3);
  }

  method WriteWords(entries: seq<Entry>) returns (bytes: seq<Byte>)
    ensures bytes == Encode(entries)
  {
    var out := new Byte[4 * |entries|];
    var i := 0;
    while i < |entries|
      invariant 0 <= i <= |entries| && out[..4 * i] == EncodeFirst(entries, i)
    {
      label Before:
      WriteWord(out, i, entries[i]);
      assert out[..4 * i] == old@Before(out[..4 * i]);
      assert out[..4 * (i + 1)] == out[..4 * i] + Word(entries[i]);
      i := i + 1;
    }
    bytes := out[..];
    assert out[..4 * i] == bytes;
  }

  /** Slice the planes to a shard, padded to whole slabs and pairs. */
  method SliceScalePlanes(fixedPlane: seq<Byte>, exceptions: seq<Byte>, rows: int, columns: int, s: Slice)
      returns (r: Result<Planes, CsfError>)
    ensures r.Ok? <==> GoodPlanes(Planes(fixedPlane, exceptions), rows, columns) && GoodSlice(s, rows, columns)
    ensures r.Ok? ==> r.value == SlicedPlanes(Planes(fixedPlane, exceptions), columns, s)
    ensures r == Err(BadSlice) <==> GoodPlanes(Planes(fixedPlane, exceptions), rows, columns) && !GoodSlice(s, rows, columns)
  {
    var bad := ValidateFixedPlane(fixedPlane, rows, columns);
    if bad.Some? { return Err(bad.value); }
    var decoded := DecodeExceptions(exceptions, rows, columns);
    if decoded.Err? { return Err(decoded.error); }
    if !GoodSlice(s, rows, columns) { return Err(BadSlice); }
    ghost var plane := SlicedFixed(fixedPlane, columns, s);
    var out := new Byte[FixedLength(OutRows(s), OutColumns(s))](i => 0);
    WriteSlabs(fixedPlane, rows, columns, s, out, plane);
    var selected := SelectEntries(decoded.value, columns, s);
    var words := WriteWords(selected);
    r := Ok(Planes(out[..], words));
  }

  // ---------------------------------------------------------------------
  // Fusion

  function Shifted(entries: seq<Entry>, shift: nat): (r: seq<Entry>)
    ensures |r| == |entries|
    ensures forall i {:trigger r[i]} :: 0 <= i < |r| ==> r[i] == Entry(entries[i].position + shift, entries[i].value)
  {
    seq(|entries|, i requires 0 <= i < |entries| => Entry(entries[i].position + shift, entries[i].value))
  }

  ghost predicate ShiftFits(bytes: seq<Byte>, shift: nat, limit: nat) {
    |bytes| % 4 == 0 && forall i {:trigger Entries(bytes)[i]} :: 0 <= i < |Entries(bytes)| ==> Entries(bytes)[i].position + shift < limit
  }

  /** Move every position of an exception plane. */
  method ShiftWords(bytes: seq<Byte>, shift: nat, limit: nat) returns (r: Option<seq<Byte>>)
    ensures r.Some? <==> ShiftFits(bytes, shift, limit)
    ensures r.Some? ==> r.value == Encode(Shifted(Entries(bytes), shift))
  {
    if |bytes| % 4 != 0 { return None; }
    ghost var entries := Entries(bytes);
    ghost var moved := Shifted(entries, shift);
    var out := new Byte[|bytes|](i requires 0 <= i < |bytes| => bytes[i]);
    var i := 0;
    while 4 * i < out.Length
      invariant 0 <= 4 * i <= out.Length && |moved| * 4 == out.Length
      invariant out[..4 * i] == EncodeFirst(moved, i)
      invariant forall j {:trigger entries[j]} :: 0 <= j < i ==> entries[j].position + shift < limit
    {
      var word := ReadEntry(bytes, i);
      assert word == entries[i];
      var next := Entry(word.position + shift, word.value);
      if next.position >= limit { return None; }
      assert next == moved[i];
      label Before:
      WriteWord(out, i, next);
      assert out[..4 * i] == old@Before(out[..4 * i]);
      assert out[..4 * (i + 1)] == out[..4 * i] + Word(next);
      i := i + 1;
    }
    assert out[..4 * i] == out[..];
    r := Some(out[..]);
  }

  function FusedPlanes(first: Planes, second: Planes, offset: nat): Planes {
    Planes(first.fixedPlane + second.fixedPlane,
           Encode(Shifted(Entries(first.exceptions), 0)) + Encode(Shifted(Entries(second.exceptions), offset)))
  }

  /** When two projections fuse: equal geometry, positions inside the fused matrix,
      and a fused exception plane that passes the checks again. */
  ghost predicate Fusable(first: Planes, second: Planes, localRows: int, columns: int) {
    && GoodGeometry(localRows, columns)
    && |first.fixedPlane| == |second.fixedPlane| == FixedLength(localRows, columns)
    && ShiftFits(first.exceptions, 0, 2 * (localRows * columns))
    && ShiftFits(second.exceptions, localRows * columns, 2 * (localRows * columns))
    && GoodExceptions(FusedPlanes(first, second, localRows * columns).exceptions, 2 * (localRows * columns))
  }

  method ConcatFc1ScalePlanes(first: Planes, second: Planes, localRows: int, columns: int)
      returns (r: Result<Planes, CsfError>)
    ensures r.Ok? <==> Fusable(first, second, localRows, columns)
    ensures r.Ok? ==> r.value == FusedPlanes(first, second, localRows * columns)
  {
    if !GoodGeometry(localRows, columns) { return Err(BadGeometry); }
    if |first.fixedPlane| != FixedLength(localRows, columns) || |second.fixedPlane| != FixedLength(localRows, columns) {
      return Err(BadStream);
    }
    var offset := localRows * columns;
    var words := FuseWords(first, second, offset);
    if words.None? { return Err(BadExceptions); }
    Doubled(localRows, columns);
    var checked := DecodeExceptions(words.value, 2 * localRows, columns);
    if checked.Err? { return Err(checked.error); }
    r := Ok(Planes(first.fixedPlane + second.fixedPlane, words.value));
  }

  lemma Doubled(rows: nat, columns: nat)
    ensures 2 * rows * columns == 2 * (rows * columns)
  {
  }

  method FuseWords(first: Planes, second: Planes, offset: nat) returns (r: Option<seq<Byte>>)
    ensures r.Some? <==> ShiftFits(first.exceptions, 0, 2 * offset) && ShiftFits(second.exceptions, offset, 2 * offset)
    ensures r.Some? ==> r.value == FusedPlanes(first, second, offset).exceptions
  {
    var head := ShiftWords(first.exceptions, 0, 2 * offset);
    if head.None? { return None; }
    var tail := ShiftWords(second.exceptions, offset, 2 * offset);
    r := if tail.Some? then Some(head.value + tail.value) else None;
  }

  // ---------------------------------------------------------------------
  // Tensor-parallel extents

  predicate GoodExtent(intermediateSize: int, tpRank: int, tpSize: int, alignment: int) {
    && tpSize > 0 && 0 <= tpRank < tpSize && intermediateSize > 0
    && alignment * tpSize != 0 && intermediateSize % (alignment * tpSize) == 0
  }

  /** This rank's bounds on the partitioned axis. */
  method TpExtent(intermediateSize: int, tpRank: int, tpSize: int, alignment: int) returns (r: Result<(int, int), CsfError>)
    ensures r.Ok? <==> GoodExtent(intermediateSize, tpRank, tpSize, alignment)
    ensures r.Ok? ==> r.value.1 - r.value.0 == intermediateSize / tpSize && r.value.0 == tpRank * (intermediateSize / tpSize)
  {
    if tpSize <= 0 || !(0 <= tpRank < tpSize) || intermediateSize <= 0 || alignment * tpSize == 0
       || intermediateSize % (alignment * tpSize) != 0 {
      return Err(BadRank);
    }
    var local := intermediateSize / tpSize;
    assert (tpRank + 1) * local == tpRank * local + local;
    r := Ok((tpRank * local, (tpRank + 1) * local));
  }
}
