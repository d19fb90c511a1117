/** The compressed scale planes of a checkpoint: nibble-packed slabs with
    replacement words, decoded whole, by window, sliced and fused
    (src/csf_codec.ts). */
module CsfCodec {
  import opened Wrappers
  import opened TokenChunks

  type Byte = n: nat | n < 256

  const PADDED_SCALE_CODE: Byte := 0x38
  const MAX_SCALE_CODE: Byte := 0x7e
  const POSITION_LIMIT: nat := 0x1000000

  datatype CsfError = BadGeometry | BadStream | BadBase | BadExceptions | BadScaleCode | BadWindow | BadSlice | BadRank

  // ---------------------------------------------------------------------
  // Positions in the matrix and in the planes

  /** Row-major position. */
  function Flat(row: nat, col: nat, columns: nat): nat {
    row * columns + col
  }

  function RowOf(position: nat, columns: nat): nat
    requires columns > 0
  {
    position / columns
  }

  function ColOf(position: nat, columns: nat): nat
    requires columns > 0
  {
    position % columns
  }

  lemma FlatSplits(row: nat, col: nat, columns: nat)
    requires col < columns
    ensures Flat(row, col, columns) / columns == row && Flat(row, col, columns) % columns == col
  {
    QuotientUnique(Flat(row, col, columns), columns, row, col);
  }

  lemma FlatJoins(position: nat, columns: nat)
    requires columns > 0
    ensures position == Flat(position / columns, position % columns, columns)
  {
  }

  lemma RowsApart(row: nat, row': nat, columns: nat)
    requires row < row'
    ensures row * columns + columns <= row' * columns
  {
    assert (row' - row - 1) * columns >= 0;
    assert row' * columns == (row' - row - 1) * columns + row * columns + columns;
  }

  lemma FlatBelow(row: nat, col: nat, columns: nat, rows: nat)
    requires row < rows && col < columns
    ensures Flat(row, col, columns) < rows * columns
  {
    RowsApart(row, rows, columns);
  }

  lemma RowAtLeast(position: nat, rows: nat, columns: nat)
    requires columns > 0 && position / columns >= rows
    ensures position >= rows * columns
  {
    FlatJoins(position, columns);
    if position / columns > rows { RowsApart(rows, position / columns, columns); }
  }

  lemma RowBelow(position: nat, rows: nat, columns: nat)
    requires position < rows * columns
    ensures columns > 0 && position / columns < rows
  {
    if columns > 0 && position / columns >= rows { RowAtLeast(position, rows, columns); }
  }

  lemma FlatOrder(row: nat, col: nat, row': nat, col': nat, columns: nat)
    requires col < columns && col' < columns
    ensures Flat(row, col, columns) < Flat(row', col', columns) <==> row < row' || (row == row' && col < col')
  {
    if row < row' {
      RowsApart(row, row', columns);
    } else if row' < row {
      RowsApart(row', row, columns);
    }
  }

  predicate GoodGeometry(rows: int, columns: int) {
    0 < rows <= MAX_SAFE_INTEGER && 0 < columns <= MAX_SAFE_INTEGER && rows % 16 == 0 && columns % 2 == 0
  }

  /** Bytes of one 16-row slab: 16 row bases, then columns / 2 packed bytes a row. */
  function Stride(columns: nat): nat { 16 * (1 + columns / 2) }

  function FixedLength(rows: nat, columns: nat): nat { rows / 16 * Stride(columns) }

  function BaseIndex(row: nat, columns: nat): nat {
    Flat(row / 16, row % 16, Stride(columns))
  }

  /** Where the packed byte of a row's nibble pair c is. */
  function PackedIndex(row: nat, c: nat, columns: nat): nat {
    Flat(row / 16, 16 + Flat(row % 16, c, columns / 2), Stride(columns))
  }

  lemma PackedOffset(r: nat, c: nat, columns: nat)
    requires r < 16 && c < columns / 2
    ensures 16 <= 16 + Flat(r, c, columns / 2) < Stride(columns)
  {
    FlatBelow(r, c, columns / 2, 16);
  }

  lemma IndexBelow(row: nat, c: nat, rows: nat, columns: nat)
    requires row < rows && rows % 16 == 0 && c < columns / 2
    ensures BaseIndex(row, columns) < FixedLength(rows, columns)
    ensures PackedIndex(row, c, columns) < FixedLength(rows, columns)
  {
    PackedOffset(row % 16, c, columns);
    FlatBelow(row / 16, row % 16, Stride(columns), rows / 16);
    FlatBelow(row / 16, 16 + Flat(row % 16, c, columns / 2), Stride(columns), rows / 16);
  }

  // ---------------------------------------------------------------------
  // What the planes mean

  datatype Entry = Entry(position: nat, value: Byte)

  datatype Planes = Planes(fixedPlane: seq<Byte>, exceptions: seq<Byte>)

  /** One little-endian word: 24 bits of position below 8 bits of value. */
  function ReadEntry(bytes: seq<Byte>, i: nat): Entry
    requires 4 * i + 4 <= |bytes|
  {
    var low: nat, middle: nat, high: nat := bytes[4 * i], bytes[4 * i + 1], bytes[4 * i + 2];
    Entry(low + 256 * middle + 65536 * high, bytes[4 * i + 3])
  }

  function Entries(bytes: seq<Byte>): (r: seq<Entry>)
    ensures |r| == |bytes| / 4
    ensures forall i {:trigger r[i]} :: 0 <= i < |r| ==> r[i] == ReadEntry(bytes, i)
  {
    seq(|bytes| / 4, i requires 0 <= i < |bytes| / 4 => ReadEntry(bytes, i))
  }

  /** Sorted, unique, in range. */
  ghost predicate Ordered(entries: seq<Entry>, total: nat) {
    && (forall i {:trigger entries[i]} :: 0 <= i < |entries| ==> entries[i].position < total)
    && (forall i, j {:trigger entries[i], entries[j]} :: 0 <= i < j < |entries| ==> entries[i].position < entries[j].position)
  }

  ghost predicate GoodExceptions(bytes: seq<Byte>, total: nat) {
    |bytes| % 4 == 0 && Ordered(Entries(bytes), total)
  }

  ghost predicate GoodBases(fixedPlane: seq<Byte>, rows: nat, columns: nat)
    requires rows % 16 == 0 && columns % 2 == 0 && columns > 0 && |fixedPlane| == FixedLength(rows, columns)
  {
    forall row {:trigger BaseIndex(row, columns)} :: 0 <= row < rows ==> BaseIndex(row, columns) < |fixedPlane| && fixedPlane[BaseIndex(row, columns)] <= 240
  }

  ghost predicate GoodFixed(fixedPlane: seq<Byte>, rows: int, columns: int) {
    GoodGeometry(rows, columns) && |fixedPlane| == FixedLength(rows, columns) && GoodBases(fixedPlane, rows, columns)
  }

  ghost predicate GoodPlanes(planes: Planes, rows: int, columns: int) {
    GoodFixed(planes.fixedPlane, rows, columns) && GoodExceptions(planes.exceptions, rows * columns)
  }

  function At(bytes: seq<Byte>, i: int): Byte {
    if 0 <= i < |bytes| then bytes[i] else 0
  }

  function Base(fixedPlane: seq<Byte>, columns: nat, row: nat): Byte {
    At(fixedPlane, BaseIndex(row, columns))
  }

  /** The nibble of a packed byte for a column. */
  function PairNibble(byte: Byte, col: nat): (n: nat)
    ensures n < 16
  {
    if col % 2 == 0 then byte % 16 else byte / 16
  }

  /** The 4-bit offset: even columns in the low nibble, odd ones in the high. */
  function Nibble(fixedPlane: seq<Byte>, columns: nat, row: nat, col: nat): (n: nat)
    ensures n < 16
  {
    PairNibble(At(fixedPlane, PackedIndex(row, col / 2, columns)), col)
  }

  /** The replacement for a position, if there is one. */
  ghost function Replacement(entries: seq<Entry>, position: nat): Option<Byte> {
    if exists i :: 0 <= i < |entries| && entries[i].position == position
    then var i :| 0 <= i < |entries| && entries[i].position == position; Some(entries[i].value)
    else None
  }

  lemma ReplacementAt(entries: seq<Entry>, total: nat, i: nat)
    requires Ordered(entries, total) && i < |entries|
    ensures Replacement(entries, entries[i].position) == Some(entries[i].value)
  {
    assert forall j :: 0 <= j < |entries| && entries[j].position == entries[i].position ==> j == i;
  }

  /** The code below the replacements. */
  function CodeAt(fixedPlane: seq<Byte>, columns: nat, row: nat, col: nat): nat {
    Base(fixedPlane, columns, row) + Nibble(fixedPlane, columns, row, col)
  }

  /** The scale code at (row, col) under a list of replacements. */
  ghost function ScaleIn(fixedPlane: seq<Byte>, entries: seq<Entry>, columns: nat, row: nat, col: nat): nat {
    match Replacement(entries, Flat(row, col, columns))
    case Some(value) => value
    case None => CodeAt(fixedPlane, columns, row, col)
  }

  /** The scale code at (row, col). */
  ghost function ScaleAt(planes: Planes, columns: nat, row: nat, col: nat): nat {
    ScaleIn(planes.fixedPlane, Entries(planes.exceptions), columns, row, col)
  }

  lemma CodeFits(planes: Planes, rows: nat, columns: nat, row: nat, col: nat)
    requires GoodFixed(planes.fixedPlane, rows, columns) && row < rows
    ensures ScaleAt(planes, columns, row, col) < 256
    ensures CodeAt(planes.fixedPlane, columns, row, col) < 256
  {
    assert BaseIndex(row, columns) < |planes.fixedPlane|;
  }

  // ---------------------------------------------------------------------
  // Checks

  /** Whole words, positions in range, sorted and unique. */
  method DecodeExceptions(exceptions: seq<Byte>, rows: nat, columns: nat) returns (r: Result<seq<Entry>, CsfError>)
    ensures r == if GoodExceptions(exceptions, rows * columns) then Ok(Entries(exceptions)) else Err(BadExceptions)
  {
    if |exceptions| % 4 != 0 { return Err(BadExceptions); }
    var count := |exceptions| / 4;
    ghost var entries := Entries(exceptions);
    var found: seq<Entry> := [];
    var previous: int := -1;
    var total := rows * columns;
    var i := 0;
    while i < count
      invariant 0 <= i <= count && found == entries[..i]
      invariant previous == if i == 0 then -1 else entries[i - 1].position
      invariant Ordered(entries[..i], total)
    {
      var entry := ReadEntry(exceptions, i);
      assert entry == entries[i];
      if entry.position >= total { return Err(BadExceptions); }
      if entry.position <= previous {
        assert entries[i - 1].position >= entries[i].position;
        return Err(BadExceptions);
      }
      OrderedSnoc(entries[..i], entry, total);
      assert entries[..i + 1] == entries[..i] + [entry];
      previous := entry.position;
      found := found + [entry];
      i := i + 1;
    }
    assert entries[..count] == entries;
    r := Ok(found);
  }

  lemma OrderedSnoc(entries: seq<Entry>, entry: Entry, total: nat)
    requires Ordered(entries, total) && entry.position < total
    requires entries != [] ==> entries[|entries| - 1].position < entry.position
    ensures Ordered(entries + [entry], total)
  {
    forall i | 0 <= i < |entries| ensures entries[i].position < entry.position {
      if i < |entries| - 1 { assert entries[i].position < entries[|entries| - 1].position; }
    }
  }

  /** Stream size and row bases. */
  method ValidateFixedPlane(fixedPlane: seq<Byte>, rows: int, columns: int) returns (r: Option<CsfError>)
    ensures r.None? <==> GoodFixed(fixedPlane, rows, columns)
    ensures r == Some(BadGeometry) <==> !GoodGeometry(rows, columns)
    ensures r == Some(BadStream) <==> GoodGeometry(rows, columns) && |fixedPlane| != FixedLength(rows, columns)
    ensures r.None? || r.value in {BadGeometry, BadStream, BadBase}
  {
    if !GoodGeometry(rows, columns) { return Some(BadGeometry); }
    if |fixedPlane| != FixedLength(rows, columns) { return Some(BadStream); }
    var slab := 0;
    while slab < rows / 16
      invariant 0 <= slab <= rows / 16
      invariant forall row {:trigger BaseIndex(row, columns)} :: 0 <= row < 16 * slab ==> At(fixedPlane, BaseIndex(row, columns)) <= 240
    {
      var ok := ValidateSlab(fixedPlane, rows, columns, slab);
      if !ok { return Some(BadBase); }
      slab := slab + 1;
    }
    forall row | 0 <= row < rows ensures BaseIndex(row, columns) < |fixedPlane| { IndexBelow(row, 0, rows, columns); }
    r := None;
  }

  method ValidateSlab(fixedPlane: seq<Byte>, rows: nat, columns: nat, slab: nat) returns (ok: bool)
    requires GoodGeometry(rows, columns) && |fixedPlane| == FixedLength(rows, columns) && slab < rows / 16
    ensures ok <==> forall row {:trigger BaseIndex(row, columns)} :: 16 * slab <= row < 16 * slab + 16 ==> At(fixedPlane, BaseIndex(row, columns)) <= 240
    ensures ok || !GoodBases(fixedPlane, rows, columns)
  {
    var r := 0;
    while r < 16
      invariant 0 <= r <= 16
      invariant forall row {:trigger BaseIndex(row, columns)} :: 16 * slab <= row < 16 * slab + r ==> At(fixedPlane, BaseIndex(row, columns)) <= 240
    {
      IndexBelow(16 * slab + r, 0, rows, columns);
      assert BaseIndex(16 * slab + r, columns) == slab * Stride(columns) + r;
      var base := fixedPlane[slab * Stride(columns) + r];
      if base > 240 { return false; }
      r := r + 1;
    }
    ok := true;
  }

  // ---------------------------------------------------------------------
  // Expansion

  /** The code of a position before replacements. */
  function Coded(fixedPlane: seq<Byte>, columns: nat, position: nat): nat
    requires columns > 0
  {
    CodeAt(fixedPlane, columns, position / columns, position % columns)
  }

  /** All scale codes, row by row. */
  ghost function Matrix(planes: Planes, rows: nat, columns: nat): (m: seq<nat>)
    requires columns > 0
    ensures |m| == rows * columns
    ensures forall k {:trigger m[k]} :: 0 <= k < |m| ==> m[k] == ScaleAt(planes, columns, k / columns, k % columns)
  {
    seq(rows * columns, k requires 0 <= k < rows * columns => ScaleAt(planes, columns, k / columns, k % columns))
  }

  lemma MatrixAt(planes: Planes, rows: nat, columns: nat, row: nat, col: nat)
    requires row < rows && col < columns
    ensures Flat(row, col, columns) < rows * columns
    ensures Matrix(planes, rows, columns)[Flat(row, col, columns)] == ScaleAt(planes, columns, row, col)
  {
    FlatSplits(row, col, columns);
    FlatBelow(row, col, columns, rows);
  }

  ghost predicate AllCodes(codes: seq<nat>) {
    forall k {:trigger codes[k]} :: 0 <= k < |codes| ==> codes[k] <= MAX_SCALE_CODE
  }

  /** The bytes of one row, two columns a packed byte. */
  method ExpandRow(fixedPlane: seq<Byte>, rows: nat, columns: nat, row: nat, out: array<Byte>)
    requires GoodFixed(fixedPlane, rows, columns) && row < rows && out.Length == rows * columns
    modifies out
    ensures forall k {:trigger out[k]} :: 0 <= k < row * columns || row * columns + columns <= k < out.Length ==> out[k] == old(out[k])
    ensures forall k {:trigger out[k]} :: row * columns <= k < row * columns + columns && k < out.Length ==> out[k] == Coded(fixedPlane, columns, k)
    ensures row * columns + columns <= out.Length
  {
    var selectors, slabStart, r := columns / 2, row / 16 * Stride(columns), row % 16;
    IndexBelow(row, 0, rows, columns);
    assert BaseIndex(row, columns) == slabStart + r;
    var base := fixedPlane[slabStart + r];
    var packedStart := slabStart + 16 + r * selectors;
    var outStart := row * columns;
    RowsApart(row, rows, columns);
    LastPair(rows, columns, row);
    WritePairs(fixedPlane, base, packedStart, selectors, out, outStart);
    forall k {:trigger out[k]} | outStart <= k < outStart + columns ensures out[k] == Coded(fixedPlane, columns, k) {
      CodedInRow(fixedPlane, rows, columns, row, k, packedStart, outStart);
    }
  }

  /** A position in a row lies in the packed byte of its pair. */
  lemma CodedInRow(fixedPlane: seq<Byte>, rows: nat, columns: nat, row: nat, k: nat, packedStart: nat, outStart: nat)
    requires GoodFixed(fixedPlane, rows, columns) && row < rows
    requires packedStart == row / 16 * Stride(columns) + 16 + row % 16 * (columns / 2) && outStart == row * columns
    requires outStart <= k < outStart + columns
    ensures packedStart + (k - outStart) / 2 < |fixedPlane|
    ensures Coded(fixedPlane, columns, k)
         == Base(fixedPlane, columns, row) + PairNibble(fixedPlane[packedStart + (k - outStart) / 2], k - outStart)
  {
    PairAt(fixedPlane, rows, columns, row, (k - outStart) / 2);
  }

  lemma LastPair(rows: nat, columns: nat, row: nat)
    requires GoodGeometry(rows, columns) && row < rows
    ensures row / 16 * Stride(columns) + 16 + row % 16 * (columns / 2) + columns / 2 <= FixedLength(rows, columns)
  {
    IndexBelow(row, columns / 2 - 1, rows, columns);
    assert PackedIndex(row, columns / 2 - 1, columns)
        == row / 16 * Stride(columns) + 16 + row % 16 * (columns / 2) + columns / 2 - 1;
  }

  /** The inner loop: two codes per packed byte. */
  method WritePairs(packed: seq<Byte>, base: Byte, packedStart: nat, selectors: nat, out: array<Byte>, outStart: nat)
    requires base <= 240 && packedStart + selectors <= |packed| && outStart + 2 * selectors <= out.Length
    modifies out
    ensures forall k {:trigger out[k]} :: 0 <= k < outStart || outStart + 2 * selectors <= k < out.Length ==> out[k] == old(out[k])
    ensures forall k {:trigger out[k]} :: outStart <= k < outStart + 2 * selectors ==>
              out[k] == base + PairNibble(packed[packedStart + (k - outStart) / 2], k - outStart)
  {
    var c := 0;
    while c < selectors
      invariant 0 <= c <= selectors
      invariant forall k {:trigger out[k]} :: 0 <= k < outStart || outStart + 2 * selectors <= k < out.Length ==> out[k] == old(out[k])
      invariant forall k {:trigger out[k]} :: outStart <= k < outStart + 2 * c ==>
                  out[k] == base + PairNibble(packed[packedStart + (k - outStart) / 2], k - outStart)
    {
      var byte := packed[packedStart + c];
      out[outStart + 2 * c] := base + byte % 16;
      out[outStart + 2 * c + 1] := base + byte / 16;
      c := c + 1;
    }
  }

  /** What packed byte c of a row contributes. */
  lemma PairAt(fixedPlane: seq<Byte>, rows: nat, columns: nat, row: nat, c: nat)
    requires GoodFixed(fixedPlane, rows, columns) && row < rows && c < columns / 2
    ensures var i := row / 16 * Stride(columns) + 16 + row % 16 * (columns / 2) + c;
            && i < |fixedPlane| && Base(fixedPlane, columns, row) <= 240
            && Coded(fixedPlane, columns, row * columns + 2 * c) == Base(fixedPlane, columns, row) + fixedPlane[i] % 16
            && Coded(fixedPlane, columns, row * columns + 2 * c + 1) == Base(fixedPlane, columns, row) + fixedPlane[i] / 16
  {
    IndexBelow(row, c, rows, columns);
    assert PackedIndex(row, c, columns) == row / 16 * Stride(columns) + 16 + row % 16 * (columns / 2) + c;
    FlatSplits(row, 2 * c, columns);
    FlatSplits(row, 2 * c + 1, columns);
    assert BaseIndex(row, columns) < |fixedPlane|;
  }

  /** The code of a position when the first replacements are applied. */
  ghost function Patched(fixedPlane: seq<Byte>, columns: nat, entries: seq<Entry>, position: nat): nat
    requires columns > 0
  {
    match Replacement(entries, position)
    case Some(value) => value
    case None => Coded(fixedPlane, columns, position)
  }

  lemma PatchSnoc(fixedPlane: seq<Byte>, columns: nat, entries: seq<Entry>, total: nat, i: nat, position: nat)
    requires columns > 0 && Ordered(entries, total) && i < |entries|
    ensures Patched(fixedPlane, columns, entries[..i + 1], position)
         == if position == entries[i].position then entries[i].value
            else Patched(fixedPlane, columns, entries[..i], position)
  {
    var before, after := entries[..i], entries[..i + 1];
    assert after == before + [entries[i]];
    assert Ordered(after, total);
    if position == entries[i].position {
      ReplacementAt(after, total, i);
    } else {
      SameReplacement(before, after, total, position);
    }
  }

  /** Lists with the same entry, or none, at a position replace it alike. */
  lemma SameReplacement(entries: seq<Entry>, entries': seq<Entry>, total: nat, position: nat)
    requires Ordered(entries', total)
    requires forall i {:trigger entries[i]} :: 0 <= i < |entries| && entries[i].position == position ==> entries[i] in entries'
    requires forall i {:trigger entries'[i]} :: 0 <= i < |entries'| && entries'[i].position == position ==> entries'[i] in entries
    ensures Replacement(entries, position) == Replacement(entries', position)
  {
    if i :| 0 <= i < |entries| && entries[i].position == position {
      var j :| 0 <= j < |entries'| && entries'[j] == entries[i];
      ReplacementAt(entries', total, j);
      forall i' | 0 <= i' < |entries| && entries[i'].position == position ensures entries[i'].value == entries'[j].value {
        var j' :| 0 <= j' < |entries'| && entries'[j'] == entries[i'];
        ReplacementAt(entries', total, j');
      }
    }
  }

  /** The loop applying replacements. */
  method Patch(ghost fixedPlane: seq<Byte>, columns: nat, entries: seq<Entry>, out: array<Byte>)
    requires columns > 0 && Ordered(entries, out.Length)
    requires forall k {:trigger out[k]} :: 0 <= k < out.Length ==> out[k] == Coded(fixedPlane, columns, k)
    modifies out
    ensures forall k {:trigger out[k]} :: 0 <= k < out.Length ==> out[k] == Patched(fixedPlane, columns, entries, k)
  {
    var i := 0;
    while i < |entries|
      invariant 0 <= i <= |entries|
      invariant forall k {:trigger out[k]} :: 0 <= k < out.Length ==> out[k] == Patched(fixedPlane, columns, entries[..i], k)
    {
      forall k | 0 <= k < out.Length
        ensures Patched(fixedPlane, columns, entries[..i + 1], k)
             == if k == entries[i].position then entries[i].value else Patched(fixedPlane, columns, entries[..i], k)
      {
        PatchSnoc(fixedPlane, columns, entries, out.Length, i, k);
      }
      out[entries[i].position] := entries[i].value;
      i := i + 1;
    }
    assert entries[..i] == entries;
  }

  method RejectInvalidScaleCodes(values: seq<Byte>) returns (ok: bool)
    ensures ok <==> AllCodes(values)
  {
    var i := 0;
    while i < |values|
      invariant 0 <= i <= |values|
      invariant forall k {:trigger values[k]} :: 0 <= k < i ==> values[k] <= MAX_SCALE_CODE
    {
      if values[i] > MAX_SCALE_CODE { return false; }
      i := i + 1;
    }
    ok := true;
  }

  /** The whole matrix; fails closed on any broken invariant of the planes and on any
      code that is no positive finite scale. */
  method ExpandScalePlanes(fixedPlane: seq<Byte>, exceptions: seq<Byte>, rows: int, columns: int)
      returns (r: Result<seq<Byte>, CsfError>)
    ensures r.Ok? <==> GoodPlanes(Planes(fixedPlane, exceptions), rows, columns)
                       && AllCodes(Matrix(Planes(fixedPlane, exceptions), rows, columns))
    ensures r.Ok? ==> r.value == Matrix(Planes(fixedPlane, exceptions), rows, columns)
    ensures r == Err(BadScaleCode) <==> GoodPlanes(Planes(fixedPlane, exceptions), rows, columns)
                                        && !AllCodes(Matrix(Planes(fixedPlane, exceptions), rows, columns))
  {
    var bad := ValidateFixedPlane(fixedPlane, rows, columns);
    if bad.Some? { return Err(bad.value); }
    var decoded := DecodeExceptions(exceptions, rows, columns);
    if decoded.Err? { return Err(decoded.error); }
    var out := new Byte[rows * columns];
    ExpandRows(fixedPlane, rows, columns, out);
    Patch(fixedPlane, columns, decoded.value, out);
    PatchedIsMatrix(Planes(fixedPlane, exceptions), rows, columns, out[..]);
    var ok := RejectInvalidScaleCodes(out[..]);
    r := if ok then Ok(out[..]) else Err(BadScaleCode);
  }

  lemma PatchedIsMatrix(planes: Planes, rows: nat, columns: nat, out: seq<Byte>)
    requires columns > 0 && |out| == rows * columns
    requires forall k {:trigger out[k]} :: 0 <= k < |out| ==> out[k] == Patched(planes.fixedPlane, columns, Entries(planes.exceptions), k)
    ensures out == Matrix(planes, rows, columns)
  {
    forall k | 0 <= k < |out| ensures out[k] == Matrix(planes, rows, columns)[k] {
      FlatJoins(k, columns);
    }
  }

  method ExpandRows(fixedPlane: seq<Byte>, rows: nat, columns: nat, out: array<Byte>)
    requires GoodFixed(fixedPlane, rows, columns) && out.Length == rows * columns
    modifies out
    ensures forall k {:trigger out[k]} :: 0 <= k < out.Length ==> out[k] == Coded(fixedPlane, columns, k)
  {
    var slab := 0;
    while slab < rows / 16
      invariant 0 <= slab <= rows / 16
      invariant forall k {:trigger out[k]} :: 0 <= k < 16 * slab * columns && k < out.Length ==> out[k] == Coded(fixedPlane, columns, k)
    {
      ExpandSlab(fixedPlane, rows, columns, slab, out);
      slab := slab + 1;
    }
    assert 16 * slab == rows;
  }

  method ExpandSlab(fixedPlane: seq<Byte>, rows: nat, columns: nat, slab: nat, out: array<Byte>)
    requires GoodFixed(fixedPlane, rows, columns) && out.Length == rows * columns && slab < rows / 16
    requires forall k {:trigger out[k]} :: 0 <= k < 16 * slab * columns && k < out.Length ==> out[k] == Coded(fixedPlane, columns, k)
    modifies out
    ensures forall k {:trigger out[k]} :: 0 <= k < 16 * (slab + 1) * columns && k < out.Length ==> out[k] == Coded(fixedPlane, columns, k)
  {
    var r := 0;
    while r < 16
      invariant 0 <= r <= 16
      invariant forall k {:trigger out[k]} :: 0 <= k < (16 * slab + r) * columns && k < out.Length ==> out[k] == Coded(fixedPlane, columns, k)
    {
      var row := slab * 16 + r;
      ExpandRow(fixedPlane, rows, columns, row, out);
      assert (row + 1) * columns == row * columns + columns;
      r := r + 1;
    }
  }

  // ---------------------------------------------------------------------
  // Windows

  datatype Window = Window(row0: int, rowLen: int, col0: int, colLen: int)

  predicate GoodWindow(w: Window, rows: int, columns: int) {
    && 0 <= w.row0 && 0 <= w.rowLen && 0 <= w.col0 && 0 <= w.colLen
    && w.row0 + w.rowLen <= rows && w.col0 + w.colLen <= columns
  }

  function Cells(w: Window): int { w.rowLen * w.colLen }

  /** The matrix row and column of cell k of a window. */
  function CellRow(w: Window, k: nat): nat {
    if w.colLen > 0 && w.row0 >= 0 then w.row0 + k / w.colLen else 0
  }

  function CellCol(w: Window, k: nat): nat {
    if w.colLen > 0 && w.col0 >= 0 then w.col0 + k % w.colLen else 0
  }

  function WindowPosition(w: Window, columns: nat, k: nat): nat {
    Flat(CellRow(w, k), CellCol(w, k), columns)
  }

  ghost function WindowMatrix(planes: Planes, columns: nat, w: Window): (m: seq<nat>)
    requires Cells(w) >= 0
    ensures |m| == Cells(w)
    ensures forall k {:trigger m[k]} :: 0 <= k < |m| ==> m[k] == ScaleAt(planes, columns, CellRow(w, k), CellCol(w, k))
  {
    seq(Cells(w), k requires 0 <= k < Cells(w) => ScaleAt(planes, columns, CellRow(w, k), CellCol(w, k)))
  }

  lemma CellInside(w: Window, rows: nat, columns: nat, k: nat)
    requires GoodWindow(w, rows, columns) && k < Cells(w)
    ensures w.colLen > 0 && k == Flat(CellRow(w, k) - w.row0, CellCol(w, k) - w.col0, w.colLen)
    ensures w.row0 <= CellRow(w, k) < w.row0 + w.rowLen && w.col0 <= CellCol(w, k) < w.col0 + w.colLen
    ensures WindowPosition(w, columns, k) / columns == CellRow(w, k)
    ensures WindowPosition(w, columns, k) % columns == CellCol(w, k)
  {
    RowBelow(k, w.rowLen, w.colLen);
    FlatJoins(k, w.colLen);
    FlatSplits(CellRow(w, k), CellCol(w, k), columns);
  }

  /** Cell c of row r of the window. */
  lemma CellAt(w: Window, r: nat, c: nat)
    requires 0 <= w.row0 && 0 <= w.col0 && r < w.rowLen && c < w.colLen
    ensures 0 <= Flat(r, c, w.colLen) < Cells(w)
    ensures CellRow(w, Flat(r, c, w.colLen)) == w.row0 + r && CellCol(w, Flat(r, c, w.colLen)) == w.col0 + c
  {
    FlatSplits(r, c, w.colLen);
    FlatBelow(r, c, w.colLen, w.rowLen);
  }

  predicate Inside(w: Window, row: nat, col: nat) {
    w.row0 <= row < w.row0 + w.rowLen && w.col0 <= col < w.col0 + w.colLen
  }

  lemma CellOfPosition(w: Window, rows: nat, columns: nat, row: nat, col: nat, k: nat)
    requires GoodWindow(w, rows, columns) && col < columns && k < Cells(w)
    ensures WindowPosition(w, columns, k) == Flat(row, col, columns) <==>
              Inside(w, row, col) && k == Flat(row - w.row0, col - w.col0, w.colLen)
  {
    CellInside(w, rows, columns, k);
    FlatSplits(row, col, columns);
    if Inside(w, row, col) {
      CellAt(w, row - w.row0, col - w.col0);
    }
  }

  /** The cell a position falls into. */
  function CellIndex(w: Window, columns: nat, position: nat): Option<nat>
    requires columns > 0
  {
    var row, col := position / columns, position % columns;
    if Inside(w, row, col)
    then Some(Flat(row - w.row0, col - w.col0, Max(0, w.colLen))) else None
  }

  lemma FallsInto(w: Window, rows: nat, columns: nat, position: nat, k: nat)
    requires GoodWindow(w, rows, columns) && columns > 0 && k < Cells(w)
    ensures WindowPosition(w, columns, k) == position <==> CellIndex(w, columns, position) == Some(k)
  {
    FlatJoins(position, columns);
    CellOfPosition(w, rows, columns, position / columns, position % columns, k);
  }

  lemma FallsInside(w: Window, rows: nat, columns: nat, position: nat)
    requires GoodWindow(w, rows, columns) && columns > 0 && CellIndex(w, columns, position).Some?
    ensures CellIndex(w, columns, position).value < Cells(w)
  {
    CellAt(w, position / columns - w.row0, position % columns - w.col0);
  }

  function PackedStart(row: nat, columns: nat): nat {
    row / 16 * Stride(columns) + 16 + row % 16 * (columns / 2)
  }

  lemma PackedAt(row: nat, c: nat, columns: nat)
    ensures PackedIndex(row, c, columns) == PackedStart(row, columns) + c
  {
  }

  method WindowRows(fixedPlane: seq<Byte>, rows: nat, columns: nat, w: Window, out: array<Byte>)
    requires GoodFixed(fixedPlane, rows, columns) && GoodWindow(w, rows, columns) && out.Length == Cells(w)
    modifies out
    ensures forall k {:trigger out[k]} :: 0 <= k < out.Length ==> out[k] == Coded(fixedPlane, columns, WindowPosition(w, columns, k))
  {
    var r := 0;
    while r < w.rowLen
      invariant 0 <= r <= w.rowLen
      invariant forall k {:trigger out[k]} :: 0 <= k < r * w.colLen && k < out.Length ==>
                  out[k] == Coded(fixedPlane, columns, WindowPosition(w, columns, k))
    {
      WindowRow(fixedPlane, rows, columns, w, r, out);
      assert (r + 1) * w.colLen == r * w.colLen + w.colLen;
      r := r + 1;
    }
  }

  method WindowRow(fixedPlane: seq<Byte>, rows: nat, columns: nat, w: Window, r: nat, out: array<Byte>)
    requires GoodFixed(fixedPlane, rows, columns) && GoodWindow(w, rows, columns) && out.Length == Cells(w)
    requires r < w.rowLen
    modifies out
    ensures forall k {:trigger out[k]} :: 0 <= k < r * w.colLen && k < out.Length ==> out[k] == old(out[k])
    ensures forall k {:trigger out[k]} :: r * w.colLen <= k < r * w.colLen + w.colLen && k < out.Length ==>
              out[k] == Coded(fixedPlane, columns, WindowPosition(w, columns, k))
  {
    var row := w.row0 + r;
    IndexBelow(row, 0, rows, columns);
    assert BaseIndex(row, columns) == row / 16 * Stride(columns) + row % 16;
    var base := fixedPlane[row / 16 * Stride(columns) + row % 16];
    RowsApart(r, w.rowLen, w.colLen);
    WindowCells(fixedPlane, rows, columns, w, r, base, PackedStart(row, columns), out, r * w.colLen);
  }

  method WindowCells(fixedPlane: seq<Byte>, ghost rows: nat, columns: nat, w: Window, ghost r: nat, base: Byte, packedStart: nat,
                     out: array<Byte>, outStart: nat)
    requires GoodFixed(fixedPlane, rows, columns) && GoodWindow(w, rows, columns) && r < w.rowLen
    requires base == Base(fixedPlane, columns, w.row0 + r) && packedStart == PackedStart(w.row0 + r, columns)
    requires outStart == Flat(r, 0, w.colLen) && outStart + w.colLen <= out.Length
    modifies out
    ensures forall k {:trigger out[k]} :: 0 <= k < outStart ==> out[k] == old(out[k])
    ensures forall k {:trigger out[k]} :: outStart <= k < outStart + w.colLen ==>
              out[k] == Coded(fixedPlane, columns, WindowPosition(w, columns, k))
  {
    var c := 0;
    while c < w.colLen
      invariant 0 <= c <= w.colLen
      invariant forall k {:trigger out[k]} :: 0 <= k < outStart ==> out[k] == old(out[k])
      invariant forall k {:trigger out[k]} :: outStart <= k < outStart + c ==>
                  out[k] == Coded(fixedPlane, columns, WindowPosition(w, columns, k))
    {
      CellCode(fixedPlane, rows, columns, w, r, c);
      out[outStart + c] := base + PairNibble(fixedPlane[packedStart + (w.col0 + c) / 2], w.col0 + c);
      c := c + 1;
    }
  }

  lemma CellCode(fixedPlane: seq<Byte>, rows: nat, columns: nat, w: Window, r: nat, c: nat)
    requires GoodFixed(fixedPlane, rows, columns) && GoodWindow(w, rows, columns) && r < w.rowLen && c < w.colLen
    ensures PackedStart(w.row0 + r, columns) + (w.col0 + c) / 2 < |fixedPlane|
    ensures Base(fixedPlane, columns, w.row0 + r) <= 240
    ensures Coded(fixedPlane, columns, WindowPosition(w, columns, Flat(r, 0, w.colLen) + c))
         == Base(fixedPlane, columns, w.row0 + r)
            + PairNibble(fixedPlane[PackedStart(w.row0 + r, columns) + (w.col0 + c) / 2], w.col0 + c)
  {
    CellAt(w, r, c);
    CellInside(w, rows, columns, Flat(r, c, w.colLen));
    assert Flat(r, 0, w.colLen) + c == Flat(r, c, w.colLen);
    IndexBelow(w.row0 + r, (w.col0 + c) / 2, rows, columns);
    PackedAt(w.row0 + r, (w.col0 + c) / 2, columns);
    assert BaseIndex(w.row0 + r, columns) < |fixedPlane|;
  }

  /** Apply the replacements that fall into the window. */
  method PatchWindow(ghost fixedPlane: seq<Byte>, rows: nat, columns: nat, entries: seq<Entry>, w: Window, out: array<Byte>)
    requires columns > 0 && Ordered(entries, rows * columns) && GoodWindow(w, rows, columns) && out.Length == Cells(w)
    requires forall k {:trigger out[k]} :: 0 <= k < out.Length ==> out[k] == Coded(fixedPlane, columns, WindowPosition(w, columns, k))
    modifies out
    ensures forall k {:trigger out[k]} :: 0 <= k < out.Length ==>
              out[k] == Patched(fixedPlane, columns, entries, WindowPosition(w, columns, k))
  {
    var i := 0;
    while i < |entries|
      invariant 0 <= i <= |entries|
      invariant forall k {:trigger out[k]} :: 0 <= k < out.Length ==>
                  out[k] == Patched(fixedPlane, columns, entries[..i], WindowPosition(w, columns, k))
    {
      PatchNext(fixedPlane, rows, columns, entries, w, i, out);
      i := i + 1;
    }
    assert entries[..i] == entries;
  }

  lemma PatchCell(fixedPlane: seq<Byte>, rows: nat, columns: nat, entries: seq<Entry>, w: Window, i: nat, k: nat)
    requires columns > 0 && Ordered(entries, rows * columns) && GoodWindow(w, rows, columns)
    requires i < |entries| && k < Cells(w)
    ensures Patched(fixedPlane, columns, entries[..i + 1], WindowPosition(w, columns, k))
         == if CellIndex(w, columns, entries[i].position) == Some(k) then entries[i].value
            else Patched(fixedPlane, columns, entries[..i], WindowPosition(w, columns, k))
  {
    PatchSnoc(fixedPlane, columns, entries, rows * columns, i, WindowPosition(w, columns, k));
    FallsInto(w, rows, columns, entries[i].position, k);
  }

  method PatchNext(ghost fixedPlane: seq<Byte>, ghost rows: nat, columns: nat, entries: seq<Entry>, w: Window, i: nat, out: array<Byte>)
    requires columns > 0 && Ordered(entries, rows * columns) && GoodWindow(w, rows, columns) && out.Length == Cells(w)
    requires i < |entries|
    requires forall k {:trigger out[k]} :: 0 <= k < out.Length ==>
               out[k] == Patched(fixedPlane, columns, entries[..i], WindowPosition(w, columns, k))
    modifies out
    ensures forall k {:trigger out[k]} :: 0 <= k < out.Length ==>
              out[k] == Patched(fixedPlane, columns, entries[..i + 1], WindowPosition(w, columns, k))
  {
    var cell := CellIndex(w, columns, entries[i].position);
    if cell.Some? {
      FallsInside(w, rows, columns, entries[i].position);
      out[cell.value] := entries[i].value;
    }
    forall k {:trigger out[k]} | 0 <= k < out.Length
      ensures out[k] == Patched(fixedPlane, columns, entries[..i + 1], WindowPosition(w, columns, k))
    {
      PatchCell(fixedPlane, rows, columns, entries, w, i, k);
    }
  }

  /** Part of the matrix; the planes are still checked as a whole. */
  method ExpandScaleWindow(fixedPlane: seq<Byte>, exceptions: seq<Byte>, rows: int, columns: int, w: Window)
      returns (r: Result<seq<Byte>, CsfError>)
    ensures r.Ok? <==> GoodPlanes(Planes(fixedPlane, exceptions), rows, columns) && GoodWindow(w, rows, columns)
                       && AllCodes(WindowMatrix(Planes(fixedPlane, exceptions), columns, w))
    ensures r.Ok? ==> r.value == WindowMatrix(Planes(fixedPlane, exceptions), columns, w)
    ensures r == Err(BadWindow) <==> GoodPlanes(Planes(fixedPlane, exceptions), rows, columns) && !GoodWindow(w, rows, columns)
  {
    var bad := ValidateFixedPlane(fixedPlane, rows, columns);
    if bad.Some? { return Err(bad.value); }
    var decoded := DecodeExceptions(exceptions, rows, columns);
    if decoded.Err? { return Err(decoded.error); }
    if !GoodWindow(w, rows, columns) { return Err(BadWindow); }
    var out := new Byte[Cells(w)];
    WindowRows(fixedPlane, rows, columns, w, out);
    PatchWindow(fixedPlane, rows, columns, decoded.value, w, out);
    PatchedIsWindow(Planes(fixedPlane, exceptions), rows, columns, w, out[..]);
    var ok := RejectInvalidScaleCodes(out[..]);
    r := if ok then Ok(out[..]) else Err(BadScaleCode);
  }

  lemma PatchedIsWindow(planes: Planes, rows: nat, columns: nat, w: Window, out: seq<Byte>)
    requires columns > 0 && GoodWindow(w, rows, columns) && |out| == Cells(w)
    requires forall k {:trigger out[k]} :: 0 <= k < |out| ==>
               out[k] == Patched(planes.fixedPlane, columns, Entries(planes.exceptions), WindowPosition(w, columns, k))
    ensures out == WindowMatrix(planes, columns, w)
  {
    forall k | 0 <= k < |out| ensures out[k] == WindowMatrix(planes, columns, w)[k] {
      CellInside(w, rows, columns, k);
    }
  }
}
