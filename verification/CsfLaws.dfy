/** Slicing, fusing and sharding commute with decoding (src/csf_codec.ts). */
module CsfLaws {
  import opened Wrappers
  import TokenChunks
  import opened CsfCodec
  import opened CsfShards

  // ---------------------------------------------------------------------
  // Row-major tables

  /** m lists f row by row. */
  ghost predicate Tabulates(m: seq<nat>, f: (nat, nat) -> nat, rows: nat, columns: nat) {
    && columns > 0 && |m| == rows * columns
    && forall k {:trigger m[k]} :: 0 <= k < |m| ==> m[k] == f(RowOf(k, columns), ColOf(k, columns))
  }

  /** Dropping r whole rows in front. */
  lemma RowAbove(k: nat, r: nat, columns: nat)
    requires columns > 0
    ensures RowOf(r * columns + k, columns) == r + RowOf(k, columns) && ColOf(r * columns + k, columns) == ColOf(k, columns)
  {
    FlatJoins(k, columns);
    FlatSplits(r + k / columns, k % columns, columns);
    assert (r + k / columns) * columns == r * columns + k / columns * columns;
  }

  lemma RowsFit(r0: nat, r1: nat, rows: nat, columns: nat)
    requires r0 <= r1 <= rows
    ensures r0 * columns <= r1 * columns <= rows * columns
    ensures (r1 - r0) * columns == r1 * columns - r0 * columns
  {
    ProductMono(r0, r1, columns, columns);
    ProductMono(r1, rows, columns, columns);
  }

  lemma ProductMono(a: nat, b: nat, c: nat, d: nat)
    requires a <= b && c <= d
    ensures a * c <= b * d
  {
    assert (b - a) * c >= 0;
    assert b * (d - c) >= 0;
  }

  /** f and g are the same table, g from row r0 on. */
  ghost predicate SameFrom(f: (nat, nat) -> nat, g: (nat, nat) -> nat, r0: nat, n: nat, columns: nat) {
    forall row: nat, col: nat {:trigger g(row, col)} :: row < n && col < columns ==> g(row, col) == f(r0 + row, col)
  }

  /** `part` is the n elements of `whole` from i on. */
  ghost predicate Covers(part: seq<nat>, whole: seq<nat>, i: nat, n: nat) {
    i + n <= |whole| && whole[..i] + part == whole[..i + n]
  }

  lemma RowsOfTable(m: seq<nat>, f: (nat, nat) -> nat, rows: nat, columns: nat, part: seq<nat>, g: (nat, nat) -> nat, r0: nat, r1: nat)
    requires Tabulates(m, f, rows, columns) && r0 <= r1 <= rows && Tabulates(part, g, r1 - r0, columns)
    requires SameFrom(f, g, r0, r1 - r0, columns)
    ensures Covers(part, m, r0 * columns, (r1 - r0) * columns)
  {
    RowsFit(r0, r1, rows, columns);
    forall k {:trigger part[k]} | 0 <= k < |part| ensures part[k] == m[r0 * columns + k] {
      RowBelow(k, r1 - r0, columns);
      RowAbove(k, r0, columns);
      assert g(RowOf(k, columns), ColOf(k, columns)) == f(r0 + RowOf(k, columns), ColOf(k, columns));
    }
  }

  lemma HalvesOfTable(m: seq<nat>, f: (nat, nat) -> nat, rows: nat, columns: nat,
                      m1: seq<nat>, f1: (nat, nat) -> nat, m2: seq<nat>, f2: (nat, nat) -> nat)
    requires Tabulates(m, f, 2 * rows, columns) && Tabulates(m1, f1, rows, columns) && Tabulates(m2, f2, rows, columns)
    requires SameFrom(f, f1, 0, rows, columns) && SameFrom(f, f2, rows, rows, columns)
    ensures m == m1 + m2
  {
    assert 2 * rows * columns == rows * columns + rows * columns;
    forall k {:trigger m1[k]} | 0 <= k < |m1| ensures m[k] == m1[k] {
      RowBelow(k, rows, columns);
      assert f1(RowOf(k, columns), ColOf(k, columns)) == f(0 + RowOf(k, columns), ColOf(k, columns));
    }
    forall k {:trigger m2[k]} | 0 <= k < |m2| ensures m[rows * columns + k] == m2[k] {
      RowBelow(k, rows, columns);
      RowAbove(k, rows, columns);
      assert f2(RowOf(k, columns), ColOf(k, columns)) == f(rows + RowOf(k, columns), ColOf(k, columns));
    }
  }

  /** A table of scales. */
  ghost function TableOf(fixedPlane: seq<Byte>, entries: seq<Entry>, columns: nat): (nat, nat) -> nat {
    (row, col) => ScaleIn(fixedPlane, entries, columns, row, col)
  }

  ghost function ScaleFn(planes: Planes, columns: nat): (nat, nat) -> nat {
    TableOf(planes.fixedPlane, Entries(planes.exceptions), columns)
  }

  /** The cells of (b, e2) are those of (c, e) from row r0 on. */
  ghost predicate SameCells(c: seq<Byte>, e: seq<Entry>, b: seq<Byte>, e2: seq<Entry>, r0: nat, rows: nat, columns: nat) {
    forall row: nat, col: nat {:trigger ScaleIn(b, e2, columns, row, col)} :: row < rows && col < columns ==>
      ScaleIn(c, e, columns, r0 + row, col) == ScaleIn(b, e2, columns, row, col)
  }

  lemma SameCellsSameTable(c: seq<Byte>, e: seq<Entry>, b: seq<Byte>, e2: seq<Entry>, r0: nat, rows: nat, columns: nat)
    requires SameCells(c, e, b, e2, r0, rows, columns)
    ensures SameFrom(TableOf(c, e, columns), TableOf(b, e2, columns), r0, rows, columns)
  {
    var f, g := TableOf(c, e, columns), TableOf(b, e2, columns);
    forall row: nat, col: nat {:trigger g(row, col)} | row < rows && col < columns ensures g(row, col) == f(r0 + row, col) {
      assert g(row, col) == ScaleIn(b, e2, columns, row, col);
    }
  }

  lemma MatrixTabulates(planes: Planes, rows: nat, columns: nat)
    requires columns > 0
    ensures Tabulates(Matrix(planes, rows, columns), ScaleFn(planes, columns), rows, columns)
  {
  }

  // ---------------------------------------------------------------------
  // Windows

  /** Whenever the whole matrix expands, every in-range window expands too, to the
      same codes. */
  lemma WindowIsSubmatrix(planes: Planes, rows: nat, columns: nat, w: Window)
    requires GoodPlanes(planes, rows, columns) && AllCodes(Matrix(planes, rows, columns)) && GoodWindow(w, rows, columns)
    ensures AllCodes(WindowMatrix(planes, columns, w))
    ensures forall r: nat, c: nat :: r < w.rowLen && c < w.colLen ==>
              && Flat(r, c, w.colLen) < |WindowMatrix(planes, columns, w)|
              && Flat(w.row0 + r, w.col0 + c, columns) < |Matrix(planes, rows, columns)|
              && WindowMatrix(planes, columns, w)[Flat(r, c, w.colLen)]
                 == Matrix(planes, rows, columns)[Flat(w.row0 + r, w.col0 + c, columns)]
  {
    var full, part := Matrix(planes, rows, columns), WindowMatrix(planes, columns, w);
    forall k | 0 <= k < |part| ensures part[k] <= MAX_SCALE_CODE {
      CellInside(w, rows, columns, k);
      MatrixAt(planes, rows, columns, CellRow(w, k), CellCol(w, k));
    }
    forall r: nat, c: nat | r < w.rowLen && c < w.colLen
      ensures Flat(r, c, w.colLen) < |part| && Flat(w.row0 + r, w.col0 + c, columns) < |full|
      ensures part[Flat(r, c, w.colLen)] == full[Flat(w.row0 + r, w.col0 + c, columns)]
    {
      CellAt(w, r, c);
      MatrixAt(planes, rows, columns, w.row0 + r, w.col0 + c);
    }
  }

  // ---------------------------------------------------------------------
  // Words past 24 bits

  lemma EntryPositions(bytes: seq<Byte>)
    ensures Fits(Entries(bytes))
  {
  }

  /** All codes under a list of replacements. */
  ghost function PatchedAll(fixedPlane: seq<Byte>, columns: nat, entries: seq<Entry>, total: nat): (m: seq<nat>)
    requires columns > 0
    ensures |m| == total && forall k {:trigger m[k]} :: 0 <= k < total ==> m[k] == Patched(fixedPlane, columns, entries, k)
  {
    seq(total, k requires 0 <= k < total => Patched(fixedPlane, columns, entries, k))
  }

  lemma MatrixIsPatched(planes: Planes, rows: nat, columns: nat)
    requires columns > 0
    ensures Matrix(planes, rows, columns)
         == PatchedAll(planes.fixedPlane, columns, Entries(planes.exceptions), rows * columns)
  {
    var m := Matrix(planes, rows, columns);
    forall k {:trigger m[k]} | 0 <= k < |m| ensures m[k] == Patched(planes.fixedPlane, columns, Entries(planes.exceptions), k) {
      FlatJoins(k, columns);
    }
  }

  /** What written words read back as. */
  function AllTruncated(entries: seq<Entry>): (r: seq<Entry>)
    ensures |r| == |entries| && forall i {:trigger r[i]} :: 0 <= i < |r| ==> r[i] == Truncated(entries[i])
  {
    seq(|entries|, i requires 0 <= i < |entries| => Truncated(entries[i]))
  }

  lemma EncodeTruncates(entries: seq<Entry>)
    ensures Entries(Encode(entries)) == AllTruncated(entries)
  {
    forall i | 0 <= i < |entries| ensures Entries(Encode(entries))[i] == AllTruncated(entries)[i] { EncodedEntry(entries, i); }
  }

  lemma FittingReadsBack(entries: seq<Entry>)
    requires Fits(entries)
    ensures AllTruncated(entries) == entries
  {
    forall i {:trigger entries[i]} | 0 <= i < |entries| ensures AllTruncated(entries)[i] == entries[i] { TruncatedExact(entries[i]); }
  }

  /** An entry past 24 bits does no harm: the code beneath it is its value already, and so is
      the code where it lands. */
  ghost predicate Harmless(fixedPlane: seq<Byte>, columns: nat, e: Entry)
    requires columns > 0
  {
    e.position >= POSITION_LIMIT ==>
      && Coded(fixedPlane, columns, e.position) == e.value
      && Coded(fixedPlane, columns, e.position % POSITION_LIMIT) == TopByte(e)
  }

  ghost predicate AllHarmless(fixedPlane: seq<Byte>, columns: nat, entries: seq<Entry>)
    requires columns > 0
  {
    forall i {:trigger entries[i]} :: 0 <= i < |entries| ==> Harmless(fixedPlane, columns, entries[i])
  }

  lemma NoReplacement(entries: seq<Entry>, position: nat)
    requires forall i {:trigger entries[i]} :: 0 <= i < |entries| ==> entries[i].position != position
    ensures Replacement(entries, position) == None
  {
  }

  lemma ReadsApart(entries: seq<Entry>, total: nat, i: nat, k: nat)
    requires Ordered(AllTruncated(entries), total) && i < |entries| && k < |entries|
    ensures i != k ==> Truncated(entries[i]).position != Truncated(entries[k]).position
  {
    var read := AllTruncated(entries);
    assert read[i] == Truncated(entries[i]) && read[k] == Truncated(entries[k]);
  }

  lemma HarmShows(fixedPlane: seq<Byte>, columns: nat, entries: seq<Entry>, total: nat, k: nat)
    requires columns > 0 && Ordered(entries, total) && Ordered(AllTruncated(entries), total) && k < |entries|
    requires entries[k].position >= POSITION_LIMIT
    ensures var p := entries[k].position;
            && Patched(fixedPlane, columns, entries, p) == entries[k].value
            && Patched(fixedPlane, columns, AllTruncated(entries), p) == Coded(fixedPlane, columns, p)
            && Patched(fixedPlane, columns, AllTruncated(entries), p % POSITION_LIMIT) == TopByte(entries[k])
            && Patched(fixedPlane, columns, entries, p % POSITION_LIMIT) == Coded(fixedPlane, columns, p % POSITION_LIMIT)
  {
    var read, p := AllTruncated(entries), entries[k].position;
    ReplacementAt(entries, total, k);
    assert read[k].position == p % POSITION_LIMIT;
    ReplacementAt(read, total, k);
    forall i {:trigger read[i]} | 0 <= i < |read| ensures read[i].position != p { assert read[i] == Truncated(entries[i]); }
    NoReplacement(read, p);
    forall i {:trigger entries[i]} | 0 <= i < |entries| ensures entries[i].position != p % POSITION_LIMIT {
      TruncatedExact(entries[i]);
      ReadsApart(entries, total, i, k);
    }
    NoReplacement(entries, p % POSITION_LIMIT);
  }

  lemma HarmlessAt(fixedPlane: seq<Byte>, columns: nat, entries: seq<Entry>, total: nat, position: nat)
    requires columns > 0 && Ordered(entries, total) && Ordered(AllTruncated(entries), total)
    requires AllHarmless(fixedPlane, columns, entries)
    ensures Patched(fixedPlane, columns, AllTruncated(entries), position) == Patched(fixedPlane, columns, entries, position)
  {
    var read := AllTruncated(entries);
    if k :| 0 <= k < |entries| && entries[k].position == position {
      ReplacementAt(entries, total, k);
      if position < POSITION_LIMIT {
        TruncatedExact(entries[k]);
        ReplacementAt(read, total, k);
      } else {
        HarmShows(fixedPlane, columns, entries, total, k);
        assert Harmless(fixedPlane, columns, entries[k]);
      }
    } else if k :| 0 <= k < |read| && read[k].position == position {
      TruncatedExact(entries[k]);
      assert entries[k].position != position;
      assert entries[k].position >= POSITION_LIMIT;
      HarmShows(fixedPlane, columns, entries, total, k);
      assert Harmless(fixedPlane, columns, entries[k]);
    } else {
      NoReplacement(entries, position);
      NoReplacement(read, position);
    }
  }

  /** Written replacements that pass the checks again decode to the same codes exactly when
      those past 24 bits do no harm. */
  lemma TruncationExact(fixedPlane: seq<Byte>, columns: nat, entries: seq<Entry>, total: nat)
    requires columns > 0 && Ordered(entries, total) && Ordered(AllTruncated(entries), total)
    ensures PatchedAll(fixedPlane, columns, AllTruncated(entries), total) == PatchedAll(fixedPlane, columns, entries, total)
       <==> AllHarmless(fixedPlane, columns, entries)
  {
    var was, now := PatchedAll(fixedPlane, columns, entries, total), PatchedAll(fixedPlane, columns, AllTruncated(entries), total);
    if AllHarmless(fixedPlane, columns, entries) {
      forall k | 0 <= k < total ensures now[k] == was[k] { HarmlessAt(fixedPlane, columns, entries, total, k); }
    }
    if now == was {
      forall k {:trigger entries[k]} | 0 <= k < |entries| ensures Harmless(fixedPlane, columns, entries[k]) {
        if entries[k].position >= POSITION_LIMIT {
          HarmShows(fixedPlane, columns, entries, total, k);
          assert now[entries[k].position] == was[entries[k].position];
          assert now[entries[k].position % POSITION_LIMIT] == was[entries[k].position % POSITION_LIMIT];
        }
      }
    }
  }

  /** The same for whole planes and what they should decode to. */
  lemma WrittenExact(planes: Planes, entries: seq<Entry>, rows: nat, columns: nat, expected: seq<nat>)
    requires columns > 0 && Ordered(entries, rows * columns) && Ordered(AllTruncated(entries), rows * columns)
    requires planes.exceptions == Encode(entries)
    requires expected == PatchedAll(planes.fixedPlane, columns, entries, rows * columns)
    ensures Matrix(planes, rows, columns) == expected <==> AllHarmless(planes.fixedPlane, columns, entries)
  {
    EncodeTruncates(entries);
    MatrixIsPatched(planes, rows, columns);
    TruncationExact(planes.fixedPlane, columns, entries, rows * columns);
  }

  // ---------------------------------------------------------------------
  // Slices of the exception list

  lemma RebasedCell(s: Slice, rows: nat, columns: nat, position: nat)
    requires GoodSlice(s, rows, columns) && columns > 0 && Rebased(s, columns, position).Some?
    ensures Rebased(s, columns, position).value < OutRows(s) * OutColumns(s)
    ensures OutColumns(s) <= columns ==> Rebased(s, columns, position).value <= position
  {
    var row, col := position / columns - s.r0, position % columns - s.c0;
    FlatBelow(row, col, OutColumns(s), OutRows(s));
    if OutColumns(s) <= columns {
      FlatJoins(position, columns);
      assert row * OutColumns(s) <= (position / columns) * columns by { ProductMono(row, position / columns, OutColumns(s), columns); }
    }
  }

  /** Rebasing keeps the order. */
  lemma RebasedOrder(s: Slice, rows: nat, columns: nat, p: nat, q: nat)
    requires GoodSlice(s, rows, columns) && columns > 0 && p < q
    requires Rebased(s, columns, p).Some? && Rebased(s, columns, q).Some?
    ensures Rebased(s, columns, p).value < Rebased(s, columns, q).value
  {
    FlatJoins(p, columns);
    FlatJoins(q, columns);
    FlatOrder(p / columns, p % columns, q / columns, q % columns, columns);
    FlatOrder(p / columns - s.r0, p % columns - s.c0, q / columns - s.r0, q % columns - s.c0, OutColumns(s));
  }

  /** Entry j of the slice comes from an earlier entry of the plane. */
  ghost predicate ComesFrom(entries: seq<Entry>, columns: nat, s: Slice, n: nat, e: Entry)
    requires columns > 0 && OutColumns(s) >= 0 && n <= |entries|
  {
    exists i {:trigger entries[i]} :: 0 <= i < n && Rebased(s, columns, entries[i].position) == Some(e.position) && entries[i].value == e.value
  }

  lemma {:induction false} SlicedComesFrom(entries: seq<Entry>, columns: nat, s: Slice, n: nat, j: nat)
    requires columns > 0 && OutColumns(s) >= 0 && n <= |entries| && j < |SlicedEntries(entries, columns, s, n)|
    ensures ComesFrom(entries, columns, s, n, SlicedEntries(entries, columns, s, n)[j])
  {
    if j < |SlicedEntries(entries, columns, s, n - 1)| {
      SlicedComesFrom(entries, columns, s, n - 1, j);
    } else {
      assert entries[n - 1] in entries;
    }
  }

  lemma {:induction false} SlicedHas(entries: seq<Entry>, columns: nat, s: Slice, n: nat, i: nat)
    requires columns > 0 && OutColumns(s) >= 0 && i < n <= |entries| && Rebased(s, columns, entries[i].position).Some?
    ensures Entry(Rebased(s, columns, entries[i].position).value, entries[i].value) in SlicedEntries(entries, columns, s, n)
  {
    if i < n - 1 { SlicedHas(entries, columns, s, n - 1, i); }
  }

  /** Sliced positions are sorted, unique and in range. */
  lemma {:induction false} SlicedOrdered(entries: seq<Entry>, rows: nat, columns: nat, s: Slice, n: nat)
    requires Ordered(entries, rows * columns) && GoodSlice(s, rows, columns) && columns > 0 && n <= |entries|
    ensures Ordered(SlicedEntries(entries, columns, s, n), OutRows(s) * OutColumns(s))
  {
    if n > 0 {
      SlicedOrdered(entries, rows, columns, s, n - 1);
      var before, moved := SlicedEntries(entries, columns, s, n - 1), Rebased(s, columns, entries[n - 1].position);
      if moved.Some? {
        RebasedCell(s, rows, columns, entries[n - 1].position);
        if before != [] {
          SlicedComesFrom(entries, columns, s, n - 1, |before| - 1);
          var i :| 0 <= i < n - 1 && Rebased(s, columns, entries[i].position) == Some(before[|before| - 1].position);
          RebasedOrder(s, rows, columns, entries[i].position, entries[n - 1].position);
        }
        OrderedSnoc(before, Entry(moved.value, entries[n - 1].value), OutRows(s) * OutColumns(s));
      }
    }
  }

  /** A sliced position holds the replacement of the position it came from. */
  lemma SlicedReplacement(entries: seq<Entry>, rows: nat, columns: nat, s: Slice, row: nat, col: nat)
    requires Ordered(entries, rows * columns) && GoodSlice(s, rows, columns) && columns > 0
    requires row < OutRows(s) && col < OutColumns(s)
    ensures Replacement(SlicedEntries(entries, columns, s, |entries|), Flat(row, col, OutColumns(s)))
         == if row < SliceRows(s) && col < SliceColumns(s)
            then Replacement(entries, Flat(s.r0 + row, s.c0 + col, columns)) else None
  {
    var sliced, target := SlicedEntries(entries, columns, s, |entries|), Flat(row, col, OutColumns(s));
    SlicedOrdered(entries, rows, columns, s, |entries|);
    if j :| 0 <= j < |sliced| && sliced[j].position == target {
      SlicedComesFrom(entries, columns, s, |entries|, j);
      var i :| 0 <= i < |entries| && Rebased(s, columns, entries[i].position) == Some(target) && entries[i].value == sliced[j].value;
      RebasedSource(s, rows, columns, entries[i].position, row, col);
      ReplacementAt(entries, rows * columns, i);
      ReplacementAt(sliced, OutRows(s) * OutColumns(s), j);
    } else if row < SliceRows(s) && col < SliceColumns(s) {
      if i :| 0 <= i < |entries| && entries[i].position == Flat(s.r0 + row, s.c0 + col, columns) {
        FlatSplits(s.r0 + row, s.c0 + col, columns);
        SlicedHas(entries, columns, s, |entries|, i);
      }
    }
  }

  /** Only one position lands on a cell. */
  lemma RebasedSource(s: Slice, rows: nat, columns: nat, position: nat, row: nat, col: nat)
    requires GoodSlice(s, rows, columns) && columns > 0 && col < OutColumns(s)
    requires Rebased(s, columns, position) == Some(Flat(row, col, OutColumns(s)))
    ensures row < SliceRows(s) && col < SliceColumns(s) && position == Flat(s.r0 + row, s.c0 + col, columns)
  {
    FlatJoins(position, columns);
    FlatSplits(row, col, OutColumns(s));
    FlatSplits(position / columns - s.r0, position % columns - s.c0, OutColumns(s));
  }

  // ---------------------------------------------------------------------
  // Slicing commutes with decoding

  /** What a slice should decode to: the submatrix, the row's base in appended
      columns, and the code of 1.0 in appended rows. */
  ghost function ExpectedScale(planes: Planes, columns: nat, s: Slice, row: nat, col: nat): nat
    requires 0 <= s.r0 && 0 <= s.c0
  {
    if row >= SliceRows(s) then PADDED_SCALE_CODE
    else if col >= SliceColumns(s) then Base(planes.fixedPlane, columns, s.r0 + row)
    else ScaleAt(planes, columns, s.r0 + row, s.c0 + col)
  }

  ghost function EntriesOf(planes: Planes, columns: nat, s: Slice): seq<Entry>
    requires columns > 0 && OutColumns(s) >= 0
  {
    var entries := Entries(planes.exceptions);
    SlicedEntries(entries, columns, s, |entries|)
  }

  /** The words of a slice read back as the rebased replacements iff these fit in 24
      bits; otherwise high bits of a position end up in its value. */
  lemma SliceWords(planes: Planes, columns: nat, s: Slice)
    requires columns > 0 && 0 <= s.r0 && 0 <= s.c0 && OutColumns(s) >= 2 && OutRows(s) >= 0
    ensures Entries(SlicedPlanes(planes, columns, s).exceptions) == EntriesOf(planes, columns, s) <==> Fits(EntriesOf(planes, columns, s))
  {
    EncodeExact(EntriesOf(planes, columns, s));
  }

  /** The scales of a sliced plane under the sliced replacements. */
  lemma SliceScale(fixedPlane: seq<Byte>, entries: seq<Entry>, rows: nat, columns: nat, s: Slice, row: nat, col: nat)
    requires GoodGeometry(rows, columns) && Ordered(entries, rows * columns) && GoodSlice(s, rows, columns)
    requires row < OutRows(s) && col < OutColumns(s)
    ensures ScaleIn(SlicedFixed(fixedPlane, columns, s), SlicedEntries(entries, columns, s, |entries|), OutColumns(s), row, col)
         == if row >= SliceRows(s) then PADDED_SCALE_CODE
            else if col >= SliceColumns(s) then Base(fixedPlane, columns, s.r0 + row)
            else ScaleIn(fixedPlane, entries, columns, s.r0 + row, s.c0 + col)
  {
    SlicedReplacement(entries, rows, columns, s, row, col);
    CodeCommutes(fixedPlane, rows, columns, s, row, col);
  }

  /** How many scales a slice has. */
  function Scales(s: Slice): nat
    requires OutRows(s) >= 0 && OutColumns(s) >= 0
  {
    OutRows(s) * OutColumns(s)
  }

  /** What the whole slice should decode to, row by row. */
  ghost function ExpectedMatrix(planes: Planes, columns: nat, s: Slice): (m: seq<nat>)
    requires 0 <= s.r0 && 0 <= s.c0 && OutColumns(s) > 0 && OutRows(s) >= 0
    ensures |m| == Scales(s)
    ensures forall k {:trigger m[k]} :: 0 <= k < |m| ==>
              m[k] == ExpectedScale(planes, columns, s, RowOf(k, OutColumns(s)), ColOf(k, OutColumns(s)))
  {
    seq(Scales(s), k requires 0 <= k < Scales(s) =>
      ExpectedScale(planes, columns, s, RowOf(k, OutColumns(s)), ColOf(k, OutColumns(s))))
  }

  /** It is the sliced plane under the rebased replacements. */
  lemma ExpectedIsPatched(planes: Planes, rows: nat, columns: nat, s: Slice)
    requires GoodPlanes(planes, rows, columns) && GoodSlice(s, rows, columns)
    ensures ExpectedMatrix(planes, columns, s)
         == PatchedAll(SlicedFixed(planes.fixedPlane, columns, s), OutColumns(s), EntriesOf(planes, columns, s), Scales(s))
  {
    var m, out := ExpectedMatrix(planes, columns, s), OutColumns(s);
    var f, e := SlicedFixed(planes.fixedPlane, columns, s), EntriesOf(planes, columns, s);
    forall k {:trigger m[k]} | 0 <= k < |m| ensures m[k] == Patched(f, out, e, k) {
      RowBelow(k, OutRows(s), out);
      PatchedCell(f, out, e, k);
      ExpectedCell(planes, rows, columns, s, RowOf(k, out), ColOf(k, out), f, e);
    }
  }

  lemma ExpectedCell(planes: Planes, rows: nat, columns: nat, s: Slice, row: nat, col: nat, f: seq<Byte>, e: seq<Entry>)
    requires GoodPlanes(planes, rows, columns) && GoodSlice(s, rows, columns) && row < OutRows(s) && col < OutColumns(s)
    requires f == SlicedFixed(planes.fixedPlane, columns, s) && e == EntriesOf(planes, columns, s)
    ensures ScaleIn(f, e, OutColumns(s), row, col) == ExpectedScale(planes, columns, s, row, col)
  {
    SliceScale(planes.fixedPlane, Entries(planes.exceptions), rows, columns, s, row, col);
  }

  lemma PatchedCell(fixedPlane: seq<Byte>, columns: nat, entries: seq<Entry>, k: nat)
    requires columns > 0
    ensures Patched(fixedPlane, columns, entries, k) == ScaleIn(fixedPlane, entries, columns, RowOf(k, columns), ColOf(k, columns))
  {
    FlatJoins(k, columns);
  }

  /** A slice that passes the checks again decodes to the slice of the decoding exactly when
      no rebased replacement past 24 bits does harm: each of them repeats the code beneath it,
      and the code at the low position its word names. */
  lemma SliceCommutes(planes: Planes, rows: nat, columns: nat, s: Slice)
    requires GoodPlanes(planes, rows, columns) && GoodSlice(s, rows, columns)
    requires GoodExceptions(SlicedPlanes(planes, columns, s).exceptions, Scales(s))
    ensures Matrix(SlicedPlanes(planes, columns, s), OutRows(s), OutColumns(s)) == ExpectedMatrix(planes, columns, s)
       <==> AllHarmless(SlicedFixed(planes.fixedPlane, columns, s), OutColumns(s), EntriesOf(planes, columns, s))
  {
    SlicedOrdered(Entries(planes.exceptions), rows, columns, s, |Entries(planes.exceptions)|);
    SliceReadsBack(planes, rows, columns, s);
    ExpectedIsPatched(planes, rows, columns, s);
    WrittenExact(SlicedPlanes(planes, columns, s), EntriesOf(planes, columns, s), OutRows(s), OutColumns(s), ExpectedMatrix(planes, columns, s));
  }

  /** In particular it does when the rebased positions fit in 24 bits. */
  lemma FittingSliceCommutes(planes: Planes, rows: nat, columns: nat, s: Slice)
    requires GoodPlanes(planes, rows, columns) && GoodSlice(s, rows, columns) && Fits(EntriesOf(planes, columns, s))
    ensures GoodExceptions(SlicedPlanes(planes, columns, s).exceptions, Scales(s))
    ensures Matrix(SlicedPlanes(planes, columns, s), OutRows(s), OutColumns(s)) == ExpectedMatrix(planes, columns, s)
  {
    SliceReadsBack(planes, rows, columns, s);
    FittingReadsBack(EntriesOf(planes, columns, s));
    SlicedOrdered(Entries(planes.exceptions), rows, columns, s, |Entries(planes.exceptions)|);
    SliceCommutes(planes, rows, columns, s);
  }

  lemma SliceReadsBack(planes: Planes, rows: nat, columns: nat, s: Slice)
    requires GoodPlanes(planes, rows, columns) && GoodSlice(s, rows, columns)
    ensures GoodExceptions(SlicedPlanes(planes, columns, s).exceptions, Scales(s))
       <==> Ordered(AllTruncated(EntriesOf(planes, columns, s)), Scales(s))
  {
    EncodeTruncates(EntriesOf(planes, columns, s));
  }

  lemma CodeCommutes(fixedPlane: seq<Byte>, rows: nat, columns: nat, s: Slice, row: nat, col: nat)
    requires GoodSlice(s, rows, columns) && row < OutRows(s) && col < OutColumns(s)
    ensures CodeAt(SlicedFixed(fixedPlane, columns, s), OutColumns(s), row, col)
         == if row >= SliceRows(s) then PADDED_SCALE_CODE
            else if col >= SliceColumns(s) then Base(fixedPlane, columns, s.r0 + row)
            else CodeAt(fixedPlane, columns, s.r0 + row, s.c0 + col)
  {
    SlicedBaseAt(fixedPlane, rows, columns, s, row);
    SlicedNibble(fixedPlane, rows, columns, s, row, col);
  }

  lemma SlicedNibble(fixedPlane: seq<Byte>, rows: nat, columns: nat, s: Slice, row: nat, col: nat)
    requires GoodSlice(s, rows, columns) && row < OutRows(s) && col < OutColumns(s)
    ensures Nibble(SlicedFixed(fixedPlane, columns, s), OutColumns(s), row, col)
         == if row < SliceRows(s) && col < SliceColumns(s) then Nibble(fixedPlane, columns, s.r0 + row, s.c0 + col) else 0
  {
    SlicedPairAt(fixedPlane, rows, columns, s, row, col / 2);
    Pairs(s, rows, columns, col);
  }

  lemma Pairs(s: Slice, rows: nat, columns: nat, col: nat)
    requires GoodSlice(s, rows, columns)
    ensures (s.c0 + col) / 2 == s.c0 / 2 + col / 2 && (s.c0 + col) % 2 == col % 2
    ensures col < SliceColumns(s) <==> col / 2 < SliceColumns(s) / 2
  {
  }

  /** Without appended columns the rebased positions always fit. */
  lemma NarrowSliceFits(planes: Planes, rows: nat, columns: nat, s: Slice)
    requires GoodPlanes(planes, rows, columns) && GoodSlice(s, rows, columns) && OutColumns(s) <= columns
    ensures Fits(EntriesOf(planes, columns, s))
  {
    var entries, sliced := Entries(planes.exceptions), EntriesOf(planes, columns, s);
    EntryPositions(planes.exceptions);
    forall j {:trigger sliced[j]} | 0 <= j < |sliced| ensures sliced[j].position < POSITION_LIMIT {
      SlicedComesFrom(entries, columns, s, |entries|, j);
      var i :| 0 <= i < |entries| && Rebased(s, columns, entries[i].position) == Some(sliced[j].position);
      RebasedCell(s, rows, columns, entries[i].position);
    }
  }

  /** Nor do they leave 24 bits when the whole output matrix fits. */
  lemma SmallSliceFits(planes: Planes, rows: nat, columns: nat, s: Slice)
    requires GoodPlanes(planes, rows, columns) && GoodSlice(s, rows, columns) && OutRows(s) * OutColumns(s) <= POSITION_LIMIT
    ensures Fits(EntriesOf(planes, columns, s))
  {
    SlicedOrdered(Entries(planes.exceptions), rows, columns, s, |Entries(planes.exceptions)|);
  }

  /** The planes of a slice pass every check again exactly when the rebased replacements, as
      their words read back, are sorted and unique; so they do when all positions fit. */
  lemma SliceIsGood(planes: Planes, rows: nat, columns: nat, s: Slice)
    requires GoodPlanes(planes, rows, columns) && GoodSlice(s, rows, columns)
    requires GoodGeometry(OutRows(s), OutColumns(s))
    ensures GoodPlanes(SlicedPlanes(planes, columns, s), OutRows(s), OutColumns(s))
       <==> Ordered(AllTruncated(EntriesOf(planes, columns, s)), Scales(s))
    ensures Fits(EntriesOf(planes, columns, s)) ==> GoodPlanes(SlicedPlanes(planes, columns, s), OutRows(s), OutColumns(s))
  {
    SliceReadsBack(planes, rows, columns, s);
    SlicedFixedIsGood(planes.fixedPlane, rows, columns, s);
    if Fits(EntriesOf(planes, columns, s)) { FittingSliceCommutes(planes, rows, columns, s); }
  }

  lemma SlicedFixedIsGood(fixedPlane: seq<Byte>, rows: nat, columns: nat, s: Slice)
    requires GoodFixed(fixedPlane, rows, columns) && GoodSlice(s, rows, columns)
    requires GoodGeometry(OutRows(s), OutColumns(s))
    ensures GoodFixed(SlicedFixed(fixedPlane, columns, s), OutRows(s), OutColumns(s))
  {
    var out, f := OutColumns(s), SlicedFixed(fixedPlane, columns, s);
    forall row {:trigger BaseIndex(row, out)} | 0 <= row < OutRows(s)
      ensures BaseIndex(row, out) < |f| && f[BaseIndex(row, out)] <= 240
    {
      IndexBelow(row, 0, OutRows(s), out);
      SlicedBaseAt(fixedPlane, rows, columns, s, row);
      if row < SliceRows(s) { assert BaseIndex(s.r0 + row, columns) < |fixedPlane|; }
    }
  }

  /** One replacement that lands past 24 bits: the slice passes every check again, and is wrong
      whenever the replacement replaces anything. The code beneath shows through where it should
      stand, and its value with the high bits of the position or-ed in stands at the position's
      low 24 bits. */
  lemma SliceWraps(planes: Planes, rows: nat, columns: nat, s: Slice, entry: Entry)
    requires GoodPlanes(planes, rows, columns) && GoodSlice(s, rows, columns) && GoodGeometry(OutRows(s), OutColumns(s))
    requires Entries(planes.exceptions) == [entry] && entry.value != Coded(planes.fixedPlane, columns, entry.position)
    requires Rebased(s, columns, entry.position).Some? && Rebased(s, columns, entry.position).value >= POSITION_LIMIT
    ensures GoodPlanes(SlicedPlanes(planes, columns, s), OutRows(s), OutColumns(s))
    ensures Matrix(SlicedPlanes(planes, columns, s), OutRows(s), OutColumns(s)) != ExpectedMatrix(planes, columns, s)
    ensures var q, m := Rebased(s, columns, entry.position).value, Matrix(SlicedPlanes(planes, columns, s), OutRows(s), OutColumns(s));
            && q < |m| && m[q] == Coded(planes.fixedPlane, columns, entry.position)
            && ExpectedMatrix(planes, columns, s)[q] == entry.value
            && m[q % POSITION_LIMIT] == TopByte(Entry(q, entry.value))
  {
    var q, out, total := Rebased(s, columns, entry.position).value, OutColumns(s), Scales(s);
    var e, f := EntriesOf(planes, columns, s), SlicedFixed(planes.fixedPlane, columns, s);
    assert SlicedEntries([entry], columns, s, 0) == [];
    assert e == [Entry(q, entry.value)];
    RebasedCell(s, rows, columns, entry.position);
    SliceIsGood(planes, rows, columns, s);
    SliceCommutes(planes, rows, columns, s);
    RebasedCode(planes.fixedPlane, rows, columns, s, entry.position);
    assert !Harmless(f, out, e[0]);
    EncodeTruncates(e);
    MatrixIsPatched(SlicedPlanes(planes, columns, s), OutRows(s), out);
    ExpectedIsPatched(planes, rows, columns, s);
    HarmShows(f, out, e, total, 0);
  }

  /** The code beneath a position goes where the position goes. */
  lemma RebasedCode(fixedPlane: seq<Byte>, rows: nat, columns: nat, s: Slice, position: nat)
    requires GoodSlice(s, rows, columns) && columns > 0 && Rebased(s, columns, position).Some?
    ensures Coded(SlicedFixed(fixedPlane, columns, s), OutColumns(s), Rebased(s, columns, position).value)
         == Coded(fixedPlane, columns, position)
  {
    var row, col := position / columns - s.r0, position % columns - s.c0;
    FlatSplits(row, col, OutColumns(s));
    CodeCommutes(fixedPlane, rows, columns, s, row, col);
  }

  // ---------------------------------------------------------------------
  // A slice of a slice

  /** Slicing with s1 and then, inside the result, with s2. */
  function Composed(s1: Slice, s2: Slice): Slice {
    Slice(s1.r0 + s2.r0, s1.r0 + s2.r1, s1.c0 + s2.c0, s1.c0 + s2.c1, Some(OutRows(s2)), Some(OutColumns(s2)))
  }

  predicate Unpadded(s: Slice) { OutRows(s) == SliceRows(s) && OutColumns(s) == SliceColumns(s) }

  lemma ComposedIsGood(s1: Slice, s2: Slice, rows: nat, columns: nat)
    requires GoodSlice(s1, rows, columns) && GoodSlice(s2, SliceRows(s1), SliceColumns(s1))
    ensures GoodSlice(Composed(s1, s2), rows, columns)
  {
    SumDivides(s1.r0, s2.r0, 16);
    SumDivides(s1.r0, s2.r1, 16);
    SumDivides(s1.c0, s2.c0, 2);
    SumDivides(s1.c0, s2.c1, 2);
  }

  lemma SumDivides(a: int, b: int, n: nat)
    requires (n == 2 || n == 16) && a % n == 0 && b % n == 0
    ensures (a + b) % n == 0
  {
  }

  lemma RebasedTwice(s1: Slice, s2: Slice, rows: nat, columns: nat, position: nat)
    requires GoodSlice(s1, rows, columns) && columns > 0 && Unpadded(s1) && GoodSlice(s2, SliceRows(s1), SliceColumns(s1))
    ensures Rebased(Composed(s1, s2), columns, position)
         == match Rebased(s1, columns, position)
            case Some(p) => Rebased(s2, SliceColumns(s1), p)
            case None => None
  {
    if Rebased(s1, columns, position).Some? {
      FlatSplits(position / columns - s1.r0, position % columns - s1.c0, SliceColumns(s1));
    }
  }

  lemma {:induction false} SlicedTwice(entries: seq<Entry>, s1: Slice, s2: Slice, rows: nat, columns: nat, n: nat)
    requires GoodSlice(s1, rows, columns) && columns > 0 && Unpadded(s1) && GoodSlice(s2, SliceRows(s1), SliceColumns(s1))
    requires n <= |entries|
    ensures var once := SlicedEntries(entries, columns, s1, n);
            SlicedEntries(once, SliceColumns(s1), s2, |once|) == SlicedEntries(entries, columns, Composed(s1, s2), n)
  {
    if n > 0 {
      SlicedTwice(entries, s1, s2, rows, columns, n - 1);
      RebasedTwice(s1, s2, rows, columns, entries[n - 1].position);
      var before, once := SlicedEntries(entries, columns, s1, n - 1), SlicedEntries(entries, columns, s1, n);
      if |once| > |before| { SlicedPrefix(before, once[|before|], SliceColumns(s1), s2, |before|); }
    }
  }

  lemma {:induction false} SlicedPrefix(entries: seq<Entry>, e: Entry, columns: nat, s: Slice, n: nat)
    requires columns > 0 && OutColumns(s) >= 0 && n <= |entries|
    ensures SlicedEntries(entries + [e], columns, s, n) == SlicedEntries(entries, columns, s, n)
  {
    if n > 0 { SlicedPrefix(entries, e, columns, s, n - 1); }
  }

  /** Byte o of a slab, sliced twice. */
  lemma SlabTwice(fixedPlane: seq<Byte>, s1: Slice, s2: Slice, rows: nat, columns: nat, slab: nat, o: nat)
    requires GoodSlice(s1, rows, columns) && Unpadded(s1) && GoodSlice(s2, SliceRows(s1), SliceColumns(s1))
    ensures SlabByte(SlicedFixed(fixedPlane, columns, s1), SliceColumns(s1), s2, slab, o)
         == SlabByte(fixedPlane, columns, Composed(s1, s2), slab, o)
  {
    if o < 16 {
      BaseTwice(fixedPlane, s1, s2, rows, columns, slab * 16 + o);
    } else {
      var selectors := OutColumns(s2) / 2;
      SliceHoldsPairs(fixedPlane, rows, columns, s1);
      PairTwice(fixedPlane, SlicedFixed(fixedPlane, columns, s1), s1, s2, rows, columns, slab * 16 + RowOf(o - 16, selectors), ColOf(o - 16, selectors));
    }
  }

  lemma BaseTwice(fixedPlane: seq<Byte>, s1: Slice, s2: Slice, rows: nat, columns: nat, row: nat)
    requires GoodSlice(s1, rows, columns) && Unpadded(s1) && GoodSlice(s2, SliceRows(s1), SliceColumns(s1))
    ensures SlicedBase(SlicedFixed(fixedPlane, columns, s1), SliceColumns(s1), s2, row)
         == SlicedBase(fixedPlane, columns, Composed(s1, s2), row)
  {
    if row < SliceRows(s2) { SlicedBaseAt(fixedPlane, rows, columns, s1, s2.r0 + row); }
  }

  /** A fixed plane with the pairs of a slice. */
  ghost predicate HoldsPairs(once: seq<Byte>, fixedPlane: seq<Byte>, columns: nat, s: Slice)
    requires 0 <= s.r0 && 0 <= s.c0 && OutColumns(s) >= 0
  {
    forall row: nat, c: nat {:trigger SlicedPair(fixedPlane, columns, s, row, c)} :: row < OutRows(s) && c < OutColumns(s) / 2 ==>
      At(once, PackedIndex(row, c, OutColumns(s))) == SlicedPair(fixedPlane, columns, s, row, c)
  }

  lemma SliceHoldsPairs(fixedPlane: seq<Byte>, rows: nat, columns: nat, s: Slice)
    requires GoodSlice(s, rows, columns)
    ensures HoldsPairs(SlicedFixed(fixedPlane, columns, s), fixedPlane, columns, s)
  {
    forall row: nat, c: nat | row < OutRows(s) && c < OutColumns(s) / 2
      ensures At(SlicedFixed(fixedPlane, columns, s), PackedIndex(row, c, OutColumns(s))) == SlicedPair(fixedPlane, columns, s, row, c)
    {
      SlicedPairAt(fixedPlane, rows, columns, s, row, c);
    }
  }

  lemma PairTwice(fixedPlane: seq<Byte>, once: seq<Byte>, s1: Slice, s2: Slice, rows: nat, columns: nat, row: nat, c: nat)
    requires GoodSlice(s1, rows, columns) && Unpadded(s1) && GoodSlice(s2, SliceRows(s1), SliceColumns(s1))
    requires HoldsPairs(once, fixedPlane, columns, s1)
    ensures SlicedPair(once, SliceColumns(s1), s2, row, c) == SlicedPair(fixedPlane, columns, Composed(s1, s2), row, c)
  {
    if row < SliceRows(s2) && c < SliceColumns(s2) / 2 {
      PairWithin(s1, s2, rows, columns, row, c);
      assert At(once, PackedIndex(s2.r0 + row, s2.c0 / 2 + c, OutColumns(s1)))
          == SlicedPair(fixedPlane, columns, s1, s2.r0 + row, s2.c0 / 2 + c);
      PairThrough(fixedPlane, once, columns, s1, s2, row, c);
    }
  }

  /** When `once` holds the pairs of the first slice, a pair of the second is one of the plane. */
  lemma PairThrough(fixedPlane: seq<Byte>, once: seq<Byte>, columns: nat, s1: Slice, s2: Slice, row: nat, c: nat)
    requires 0 <= s1.r0 && 0 <= s1.c0 && 0 <= s2.r0 && 0 <= s2.c0 && SliceColumns(s1) >= 0
    requires row < SliceRows(s2) && c < SliceColumns(s2) / 2
    requires s2.r0 + row < SliceRows(s1) && s2.c0 / 2 + c < SliceColumns(s1) / 2
    requires (s1.c0 + s2.c0) / 2 + c == s1.c0 / 2 + (s2.c0 / 2 + c)
    requires At(once, PackedIndex(s2.r0 + row, s2.c0 / 2 + c, SliceColumns(s1)))
          == SlicedPair(fixedPlane, columns, s1, s2.r0 + row, s2.c0 / 2 + c)
    ensures SlicedPair(once, SliceColumns(s1), s2, row, c) == SlicedPair(fixedPlane, columns, Composed(s1, s2), row, c)
  {
    RealPair(once, SliceColumns(s1), s2, row, c, s2.r0 + row, s2.c0 / 2 + c);
    RealPair(fixedPlane, columns, s1, s2.r0 + row, s2.c0 / 2 + c, s1.r0 + s2.r0 + row, (s1.c0 + s2.c0) / 2 + c);
    RealPair(fixedPlane, columns, Composed(s1, s2), row, c, s1.r0 + s2.r0 + row, (s1.c0 + s2.c0) / 2 + c);
  }

  /** A pair inside a slice is the plane's, counted from the slice's corner. */
  lemma RealPair(fixedPlane: seq<Byte>, columns: nat, s: Slice, row: nat, c: nat, r: nat, k: nat)
    requires 0 <= s.r0 && 0 <= s.c0 && row < SliceRows(s) && c < SliceColumns(s) / 2
    requires r == s.r0 + row && k == s.c0 / 2 + c
    ensures SlicedPair(fixedPlane, columns, s, row, c) == At(fixedPlane, PackedIndex(r, k, columns))
  {
  }

  /** A pair inside the second slice lies inside the first. */
  lemma PairWithin(s1: Slice, s2: Slice, rows: nat, columns: nat, row: nat, c: nat)
    requires GoodSlice(s1, rows, columns) && Unpadded(s1) && GoodSlice(s2, SliceRows(s1), SliceColumns(s1))
    requires row < SliceRows(s2) && c < SliceColumns(s2) / 2
    ensures s2.r0 + row < SliceRows(s1) == OutRows(s1) && s2.c0 / 2 + c < SliceColumns(s1) / 2 == OutColumns(s1) / 2
    ensures (s1.c0 + s2.c0) / 2 + c == s1.c0 / 2 + (s2.c0 / 2 + c)
  {
    HalvesAdd(s1.c0, s2.c0);
    HalvesAdd(s2.c0, SliceColumns(s2));
  }

  lemma HalvesAdd(a: int, b: int)
    requires a % 2 == 0 && b % 2 == 0
    ensures (a + b) / 2 == a / 2 + b / 2
  {
  }

  /** A slice of an unpadded slice is the composed slice, byte for byte. */
  lemma SlicesCompose(planes: Planes, rows: nat, columns: nat, s1: Slice, s2: Slice)
    requires GoodPlanes(planes, rows, columns) && GoodSlice(s1, rows, columns) && Unpadded(s1)
    requires GoodSlice(s2, SliceRows(s1), SliceColumns(s1))
    ensures SlicedPlanes(SlicedPlanes(planes, columns, s1), SliceColumns(s1), s2)
         == SlicedPlanes(planes, columns, Composed(s1, s2))
  {
    var entries := Entries(planes.exceptions);
    NarrowSliceFits(planes, rows, columns, s1);
    SliceWords(planes, columns, s1);
    SlicedTwice(entries, s1, s2, rows, columns, |entries|);
    FixedTwice(planes.fixedPlane, s1, s2, rows, columns);
  }

  lemma FixedTwice(fixedPlane: seq<Byte>, s1: Slice, s2: Slice, rows: nat, columns: nat)
    requires GoodSlice(s1, rows, columns) && Unpadded(s1) && GoodSlice(s2, SliceRows(s1), SliceColumns(s1))
    ensures SlicedFixed(SlicedFixed(fixedPlane, columns, s1), SliceColumns(s1), s2)
         == SlicedFixed(fixedPlane, columns, Composed(s1, s2))
  {
    var once := SlicedFixed(fixedPlane, columns, s1);
    var twice, direct := SlicedFixed(once, SliceColumns(s1), s2), SlicedFixed(fixedPlane, columns, Composed(s1, s2));
    var stride := Stride(OutColumns(s2));
    assert stride == Stride(OutColumns(Composed(s1, s2))) && |twice| == |direct|;
    forall k {:trigger twice[k]} | 0 <= k < |twice| ensures twice[k] == direct[k] {
      assert twice[k] == SlicedByte(once, SliceColumns(s1), s2, k) && direct[k] == SlicedByte(fixedPlane, columns, Composed(s1, s2), k);
      SlabTwice(fixedPlane, s1, s2, rows, columns, RowOf(k, stride), ColOf(k, stride));
    }
  }

  // ---------------------------------------------------------------------
  // Fusion

  lemma EntriesConcat(a: seq<Byte>, b: seq<Byte>)
    requires |a| % 4 == 0
    ensures Entries(a + b) == Entries(a) + Entries(b)
  {
    var whole, parts := Entries(a + b), Entries(a) + Entries(b);
    forall i {:trigger whole[i]} | 0 <= i < |whole| ensures whole[i] == parts[i] {
      if i < |a| / 4 {
        assert whole[i] == Entries(a)[i];
      } else {
        assert whole[i] == Entries(b)[i - |a| / 4];
      }
    }
  }

  ghost function FusedEntries(first: Planes, second: Planes, offset: nat): seq<Entry> {
    Entries(first.exceptions) + Shifted(Entries(second.exceptions), offset)
  }

  /** The fused words read back as the first list and the moved second list iff the
      moved positions fit in 24 bits. */
  lemma FusedWords(first: Planes, second: Planes, offset: nat)
    ensures Entries(FusedPlanes(first, second, offset).exceptions) == FusedEntries(first, second, offset)
       <==> Fits(Shifted(Entries(second.exceptions), offset))
  {
    var head, tail := Shifted(Entries(first.exceptions), 0), Shifted(Entries(second.exceptions), offset);
    assert head == Entries(first.exceptions);
    EntryPositions(first.exceptions);
    EncodeExact(head);
    EncodeExact(tail);
    EntriesConcat(Encode(head), Encode(tail));
    assert forall x: seq<Entry>, y: seq<Entry> :: head + x == head + y ==> x == (head + x)[|head|..] == (head + y)[|head|..] == y;
  }

  lemma FusedOrdered(e1: seq<Entry>, e2: seq<Entry>, offset: nat)
    requires Ordered(e1, offset) && Ordered(e2, offset)
    ensures Ordered(e1 + Shifted(e2, offset), 2 * offset)
  {
    var fused := e1 + Shifted(e2, offset);
    forall i, j {:trigger fused[i], fused[j]} | 0 <= i < j < |fused| ensures fused[i].position < fused[j].position {
      if i >= |e1| { assert e2[i - |e1|].position < e2[j - |e1|].position; }
    }
  }

  /** Two valid projections whose moved positions fit always fuse. */
  lemma FusionSucceeds(first: Planes, second: Planes, rows: nat, columns: nat)
    requires GoodPlanes(first, rows, columns) && GoodPlanes(second, rows, columns)
    requires Fits(Shifted(Entries(second.exceptions), rows * columns))
    ensures Fusable(first, second, rows, columns)
  {
    PositionsFit(first.exceptions, 0, rows * columns);
    PositionsFit(second.exceptions, rows * columns, rows * columns);
    FusedPasses(first, second, rows, columns);
  }

  lemma PositionsFit(bytes: seq<Byte>, shift: nat, total: nat)
    requires GoodExceptions(bytes, total) && shift <= total
    ensures ShiftFits(bytes, shift, 2 * total)
  {
  }

  lemma FusedPasses(first: Planes, second: Planes, rows: nat, columns: nat)
    requires GoodPlanes(first, rows, columns) && GoodPlanes(second, rows, columns)
    requires Fits(Shifted(Entries(second.exceptions), rows * columns))
    ensures GoodExceptions(FusedPlanes(first, second, rows * columns).exceptions, 2 * (rows * columns))
  {
    FusedWords(first, second, rows * columns);
    FusedOrdered(Entries(first.exceptions), Entries(second.exceptions), rows * columns);
  }

  lemma FusedHead(e1: seq<Entry>, e2: seq<Entry>, offset: nat, position: nat)
    requires Ordered(e1, offset) && Ordered(e1 + Shifted(e2, offset), 2 * offset) && position < offset
    ensures Replacement(e1 + Shifted(e2, offset), position) == Replacement(e1, position)
  {
    var moved := Shifted(e2, offset);
    var fused := e1 + moved;
    forall i {:trigger fused[i]} | 0 <= i < |fused| ensures fused[i].position == position ==> i < |e1| && fused[i] == e1[i] {
      assert i >= |e1| ==> fused[i] == moved[i - |e1|];
    }
    SameReplacement(e1, fused, 2 * offset, position);
  }

  lemma FusedTail(e1: seq<Entry>, e2: seq<Entry>, offset: nat, position: nat)
    requires Ordered(e1, offset) && Ordered(e1 + Shifted(e2, offset), 2 * offset) && position >= offset
    ensures Replacement(e1 + Shifted(e2, offset), position) == Replacement(Shifted(e2, offset), position)
  {
    var moved := Shifted(e2, offset);
    var fused := e1 + moved;
    forall i {:trigger fused[i]} | 0 <= i < |fused|
      ensures fused[i].position == position ==> i >= |e1| && fused[i] == moved[i - |e1|]
    {
      assert i < |e1| ==> fused[i] == e1[i];
    }
    SameReplacement(moved, fused, 2 * offset, position);
  }

  /** A replacement in the first half of a fused list is the first list's, in the
      second half the second list's. */
  lemma FusedReplacement(e1: seq<Entry>, e2: seq<Entry>, offset: nat, position: nat)
    requires Ordered(e1, offset) && Ordered(e2, offset)
    requires Ordered(e1 + Shifted(e2, offset), 2 * offset)
    ensures Replacement(e1 + Shifted(e2, offset), position)
         == if position < offset then Replacement(e1, position) else Replacement(e2, position - offset)
  {
    if position < offset {
      FusedHead(e1, e2, offset, position);
    } else {
      FusedTail(e1, e2, offset, position);
      ShiftedReplacement(e2, offset, position - offset);
    }
  }

  lemma ShiftedReplacement(entries: seq<Entry>, shift: nat, position: nat)
    requires Ordered(entries, shift)
    ensures Replacement(Shifted(entries, shift), position + shift) == Replacement(entries, position)
  {
    var moved := Shifted(entries, shift);
    if i :| 0 <= i < |entries| && entries[i].position == position {
      ReplacementAt(entries, shift, i);
      assert Ordered(moved, 2 * shift);
      assert moved[i].position == position + shift;
      ReplacementAt(moved, 2 * shift, i);
    } else {
      assert forall i :: 0 <= i < |moved| ==> moved[i].position == entries[i].position + shift;
    }
  }

  /** The fused fixed plane holds the first projection's slabs, then the second's. */
  lemma FusedCode(a: seq<Byte>, b: seq<Byte>, rows: nat, columns: nat, row: nat, col: nat)
    requires GoodGeometry(rows, columns) && |a| == |b| == FixedLength(rows, columns) && row < 2 * rows && col < columns
    ensures CodeAt(a + b, columns, row, col)
         == if row < rows then CodeAt(a, columns, row, col) else CodeAt(b, columns, row - rows, col)
  {
    if row < rows {
      IndexBelow(row, col / 2, rows, columns);
    } else {
      IndexBelow(row - rows, col / 2, rows, columns);
      var slabs, stride := rows / 16, Stride(columns);
      assert row / 16 == slabs + (row - rows) / 16 && row % 16 == (row - rows) % 16;
      assert (slabs + (row - rows) / 16) * stride == slabs * stride + (row - rows) / 16 * stride;
    }
  }

  lemma FusedScale(a: seq<Byte>, e1: seq<Entry>, b: seq<Byte>, e2: seq<Entry>, rows: nat, columns: nat, row: nat, col: nat)
    requires GoodGeometry(rows, columns) && |a| == |b| == FixedLength(rows, columns)
    requires Ordered(e1, rows * columns) && Ordered(e2, rows * columns) && row < 2 * rows && col < columns
    ensures ScaleIn(a + b, e1 + Shifted(e2, rows * columns), columns, row, col)
         == if row < rows then ScaleIn(a, e1, columns, row, col) else ScaleIn(b, e2, columns, row - rows, col)
  {
    FusedOrdered(e1, e2, rows * columns);
    FusedReplacement(e1, e2, rows * columns, Flat(row, col, columns));
    HalfOf(row, col, rows, columns);
    FusedCode(a, b, rows, columns, row, col);
  }

  /** Positions of the first half lie below the offset, the others above it. */
  lemma HalfOf(row: nat, col: nat, rows: nat, columns: nat)
    requires col < columns
    ensures Flat(row, col, columns) < rows * columns <==> row < rows
    ensures row >= rows ==> Flat(row, col, columns) == rows * columns + Flat(row - rows, col, columns)
  {
    if row < rows {
      FlatBelow(row, col, columns, rows);
    } else {
      assert row * columns == rows * columns + (row - rows) * columns;
    }
  }

  /** The fused table agrees with both halves, cell by cell. */
  lemma FusedTable(a: seq<Byte>, e1: seq<Entry>, b: seq<Byte>, e2: seq<Entry>, rows: nat, columns: nat, c: seq<Byte>, e: seq<Entry>)
    requires GoodGeometry(rows, columns) && |a| == |b| == FixedLength(rows, columns)
    requires Ordered(e1, rows * columns) && Ordered(e2, rows * columns)
    requires c == a + b && e == e1 + Shifted(e2, rows * columns)
    ensures SameCells(c, e, a, e1, 0, rows, columns) && SameCells(c, e, b, e2, rows, rows, columns)
  {
    forall row: nat, col: nat | row < rows && col < columns
      ensures ScaleIn(c, e, columns, row, col) == ScaleIn(a, e1, columns, row, col)
      ensures ScaleIn(c, e, columns, rows + row, col) == ScaleIn(b, e2, columns, row, col)
    {
      FusedCell(a, e1, b, e2, rows, columns, c, e, row, col);
    }
  }

  lemma FusedCell(a: seq<Byte>, e1: seq<Entry>, b: seq<Byte>, e2: seq<Entry>, rows: nat, columns: nat, c: seq<Byte>, e: seq<Entry>,
                  row: nat, col: nat)
    requires GoodGeometry(rows, columns) && |a| == |b| == FixedLength(rows, columns)
    requires Ordered(e1, rows * columns) && Ordered(e2, rows * columns)
    requires c == a + b && e == e1 + Shifted(e2, rows * columns) && row < rows && col < columns
    ensures ScaleIn(c, e, columns, row, col) == ScaleIn(a, e1, columns, row, col)
    ensures ScaleIn(c, e, columns, rows + row, col) == ScaleIn(b, e2, columns, row, col)
  {
    FusedScale(a, e1, b, e2, rows, columns, row, col);
    FusedScale(a, e1, b, e2, rows, columns, rows + row, col);
  }

  lemma PatchedTabulates(fixedPlane: seq<Byte>, entries: seq<Entry>, rows: nat, columns: nat)
    requires columns > 0
    ensures Tabulates(PatchedAll(fixedPlane, columns, entries, rows * columns), TableOf(fixedPlane, entries, columns), rows, columns)
  {
    var m := PatchedAll(fixedPlane, columns, entries, rows * columns);
    forall k {:trigger m[k]} | 0 <= k < |m|
      ensures m[k] == TableOf(fixedPlane, entries, columns)(RowOf(k, columns), ColOf(k, columns))
    {
      FlatJoins(k, columns);
    }
  }

  /** Both decodings, in order, are the joined fixed planes under the moved replacements. */
  lemma DecodingsJoined(first: Planes, second: Planes, rows: nat, columns: nat)
    requires GoodPlanes(first, rows, columns) && GoodPlanes(second, rows, columns)
    ensures PatchedAll(first.fixedPlane + second.fixedPlane, columns, FusedEntries(first, second, rows * columns), 2 * rows * columns)
         == Matrix(first, rows, columns) + Matrix(second, rows, columns)
  {
    var c, e := first.fixedPlane + second.fixedPlane, FusedEntries(first, second, rows * columns);
    var e1, e2 := Entries(first.exceptions), Entries(second.exceptions);
    FusedTable(first.fixedPlane, e1, second.fixedPlane, e2, rows, columns, c, e);
    SameCellsSameTable(c, e, first.fixedPlane, e1, 0, rows, columns);
    SameCellsSameTable(c, e, second.fixedPlane, e2, rows, rows, columns);
    PatchedTabulates(c, e, 2 * rows, columns);
    MatrixTabulates(first, rows, columns);
    MatrixTabulates(second, rows, columns);
    HalvesOfTable(PatchedAll(c, columns, e, 2 * rows * columns), TableOf(c, e, columns), rows, columns,
                  Matrix(first, rows, columns), ScaleFn(first, columns), Matrix(second, rows, columns), ScaleFn(second, columns));
  }

  lemma FusedReads(first: Planes, second: Planes, offset: nat)
    ensures Entries(FusedPlanes(first, second, offset).exceptions) == AllTruncated(FusedEntries(first, second, offset))
  {
    var head, tail := Shifted(Entries(first.exceptions), 0), Shifted(Entries(second.exceptions), offset);
    assert head == Entries(first.exceptions);
    EncodeTruncates(head);
    EncodeTruncates(tail);
    EntriesConcat(Encode(head), Encode(tail));
  }

  /** Two valid projections fuse exactly when the moved replacements, as their words read
      back, are sorted and unique. */
  lemma FusableExact(first: Planes, second: Planes, rows: nat, columns: nat)
    requires GoodPlanes(first, rows, columns) && GoodPlanes(second, rows, columns)
    ensures Fusable(first, second, rows, columns)
       <==> Ordered(AllTruncated(FusedEntries(first, second, rows * columns)), 2 * (rows * columns))
  {
    PositionsFit(first.exceptions, 0, rows * columns);
    PositionsFit(second.exceptions, rows * columns, rows * columns);
    FusedReads(first, second, rows * columns);
  }

  /** Decoding a fusion gives the first decoding followed by the second exactly when no moved
      replacement past 24 bits does harm: each of them repeats the code beneath it, and the
      code at the low position its word names. */
  lemma FusionExact(first: Planes, second: Planes, rows: nat, columns: nat)
    requires GoodPlanes(first, rows, columns) && GoodPlanes(second, rows, columns) && Fusable(first, second, rows, columns)
    ensures Matrix(FusedPlanes(first, second, rows * columns), 2 * rows, columns)
            == Matrix(first, rows, columns) + Matrix(second, rows, columns)
       <==> AllHarmless(first.fixedPlane + second.fixedPlane, columns, FusedEntries(first, second, rows * columns))
  {
    var total := 2 * rows * columns;
    var fused, e := FusedPlanes(first, second, rows * columns), FusedEntries(first, second, rows * columns);
    Doubled(rows, columns);
    FusableExact(first, second, rows, columns);
    FusedReads(first, second, rows * columns);
    FusedOrdered(Entries(first.exceptions), Entries(second.exceptions), rows * columns);
    MatrixIsPatched(fused, 2 * rows, columns);
    DecodingsJoined(first, second, rows, columns);
    TruncationExact(fused.fixedPlane, columns, e, total);
  }

  /** In particular it does when all moved positions fit in 24 bits. */
  lemma FusionConcatenates(first: Planes, second: Planes, rows: nat, columns: nat)
    requires GoodPlanes(first, rows, columns) && GoodPlanes(second, rows, columns)
    requires Fits(Shifted(Entries(second.exceptions), rows * columns))
    ensures Fusable(first, second, rows, columns)
    ensures Matrix(FusedPlanes(first, second, rows * columns), 2 * rows, columns)
         == Matrix(first, rows, columns) + Matrix(second, rows, columns)
  {
    FusionSucceeds(first, second, rows, columns);
    FusionExact(first, second, rows, columns);
    EntryPositions(first.exceptions);
    var e := FusedEntries(first, second, rows * columns);
    forall i | 0 <= i < |e| ensures e[i].position < POSITION_LIMIT {
      if i >= |Entries(first.exceptions)| {
        assert e[i] == Shifted(Entries(second.exceptions), rows * columns)[i - |Entries(first.exceptions)|];
      } else {
        assert e[i] == Entries(first.exceptions)[i];
      }
    }
  }

  /** One replacement at the first position of a second projection that starts at or past 24
      bits: the fusion is accepted, and wrong whenever the replacement replaces anything. */
  lemma FusionWraps(first: Planes, second: Planes, rows: nat, columns: nat, value: Byte)
    requires GoodPlanes(first, rows, columns) && GoodPlanes(second, rows, columns) && rows * columns >= POSITION_LIMIT
    requires first.exceptions == [] && second.exceptions == Word(Entry(0, value))
    requires value != CodeAt(second.fixedPlane, columns, 0, 0)
    ensures Fusable(first, second, rows, columns)
    ensures Matrix(FusedPlanes(first, second, rows * columns), 2 * rows, columns)
         != Matrix(first, rows, columns) + Matrix(second, rows, columns)
  {
    var e := FusedEntries(first, second, rows * columns);
    OneWord(value);
    assert e == [Entry(rows * columns, value)];
    FusableExact(first, second, rows, columns);
    FusionExact(first, second, rows, columns);
    FlatSplits(rows, 0, columns);
    FusedCode(first.fixedPlane, second.fixedPlane, rows, columns, rows, 0);
    assert !Harmless(first.fixedPlane + second.fixedPlane, columns, e[0]);
  }

  lemma OneWord(value: Byte)
    ensures Entries(Word(Entry(0, value))) == [Entry(0, value)]
  {
    ByteWidth();
    OrZero(value, 8);
  }

  /** A fixed plane of zeros decodes to zeros. */
  lemma ZerosAreGood(fixedPlane: seq<Byte>, rows: nat, columns: nat)
    requires GoodGeometry(rows, columns) && |fixedPlane| == FixedLength(rows, columns)
    requires forall k {:trigger fixedPlane[k]} :: 0 <= k < |fixedPlane| ==> fixedPlane[k] == 0
    ensures GoodFixed(fixedPlane, rows, columns) && CodeAt(fixedPlane, columns, 0, 0) == 0
  {
    forall row | 0 <= row < rows ensures BaseIndex(row, columns) < |fixedPlane| { IndexBelow(row, 0, rows, columns); }
  }

  /** Such projections exist in every geometry that reaches 24 bits; one slab of 1048578
      columns does. */
  lemma WrappingFusionExists(rows: nat, columns: nat, value: Byte) returns (first: Planes, second: Planes)
    requires GoodGeometry(rows, columns) && rows * columns >= POSITION_LIMIT && value > 0
    ensures GoodPlanes(first, rows, columns) && GoodPlanes(second, rows, columns) && Fusable(first, second, rows, columns)
    ensures Matrix(FusedPlanes(first, second, rows * columns), 2 * rows, columns)
         != Matrix(first, rows, columns) + Matrix(second, rows, columns)
    ensures GoodGeometry(16, 1048578) && 16 * 1048578 >= POSITION_LIMIT
  {
    var zeros: seq<Byte> := seq(FixedLength(rows, columns), k => 0);
    first, second := Planes(zeros, []), Planes(zeros, Word(Entry(0, value)));
    ZerosAreGood(zeros, rows, columns);
    OneWord(value);
    FusionWraps(first, second, rows, columns, value);
  }

  /** Such slices exist of every matrix whose last row lands past 24 bits: the first
      replacement of that row is lost, and turns up elsewhere with bits or-ed in. */
  lemma WrappingSliceExists(rows: nat, columns: nat, outColumns: nat, value: Byte) returns (planes: Planes, s: Slice)
    requires GoodGeometry(rows, columns) && GoodGeometry(rows, outColumns) && columns <= outColumns && value > 0
    requires Flat(rows - 1, 0, columns) < POSITION_LIMIT <= Flat(rows - 1, 0, outColumns)
    ensures s == Slice(0, rows, 0, columns, None, Some(outColumns)) && GoodPlanes(planes, rows, columns)
    ensures GoodPlanes(SlicedPlanes(planes, columns, s), rows, outColumns)
    ensures Matrix(SlicedPlanes(planes, columns, s), rows, outColumns) != ExpectedMatrix(planes, columns, s)
    ensures ScaleAt(planes, columns, rows - 1, 0) == ExpectedScale(planes, columns, s, rows - 1, 0) == value
    ensures var q, sliced := Flat(rows - 1, 0, outColumns), SlicedPlanes(planes, columns, s);
            && ScaleAt(sliced, outColumns, rows - 1, 0) == 0
            && ScaleAt(sliced, outColumns, RowOf(q % POSITION_LIMIT, outColumns), ColOf(q % POSITION_LIMIT, outColumns))
               == TopByte(Entry(q, value))
  {
    var zeros: seq<Byte> := seq(FixedLength(rows, columns), k => 0);
    var entry := Entry(Flat(rows - 1, 0, columns), value);
    planes, s := Planes(zeros, Encode([entry])), Slice(0, rows, 0, columns, None, Some(outColumns));
    EncodeExact([entry]);
    ZerosAreGood(zeros, rows, columns);
    FlatBelow(rows - 1, 0, columns, rows);
    FlatSplits(rows - 1, 0, columns);
    FlatSplits(rows - 1, 0, outColumns);
    SliceWraps(planes, rows, columns, s, entry);
  }

  /** One slab of two columns padded to 2097152 columns is such a slice: the replacement of
      row 15 turns up in row 7, or-ed with 1. */
  lemma SlabWraps(value: Byte) returns (planes: Planes, s: Slice)
    requires value > 0
    ensures GoodPlanes(planes, 16, 2) && s == Slice(0, 16, 0, 2, None, Some(2097152))
    ensures GoodPlanes(SlicedPlanes(planes, 2, s), 16, 2097152)
    ensures ScaleAt(planes, 2, 15, 0) == ExpectedScale(planes, 2, s, 15, 0) == value
    ensures ScaleAt(SlicedPlanes(planes, 2, s), 2097152, 15, 0) == 0
    ensures ScaleAt(SlicedPlanes(planes, 2, s), 2097152, 7, 0) == BitOr(value, 1, 8)
  {
    planes, s := WrappingSliceExists(16, 2, 2097152, value);
    SlabNumbers(value, 2097152);
  }

  lemma SlabNumbers(value: Byte, outColumns: nat)
    requires outColumns == 2097152
    ensures Flat(15, 0, outColumns) == 31457280 && Flat(15, 0, outColumns) % POSITION_LIMIT == 14680064
    ensures RowOf(14680064, outColumns) == 7 && ColOf(14680064, outColumns) == 0
    ensures TopByte(Entry(31457280, value)) == BitOr(value, 1, 8)
  {
  }

  // ---------------------------------------------------------------------
  // Shards

  /** A slice of whole rows. */
  predicate WholeRows(s: Slice, columns: nat) { Unpadded(s) && s.c0 == 0 && s.c1 == columns }

  function RowSlice(r0: nat, r1: nat, columns: nat): Slice {
    Slice(r0, r1, 0, columns, None, None)
  }

  lemma RowSliceScale(fixedPlane: seq<Byte>, entries: seq<Entry>, rows: nat, columns: nat, s: Slice, row: nat, col: nat,
                      fixedPlane': seq<Byte>, entries': seq<Entry>)
    requires GoodGeometry(rows, columns) && Ordered(entries, rows * columns)
    requires GoodSlice(s, rows, columns) && WholeRows(s, columns) && row < SliceRows(s) && col < columns
    requires fixedPlane' == SlicedFixed(fixedPlane, columns, s) && entries' == SlicedEntries(entries, columns, s, |entries|)
    ensures ScaleIn(fixedPlane', entries', columns, row, col) == ScaleIn(fixedPlane, entries, columns, s.r0 + row, col)
  {
    SliceScale(fixedPlane, entries, rows, columns, s, row, col);
  }

  lemma RowSliceTable(fixedPlane: seq<Byte>, entries: seq<Entry>, rows: nat, columns: nat, s: Slice,
                      fixedPlane': seq<Byte>, entries': seq<Entry>)
    requires GoodGeometry(rows, columns) && Ordered(entries, rows * columns)
    requires GoodSlice(s, rows, columns) && WholeRows(s, columns)
    requires fixedPlane' == SlicedFixed(fixedPlane, columns, s) && entries' == SlicedEntries(entries, columns, s, |entries|)
    ensures SameCells(fixedPlane, entries, fixedPlane', entries', s.r0, SliceRows(s), columns)
  {
    forall row: nat, col: nat | row < SliceRows(s) && col < columns
      ensures ScaleIn(fixedPlane, entries, columns, s.r0 + row, col) == ScaleIn(fixedPlane', entries', columns, row, col)
    {
      RowSliceScale(fixedPlane, entries, rows, columns, s, row, col, fixedPlane', entries');
    }
  }

  /** A row slice decodes to those rows of the matrix. */
  lemma RowSliceIsRows(planes: Planes, rows: nat, columns: nat, s: Slice)
    requires GoodPlanes(planes, rows, columns) && GoodSlice(s, rows, columns) && WholeRows(s, columns)
    ensures Covers(Matrix(SlicedPlanes(planes, columns, s), SliceRows(s), columns), Matrix(planes, rows, columns),
                   s.r0 * columns, SliceRows(s) * columns)
  {
    var sliced, entries := SlicedPlanes(planes, columns, s), Entries(planes.exceptions);
    NarrowSliceFits(planes, rows, columns, s);
    SliceWords(planes, columns, s);
    RowSliceTable(planes.fixedPlane, entries, rows, columns, s, sliced.fixedPlane, Entries(sliced.exceptions));
    SameCellsSameTable(planes.fixedPlane, entries, sliced.fixedPlane, Entries(sliced.exceptions), s.r0, SliceRows(s), columns);
    MatrixTabulates(planes, rows, columns);
    MatrixTabulates(sliced, SliceRows(s), columns);
    RowsOfTable(Matrix(planes, rows, columns), ScaleFn(planes, columns), rows, columns,
                Matrix(sliced, SliceRows(s), columns), ScaleFn(sliced, columns), s.r0, s.r1);
  }

  /** Rank extents of equal size. */
  lemma RankSliceIsGood(rank: nat, local: nat, ranks: nat, rows: nat, columns: nat)
    requires GoodGeometry(rows, columns) && rank < ranks && rows == ranks * local && local % 16 == 0
    ensures rank * local + local == (rank + 1) * local <= rows
    ensures GoodSlice(RowSlice(rank * local, rank * local + local, columns), rows, columns)
  {
    RowsApart(rank, ranks, local);
    Sixteens(rank, local);
    Sixteens(rank + 1, local);
  }

  lemma Sixteens(rank: nat, local: nat)
    requires local % 16 == 0
    ensures rank * local % 16 == 0
  {
    var m := local / 16;
    assert rank * local == 16 * (rank * m);
  }

  /** What the slice of `local` rows from r0 on decodes to. */
  ghost function RowShard(planes: Planes, columns: nat, r0: nat, local: nat): seq<nat>
    requires columns >= 2
  {
    Matrix(SlicedPlanes(planes, columns, RowSlice(r0, r0 + local, columns)), local, columns)
  }

  lemma RowShardIsRows(planes: Planes, rows: nat, columns: nat, r0: nat, local: nat, whole: seq<nat>)
    requires GoodPlanes(planes, rows, columns) && GoodSlice(RowSlice(r0, r0 + local, columns), rows, columns)
    requires whole == Matrix(planes, rows, columns)
    ensures Covers(RowShard(planes, columns, r0, local), whole, r0 * columns, local * columns)
  {
    RowSliceIsRows(planes, rows, columns, RowSlice(r0, r0 + local, columns));
  }

  /** What the shard of a rank decodes to. */
  ghost function Shard(planes: Planes, columns: nat, local: nat, rank: nat): seq<nat>
    requires columns >= 2
  {
    RowShard(planes, columns, rank * local, local)
  }

  /** The decoded shards of the first n ranks, one after the other. */
  ghost function Shards(planes: Planes, columns: nat, local: nat, n: nat): seq<nat>
    requires columns >= 2
  {
    if n == 0 then [] else Shards(planes, columns, local, n - 1) + Shard(planes, columns, local, n - 1)
  }

  /** Parts of one length that each continue the whole add up to its beginning. */
  lemma {:induction false} ShardsCover(planes: Planes, columns: nat, local: nat, n: nat, whole: seq<nat>, length: nat)
    requires columns >= 2
    requires forall rank: nat {:trigger Shard(planes, columns, local, rank)} :: rank < n ==>
               Covers(Shard(planes, columns, local, rank), whole, TokenChunks.Times(rank, length), length)
    ensures TokenChunks.Times(n, length) <= |whole| && Shards(planes, columns, local, n) == whole[..TokenChunks.Times(n, length)]
  {
    if n > 0 {
      ShardsCover(planes, columns, local, n - 1, whole, length);
      assert Covers(Shard(planes, columns, local, n - 1), whole, TokenChunks.Times(n - 1, length), length);
    }
  }

  lemma ShardIsRows(planes: Planes, rows: nat, columns: nat, local: nat, ranks: nat, rank: nat, whole: seq<nat>)
    requires GoodPlanes(planes, rows, columns) && rows == ranks * local && local > 0 && local % 16 == 0 && rank < ranks
    requires whole == Matrix(planes, rows, columns)
    ensures Covers(Shard(planes, columns, local, rank), whole, TokenChunks.Times(rank, local * columns), local * columns)
  {
    RankSliceIsGood(rank, local, ranks, rows, columns);
    RowShardIsRows(planes, rows, columns, rank * local, local, whole);
    RankStart(rank, local, columns);
  }

  /** Where a rank's rows start. */
  lemma RankStart(rank: nat, local: nat, columns: nat)
    ensures TokenChunks.Times(rank, local * columns) == rank * local * columns
  {
    TokenChunks.TimesIsProduct(rank, local * columns);
    assert rank * (local * columns) == rank * local * columns;
  }

  /** The decoded shards of all ranks, put together, are the unsharded matrix: no gap
      and no overlap. */
  lemma ShardsReassemble(planes: Planes, rows: nat, columns: nat, local: nat, ranks: nat)
    requires GoodPlanes(planes, rows, columns) && rows == ranks * local && local > 0 && local % 16 == 0
    ensures Shards(planes, columns, local, ranks) == Matrix(planes, rows, columns)
  {
    var whole := Matrix(planes, rows, columns);
    forall rank: nat {:trigger Shard(planes, columns, local, rank)} | rank < ranks
      ensures Covers(Shard(planes, columns, local, rank), whole, TokenChunks.Times(rank, local * columns), local * columns)
    {
      ShardIsRows(planes, rows, columns, local, ranks, rank, whole);
    }
    ShardsCover(planes, columns, local, ranks, whole, local * columns);
    RankStart(ranks, local, columns);
    assert whole[..|whole|] == whole;
  }

  /** Extents aligned to slabs give every rank whole slabs. */
  lemma ExtentsAreSlabs(intermediateSize: nat, tpRank: nat, tpSize: nat, alignment: nat)
    requires GoodExtent(intermediateSize, tpRank, tpSize, alignment) && alignment % 16 == 0
    ensures intermediateSize / tpSize > 0 && intermediateSize / tpSize % 16 == 0
    ensures intermediateSize == tpSize * (intermediateSize / tpSize)
  {
    var q, units := intermediateSize / (alignment * tpSize), alignment / 16;
    assert intermediateSize == (alignment * tpSize) * q == (alignment * q) * tpSize;
    FlatSplits(alignment * q, 0, tpSize);
    assert intermediateSize == Flat(alignment * q, 0, tpSize);
    assert alignment * q == 16 * (units * q);
  }
}
