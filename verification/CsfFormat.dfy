/** The two planes as the format describes them, byte after byte, and that the decoder reads
    exactly this (src/csf_codec.ts). */
module CsfFormat {
  import opened Wrappers
  import opened Bits
  import opened CsfCodec
  import opened CsfShards

  // ---------------------------------------------------------------------
  // Blocks of one length

  /** The first n blocks, one after the other. */
  function Joined(blocks: seq<seq<Byte>>, n: nat): seq<Byte>
    requires n <= |blocks|
  {
    if n == 0 then [] else Joined(blocks, n - 1) + blocks[n - 1]
  }

  ghost predicate AllOf(blocks: seq<seq<Byte>>, length: nat) {
    forall i {:trigger blocks[i]} :: 0 <= i < |blocks| ==> |blocks[i]| == length
  }

  lemma {:induction false} JoinedLength(blocks: seq<seq<Byte>>, length: nat, n: nat)
    requires AllOf(blocks, length) && n <= |blocks|
    ensures |Joined(blocks, n)| == n * length
  {
    if n > 0 {
      JoinedLength(blocks, length, n - 1);
      assert n * length == (n - 1) * length + length;
    }
  }

  /** Byte o of block i. */
  lemma {:induction false} JoinedAt(blocks: seq<seq<Byte>>, length: nat, n: nat, i: nat, o: nat)
    requires AllOf(blocks, length) && i < n <= |blocks| && o < length
    ensures i * length + o < |Joined(blocks, n)| == n * length && Joined(blocks, n)[i * length + o] == blocks[i][o]
  {
    JoinedLength(blocks, length, n);
    JoinedLength(blocks, length, n - 1);
    if i < n - 1 {
      JoinedAt(blocks, length, n - 1, i, o);
    } else {
      assert Joined(blocks, n)[(n - 1) * length + o] == blocks[n - 1][o];
    }
  }

  // ---------------------------------------------------------------------
  // Replacement words

  const WORD_LIMIT: nat := 0x1_0000_0000

  /** The n lowest bytes of a number, lowest first. */
  function LittleEndian(w: nat, n: nat): (bytes: seq<Byte>)
    ensures |bytes| == n
  {
    if n == 0 then [] else [w % 256] + LittleEndian(w / 256, n - 1)
  }

  function Words(ws: seq<nat>): (r: seq<seq<Byte>>)
    ensures |r| == |ws| && forall i {:trigger r[i]} :: 0 <= i < |r| ==> r[i] == LittleEndian(ws[i], 4)
  {
    seq(|ws|, i requires 0 <= i < |ws| => LittleEndian(ws[i], 4))
  }

  /** A plane of unsigned little-endian words. */
  function WordPlane(ws: seq<nat>): seq<Byte> { Joined(Words(ws), |ws|) }

  ghost predicate AllWords(ws: seq<nat>) {
    forall i {:trigger ws[i]} :: 0 <= i < |ws| ==> ws[i] < WORD_LIMIT
  }

  lemma FourBytes(w: nat)
    ensures LittleEndian(w, 4) == [w % 256, w / 256 % 256, w / 65536 % 256, w / POSITION_LIMIT % 256]
  {
    Halves(w, 256, 256);
    Halves(w, 65536, 256);
    assert LittleEndian(w / POSITION_LIMIT, 1) == [w / POSITION_LIMIT % 256];
    assert LittleEndian(w / 65536, 2) == [w / 65536 % 256] + LittleEndian(w / POSITION_LIMIT, 1);
    assert LittleEndian(w / 256, 3) == [w / 256 % 256] + LittleEndian(w / 65536, 2);
  }

  lemma Halves(w: nat, a: nat, b: nat)
    requires (a == 256 || a == 65536) && b == 256
    ensures w / a / b == w / (a * b)
  {
  }

  /** The low 24 bits of a word are the position, the top 8 the value. */
  lemma WordIsRead(bytes: seq<Byte>, i: nat, w: nat)
    requires w < WORD_LIMIT && 4 * i + 4 <= |bytes| && bytes[4 * i..4 * i + 4] == LittleEndian(w, 4)
    ensures ReadEntry(bytes, i) == Entry(w % POSITION_LIMIT, w / POSITION_LIMIT)
  {
    FourBytes(w);
    LowBytes(w);
    var four := bytes[4 * i..4 * i + 4];
    assert four[0] == bytes[4 * i] && four[1] == bytes[4 * i + 1] && four[2] == bytes[4 * i + 2] && four[3] == bytes[4 * i + 3];
  }

  lemma WordAt(ws: seq<nat>, i: nat)
    requires i < |ws|
    ensures |WordPlane(ws)| == 4 * |ws| && WordPlane(ws)[4 * i..4 * i + 4] == LittleEndian(ws[i], 4)
  {
    var plane := WordPlane(ws);
    JoinedLength(Words(ws), 4, |ws|);
    forall o | 0 <= o < 4 ensures plane[4 * i + o] == LittleEndian(ws[i], 4)[o] { JoinedAt(Words(ws), 4, |ws|, i, o); }
  }

  /** The low 24 bits are in range, sorted and unique. */
  ghost predicate OrderedWords(ws: seq<nat>, total: nat) {
    && (forall i {:trigger ws[i]} :: 0 <= i < |ws| ==> ws[i] % POSITION_LIMIT < total)
    && (forall i, j {:trigger ws[i], ws[j]} :: 0 <= i < j < |ws| ==> ws[i] % POSITION_LIMIT < ws[j] % POSITION_LIMIT)
  }

  /** A plane of words is read word by word; it passes iff the positions are in range, sorted
      and unique. */
  lemma PlaneIsRead(ws: seq<nat>, total: nat)
    requires AllWords(ws)
    ensures |Entries(WordPlane(ws))| == |ws|
    ensures forall i {:trigger ws[i]} :: 0 <= i < |ws| ==>
              Entries(WordPlane(ws))[i] == Entry(ws[i] % POSITION_LIMIT, ws[i] / POSITION_LIMIT)
    ensures GoodExceptions(WordPlane(ws), total) <==> OrderedWords(ws, total)
  {
    JoinedLength(Words(ws), 4, |ws|);
    var entries := Entries(WordPlane(ws));
    forall i {:trigger ws[i]} | 0 <= i < |ws| ensures entries[i] == Entry(ws[i] % POSITION_LIMIT, ws[i] / POSITION_LIMIT) {
      WordAt(ws, i);
      WordIsRead(WordPlane(ws), i, ws[i]);
    }
    WordsOrdered(ws, entries, total);
  }

  lemma WordsOrdered(ws: seq<nat>, entries: seq<Entry>, total: nat)
    requires |entries| == |ws| && forall i {:trigger ws[i]} :: 0 <= i < |ws| ==> entries[i].position == ws[i] % POSITION_LIMIT
    ensures Ordered(entries, total) <==> OrderedWords(ws, total)
  {
    if Ordered(entries, total) {
      forall i, j {:trigger ws[i], ws[j]} | 0 <= i < j < |ws| ensures ws[i] % POSITION_LIMIT < ws[j] % POSITION_LIMIT {
        assert entries[i].position < entries[j].position;
      }
      forall i {:trigger ws[i]} | 0 <= i < |ws| ensures ws[i] % POSITION_LIMIT < total { assert entries[i].position < total; }
    }
    if OrderedWords(ws, total) {
      forall i, j {:trigger entries[i], entries[j]} | 0 <= i < j < |entries| ensures entries[i].position < entries[j].position {
        assert ws[i] % POSITION_LIMIT < ws[j] % POSITION_LIMIT;
      }
      forall i {:trigger entries[i]} | 0 <= i < |entries| ensures entries[i].position < total { assert ws[i] % POSITION_LIMIT < total; }
    }
  }

  /** What `(value << 24 | position) >>> 0` gives. */
  function WrittenWord(e: Entry): nat {
    BitOr(e.value * POSITION_LIMIT, e.position % WORD_LIMIT, 32)
  }

  function WrittenWords(entries: seq<Entry>): (ws: seq<nat>)
    ensures |ws| == |entries| && forall i {:trigger ws[i]} :: 0 <= i < |ws| ==> ws[i] == WrittenWord(entries[i])
  {
    seq(|entries|, i requires 0 <= i < |entries| => WrittenWord(entries[i]))
  }

  /** Every bit of an or. */
  lemma {:induction false} OrBits(a: nat, b: nat, n: nat, k: nat)
    requires k < n
    ensures Bit(BitOr(a, b, n), k) == 1 <==> Bit(a, k) == 1 || Bit(b, k) == 1
  {
    var r := BitOr(a, b, n);
    assert r / 2 == BitOr(a / 2, b / 2, n - 1) && r % 2 == if a % 2 == 1 || b % 2 == 1 then 1 else 0;
    if k > 0 { OrBits(a / 2, b / 2, n - 1, k - 1); }
  }

  /** Shifts and masks by n bits. */
  function Up(v: nat, n: nat): nat { if n == 0 then v else 2 * Up(v, n - 1) }

  function Down(p: nat, n: nat): nat { if n == 0 then p else Down(p / 2, n - 1) }

  function Low(p: nat, n: nat): nat { if n == 0 then 0 else p % 2 + 2 * Low(p / 2, n - 1) }

  /** Or with a number whose n low bits are zero. */
  lemma {:induction false} OrHigh(v: nat, p: nat, n: nat, m: nat)
    ensures BitOr(Up(v, n), p, n + m) == Low(p, n) + Up(BitOr(v, Down(p, n), m), n)
  {
    if n > 0 { OrHigh(v, p / 2, n - 1, m); }
  }

  lemma {:induction false} UpIsTimes(v: nat, n: nat)
    ensures Up(v, n) == v * Pow2(n)
  {
    if n > 0 {
      UpIsTimes(v, n - 1);
      assert v * (2 * Pow2(n - 1)) == 2 * (v * Pow2(n - 1));
    }
  }

  lemma {:induction false} LowAndDown(p: nat, n: nat)
    ensures p == Up(Down(p, n), n) + Low(p, n) && Low(p, n) < Pow2(n)
  {
    if n > 0 { LowAndDown(p / 2, n - 1); }
  }

  lemma QuotientAndRest(p: nat, m: nat, q: nat, r: nat)
    requires m > 0 && p == q * m + r && r < m
    ensures p / m == q && p % m == r
  {
    FlatSplits(q, r, m);
  }

  lemma Widths()
    ensures Pow2(24) == POSITION_LIMIT && Pow2(8) == 256
  {
    assert Pow2(6) == 64;
    assert Pow2(12) == 4096;
    assert Pow2(18) == 262144;
    ByteWidth();
  }

  lemma WordParts(e: Entry)
    ensures WrittenWord(e) == TopByte(e) * POSITION_LIMIT + e.position % POSITION_LIMIT
  {
    OrWide(e.value, e.position % WORD_LIMIT);
    Quarters(e.position);
  }

  lemma PartsOfWord(w: nat, high: Byte, low: nat)
    requires w == high * POSITION_LIMIT + low && low < POSITION_LIMIT
    ensures w < WORD_LIMIT && w / POSITION_LIMIT % 256 == high && w % POSITION_LIMIT == low
  {
  }

  /** A word written is the or of value and position, as 32 bits; below 2^24 the two are
      side by side. */
  lemma WordIsWritten(e: Entry)
    ensures WrittenWord(e) < WORD_LIMIT && Word(e) == LittleEndian(WrittenWord(e), 4)
    ensures e.position < POSITION_LIMIT ==> WrittenWord(e) == e.value * POSITION_LIMIT + e.position
  {
    WordParts(e);
    PartsOfWord(WrittenWord(e), TopByte(e), e.position % POSITION_LIMIT);
    FourBytes(WrittenWord(e));
    SameLowBytes(WrittenWord(e), e.position);
    if e.position < POSITION_LIMIT { TruncatedExact(e); }
  }

  lemma OrWide(v: nat, p: nat)
    ensures BitOr(v * POSITION_LIMIT, p, 32) == p % POSITION_LIMIT + BitOr(v, p / POSITION_LIMIT, 8) * POSITION_LIMIT
  {
    Widths();
    OrHigh(v, p, 24, 8);
    UpIsTimes(v, 24);
    LowAndDown(p, 24);
    UpIsTimes(Down(p, 24), 24);
    QuotientAndRest(p, POSITION_LIMIT, Down(p, 24), Low(p, 24));
    UpIsTimes(BitOr(v, p / POSITION_LIMIT, 8), 24);
  }

  lemma Quarters(position: nat)
    ensures position % WORD_LIMIT / POSITION_LIMIT == position / POSITION_LIMIT % 256
    ensures position % WORD_LIMIT % POSITION_LIMIT == position % POSITION_LIMIT
  {
    var q := position / POSITION_LIMIT;
    assert position == q / 256 * WORD_LIMIT + (q % 256 * POSITION_LIMIT + position % POSITION_LIMIT);
  }

  lemma LowBytesOfRest(a: nat)
    ensures var r := a % POSITION_LIMIT;
            a % 256 == r % 256 && a / 256 % 256 == r / 256 % 256 && a / 65536 % 256 == r / 65536 % 256
  {
    var q, r := a / POSITION_LIMIT, a % POSITION_LIMIT;
    assert a == POSITION_LIMIT * q + r;
    assert a / 256 == 65536 * q + r / 256;
    assert a / 65536 == 256 * q + r / 65536;
  }

  lemma SameLowBytes(a: nat, b: nat)
    requires a % POSITION_LIMIT == b % POSITION_LIMIT
    ensures a % 256 == b % 256 && a / 256 % 256 == b / 256 % 256 && a / 65536 % 256 == b / 65536 % 256
  {
    LowBytesOfRest(a);
    LowBytesOfRest(b);
  }

  /** What the encoder writes, word by word. */
  lemma PlaneIsWritten(entries: seq<Entry>)
    ensures AllWords(WrittenWords(entries)) && Encode(entries) == WordPlane(WrittenWords(entries))
  {
    var ws := WrittenWords(entries);
    forall i {:trigger ws[i]} | 0 <= i < |ws| ensures ws[i] < WORD_LIMIT { WordIsWritten(entries[i]); }
    WrittenUpTo(entries, |entries|);
  }

  lemma {:induction false} WrittenUpTo(entries: seq<Entry>, n: nat)
    requires n <= |entries|
    ensures EncodeFirst(entries, n) == Joined(Words(WrittenWords(entries)), n)
  {
    if n > 0 {
      WrittenUpTo(entries, n - 1);
      WordIsWritten(entries[n - 1]);
    }
  }

  /** The number a list of bytes stands for. */
  function Number(bytes: seq<Byte>): nat { if bytes == [] then 0 else bytes[0] + 256 * Number(bytes[1..]) }

  lemma {:induction false} NumberWritten(bytes: seq<Byte>)
    ensures LittleEndian(Number(bytes), |bytes|) == bytes
  {
    if bytes != [] { NumberWritten(bytes[1..]); }
  }

  lemma NumberOfFour(bytes: seq<Byte>)
    requires |bytes| == 4
    ensures Number(bytes) < WORD_LIMIT
  {
    assert Number(bytes[1..][1..][1..]) < 256;
    assert Number(bytes[1..][1..]) < 65536;
    assert Number(bytes[1..]) < POSITION_LIMIT;
  }

  /** Every plane of whole words is one. */
  lemma EveryPlaneIsWords(bytes: seq<Byte>) returns (ws: seq<nat>)
    requires |bytes| % 4 == 0
    ensures AllWords(ws) && WordPlane(ws) == bytes
  {
    ws := seq(|bytes| / 4, i requires 0 <= i < |bytes| / 4 => Number(bytes[4 * i..4 * i + 4]));
    JoinedLength(Words(ws), 4, |ws|);
    forall i {:trigger ws[i]} | 0 <= i < |ws| ensures ws[i] < WORD_LIMIT { NumberOfFour(bytes[4 * i..4 * i + 4]); }
    forall k | 0 <= k < |bytes| ensures WordPlane(ws)[k] == bytes[k] {
      var i, o := k / 4, k % 4;
      NumberWritten(bytes[4 * i..4 * i + 4]);
      JoinedAt(Words(ws), 4, |ws|, i, o);
      assert Words(ws)[i] == bytes[4 * i..4 * i + 4];
    }
  }

  // ---------------------------------------------------------------------
  // The fixed stream

  type Offset = n: nat | n < 16

  /** A base for each row and an offset above it for each column. */
  datatype Table = Table(bases: seq<Byte>, offsets: seq<seq<Offset>>)

  ghost predicate Shaped(t: Table, rows: nat, columns: nat) {
    && rows % 16 == 0 && columns % 2 == 0 && columns > 0 && |t.bases| == |t.offsets| == rows
    && forall r {:trigger t.offsets[r]} :: 0 <= r < rows ==> |t.offsets[r]| == columns
  }

  /** A byte of two offsets. */
  function Packed(low: Offset, high: Offset): Byte {
    var upper: nat := high;
    low + 16 * upper
  }

  /** Two columns a byte, the even one in the low nibble. */
  function PackedRow(offsets: seq<Offset>): (bytes: seq<Byte>)
    ensures |bytes| == |offsets| / 2
    ensures forall c {:trigger bytes[c]} :: 0 <= c < |bytes| ==> bytes[c] == Packed(offsets[2 * c], offsets[2 * c + 1])
  {
    seq(|offsets| / 2, c requires 0 <= c < |offsets| / 2 => Packed(offsets[2 * c], offsets[2 * c + 1]))
  }

  function PackedRows(offsets: seq<seq<Offset>>): (blocks: seq<seq<Byte>>)
    ensures |blocks| == |offsets| && forall r {:trigger blocks[r]} :: 0 <= r < |blocks| ==> blocks[r] == PackedRow(offsets[r])
  {
    seq(|offsets|, r requires 0 <= r < |offsets| => PackedRow(offsets[r]))
  }

  /** A slab: sixteen bases, then the packed rows. */
  function Slab(bases: seq<Byte>, offsets: seq<seq<Offset>>): seq<Byte> {
    bases + Joined(PackedRows(offsets), |offsets|)
  }

  function Slabs(t: Table): (blocks: seq<seq<Byte>>)
    requires |t.bases| == |t.offsets|
    ensures |blocks| == |t.bases| / 16
    ensures forall i {:trigger blocks[i]} :: 0 <= i < |blocks| ==>
              blocks[i] == Slab(t.bases[16 * i..16 * i + 16], t.offsets[16 * i..16 * i + 16])
  {
    seq(|t.bases| / 16, i requires 0 <= i < |t.bases| / 16 => Slab(t.bases[16 * i..16 * i + 16], t.offsets[16 * i..16 * i + 16]))
  }

  /** The fixed stream: slab after slab. */
  function FixedPlane(t: Table): seq<Byte>
    requires |t.bases| == |t.offsets|
  {
    Joined(Slabs(t), |t.bases| / 16)
  }

  /** Bytes of one slab. */
  lemma SlabBytes(bases: seq<Byte>, offsets: seq<seq<Offset>>, columns: nat)
    requires |bases| == |offsets| == 16 && columns % 2 == 0
    requires forall r {:trigger offsets[r]} :: 0 <= r < 16 ==> |offsets[r]| == columns
    ensures |Slab(bases, offsets)| == Stride(columns)
    ensures forall r {:trigger bases[r]} :: 0 <= r < 16 ==> Slab(bases, offsets)[r] == bases[r]
  {
    JoinedLength(PackedRows(offsets), columns / 2, 16);
  }

  lemma SlabPair(bases: seq<Byte>, offsets: seq<seq<Offset>>, columns: nat, r: nat, c: nat)
    requires |bases| == |offsets| == 16 && columns % 2 == 0 && r < 16 && c < columns / 2
    requires forall r {:trigger offsets[r]} :: 0 <= r < 16 ==> |offsets[r]| == columns
    ensures 16 + Flat(r, c, columns / 2) < Stride(columns) == |Slab(bases, offsets)|
    ensures Slab(bases, offsets)[16 + Flat(r, c, columns / 2)] == Packed(offsets[r][2 * c], offsets[r][2 * c + 1])
  {
    SlabBytes(bases, offsets, columns);
    JoinedAt(PackedRows(offsets), columns / 2, 16, r, c);
  }

  lemma SlabAt(t: Table, rows: nat, columns: nat, i: nat)
    requires Shaped(t, rows, columns) && i < rows / 16
    ensures Slabs(t)[i] == Slab(t.bases[16 * i..16 * i + 16], t.offsets[16 * i..16 * i + 16])
    ensures |t.bases[16 * i..16 * i + 16]| == |t.offsets[16 * i..16 * i + 16]| == 16
    ensures forall r {:trigger t.offsets[16 * i..16 * i + 16][r]} :: 0 <= r < 16 ==> |t.offsets[16 * i..16 * i + 16][r]| == columns
    ensures |Slabs(t)[i]| == Stride(columns)
  {
    SlabBytes(t.bases[16 * i..16 * i + 16], t.offsets[16 * i..16 * i + 16], columns);
  }

  lemma AllSlabs(t: Table, rows: nat, columns: nat)
    requires Shaped(t, rows, columns)
    ensures AllOf(Slabs(t), Stride(columns)) && |FixedPlane(t)| == FixedLength(rows, columns)
  {
    forall i {:trigger Slabs(t)[i]} | 0 <= i < |Slabs(t)| ensures |Slabs(t)[i]| == Stride(columns) { SlabAt(t, rows, columns, i); }
    JoinedLength(Slabs(t), Stride(columns), rows / 16);
  }

  /** The decoder finds each base, and the packed byte of each pair, where the format puts them. */
  lemma BaseIsRead(t: Table, rows: nat, columns: nat, row: nat)
    requires Shaped(t, rows, columns) && row < rows
    ensures Base(FixedPlane(t), columns, row) == t.bases[row]
  {
    var i, r := row / 16, row % 16;
    AllSlabs(t, rows, columns);
    SlabAt(t, rows, columns, i);
    SlabBytes(t.bases[16 * i..16 * i + 16], t.offsets[16 * i..16 * i + 16], columns);
    JoinedAt(Slabs(t), Stride(columns), rows / 16, i, r);
    assert t.bases[16 * i..16 * i + 16][r] == t.bases[row];
  }

  /** Byte o of slab i. */
  lemma SlabByteIsRead(t: Table, rows: nat, columns: nat, i: nat, o: nat, b: Byte)
    requires Shaped(t, rows, columns) && i < rows / 16 && o < Stride(columns)
    requires var slab := Slab(t.bases[16 * i..16 * i + 16], t.offsets[16 * i..16 * i + 16]);
             |slab| == Stride(columns) && slab[o] == b
    ensures At(FixedPlane(t), Flat(i, o, Stride(columns))) == b
  {
    AllSlabs(t, rows, columns);
    JoinedAt(Slabs(t), Stride(columns), rows / 16, i, o);
  }

  lemma PairIsRead(t: Table, rows: nat, columns: nat, row: nat, c: nat)
    requires Shaped(t, rows, columns) && row < rows && c < columns / 2
    ensures At(FixedPlane(t), PackedIndex(row, c, columns)) == Packed(t.offsets[row][2 * c], t.offsets[row][2 * c + 1])
  {
    var i, r := row / 16, row % 16;
    SlabAt(t, rows, columns, i);
    SlabPair(t.bases[16 * i..16 * i + 16], t.offsets[16 * i..16 * i + 16], columns, r, c);
    assert t.offsets[16 * i..16 * i + 16][r] == t.offsets[row];
    SlabByteIsRead(t, rows, columns, i, 16 + Flat(r, c, columns / 2), Packed(t.offsets[row][2 * c], t.offsets[row][2 * c + 1]));
  }

  lemma NibbleOfPacked(low: Offset, high: Offset, col: nat)
    ensures PairNibble(Packed(low, high), col) == if col % 2 == 0 then low else high
  {
  }

  lemma NibbleIsRead(offsets: seq<Offset>, col: nat)
    requires |offsets| % 2 == 0 && col < |offsets|
    ensures PairNibble(Packed(offsets[2 * (col / 2)], offsets[2 * (col / 2) + 1]), col) == offsets[col]
  {
    NibbleOfPacked(offsets[2 * (col / 2)], offsets[2 * (col / 2) + 1], col);
  }

  /** A code is its row's base plus its own offset. */
  lemma CodeIsRead(t: Table, rows: nat, columns: nat, row: nat, col: nat)
    requires Shaped(t, rows, columns) && row < rows && col < columns
    ensures Nibble(FixedPlane(t), columns, row, col) == t.offsets[row][col]
    ensures CodeAt(FixedPlane(t), columns, row, col) == t.bases[row] + t.offsets[row][col]
  {
    BaseIsRead(t, rows, columns, row);
    PairIsRead(t, rows, columns, row, col / 2);
    NibbleIsRead(t.offsets[row], col);
  }

  /** What a fixed plane holds. */
  function TableOf(plane: seq<Byte>, rows: nat, columns: nat): (t: Table)
    ensures |t.bases| == |t.offsets| == rows
    ensures forall r {:trigger t.bases[r]} :: 0 <= r < rows ==> t.bases[r] == Base(plane, columns, r)
    ensures forall r {:trigger t.offsets[r]} :: 0 <= r < rows ==>
              |t.offsets[r]| == columns && forall c {:trigger t.offsets[r][c]} :: 0 <= c < columns ==> t.offsets[r][c] == Nibble(plane, columns, r, c)
  {
    Table(seq(rows, r requires 0 <= r < rows => Base(plane, columns, r)),
          seq(rows, r requires 0 <= r < rows => seq(columns, c requires 0 <= c < columns => Nibble(plane, columns, r, c))))
  }

  /** Every plane of the right length is written from a table. */
  lemma EveryPlaneIsATable(plane: seq<Byte>, rows: nat, columns: nat)
    requires rows % 16 == 0 && columns % 2 == 0 && columns > 0 && |plane| == FixedLength(rows, columns)
    ensures Shaped(TableOf(plane, rows, columns), rows, columns) && FixedPlane(TableOf(plane, rows, columns)) == plane
  {
    var t := TableOf(plane, rows, columns);
    AllSlabs(t, rows, columns);
    forall k | 0 <= k < |plane| ensures FixedPlane(t)[k] == plane[k] { ByteKept(plane, rows, columns, k); }
  }

  lemma ByteKept(plane: seq<Byte>, rows: nat, columns: nat, k: nat)
    requires rows % 16 == 0 && columns % 2 == 0 && columns > 0 && k < |plane| == FixedLength(rows, columns)
    ensures |FixedPlane(TableOf(plane, rows, columns))| == |plane|
    ensures FixedPlane(TableOf(plane, rows, columns))[k] == plane[k]
  {
    AllSlabs(TableOf(plane, rows, columns), rows, columns);
    var i, o := Located(k, rows / 16, Stride(columns));
    if o < 16 {
      HeadKept(plane, rows, columns, i, o, k);
    } else {
      var r, c := Located(o - 16, 16, columns / 2);
      PairKept(plane, rows, columns, i, r, c, k);
    }
  }

  lemma Located(k: nat, n: nat, length: nat) returns (i: nat, o: nat)
    requires k < n * length
    ensures i < n && o < length && k == Flat(i, o, length)
  {
    RowBelow(k, n, length);
    i, o := RowOf(k, length), ColOf(k, length);
    FlatJoins(k, length);
  }

  lemma HeadKept(plane: seq<Byte>, rows: nat, columns: nat, i: nat, r: nat, k: nat)
    requires rows % 16 == 0 && columns % 2 == 0 && columns > 0 && k < |plane| == FixedLength(rows, columns)
    requires i < rows / 16 && r < 16 && k == Flat(i, r, Stride(columns))
    ensures At(FixedPlane(TableOf(plane, rows, columns)), k) == plane[k]
  {
    SlabRow(i, r);
    BaseIsRead(TableOf(plane, rows, columns), rows, columns, 16 * i + r);
  }

  lemma PairKept(plane: seq<Byte>, rows: nat, columns: nat, i: nat, r: nat, c: nat, k: nat)
    requires rows % 16 == 0 && columns % 2 == 0 && columns > 0 && k < |plane| == FixedLength(rows, columns)
    requires i < rows / 16 && r < 16 && c < columns / 2 && k == Flat(i, 16 + Flat(r, c, columns / 2), Stride(columns))
    ensures At(FixedPlane(TableOf(plane, rows, columns)), k) == plane[k]
  {
    SlabRow(i, r);
    PairIsRead(TableOf(plane, rows, columns), rows, columns, 16 * i + r, c);
    BothNibbles(plane, columns, 16 * i + r, c, k);
  }

  lemma SlabRow(i: nat, r: nat)
    requires r < 16
    ensures (16 * i + r) / 16 == i && (16 * i + r) % 16 == r
  {
  }

  lemma BothNibbles(plane: seq<Byte>, columns: nat, row: nat, c: nat, k: nat)
    requires k < |plane| && PackedIndex(row, c, columns) == k
    ensures Packed(Nibble(plane, columns, row, 2 * c), Nibble(plane, columns, row, 2 * c + 1)) == plane[k]
  {
    assert 2 * c / 2 == c && (2 * c + 1) / 2 == c;
  }

  // ---------------------------------------------------------------------
  // Both planes

  /** Word i replaces a position. */
  ghost predicate Replaces(ws: seq<nat>, i: nat, position: nat) {
    i < |ws| && ws[i] % POSITION_LIMIT == position
  }

  lemma WordsReplace(ws: seq<nat>, total: nat, position: nat)
    requires AllWords(ws) && OrderedWords(ws, total)
    ensures GoodExceptions(WordPlane(ws), total)
    ensures var found := Replacement(Entries(WordPlane(ws)), position);
            && (forall i: nat {:trigger Replaces(ws, i, position)} :: Replaces(ws, i, position) ==> found == Some(ws[i] / POSITION_LIMIT))
            && ((forall i: nat {:trigger Replaces(ws, i, position)} :: !Replaces(ws, i, position)) ==> found == None)
  {
    PlaneIsRead(ws, total);
    var entries := Entries(WordPlane(ws));
    forall i: nat {:trigger Replaces(ws, i, position)} | Replaces(ws, i, position)
      ensures Replacement(entries, position) == Some(ws[i] / POSITION_LIMIT)
    {
      ReplacementAt(entries, total, i);
    }
    if forall i: nat {:trigger Replaces(ws, i, position)} :: !Replaces(ws, i, position) {
      forall i | 0 <= i < |entries| ensures entries[i].position != position { assert !Replaces(ws, i, position); }
    }
  }

  /** Planes written as the format says decode to the replacement where there is one, and to
      base plus offset elsewhere. */
  lemma FormatIsRead(t: Table, ws: seq<nat>, rows: nat, columns: nat, row: nat, col: nat, position: nat)
    requires Shaped(t, rows, columns) && AllWords(ws) && OrderedWords(ws, rows * columns) && row < rows && col < columns
    requires position == row * columns + col
    ensures GoodExceptions(WordPlane(ws), rows * columns)
    ensures var scale := ScaleAt(Planes(FixedPlane(t), WordPlane(ws)), columns, row, col);
            && (forall i: nat {:trigger Replaces(ws, i, position)} :: Replaces(ws, i, position) ==> scale == ws[i] / POSITION_LIMIT)
            && ((forall i: nat {:trigger Replaces(ws, i, position)} :: !Replaces(ws, i, position)) ==>
                  scale == t.bases[row] + t.offsets[row][col])
  {
    WordsReplace(ws, rows * columns, position);
    CodeIsRead(t, rows, columns, row, col);
  }

  /** The fixed plane passes the checks iff no base is above 240, so that every offset has room. */
  lemma FormatIsGood(t: Table, rows: nat, columns: nat)
    requires Shaped(t, rows, columns) && GoodGeometry(rows, columns)
    ensures GoodFixed(FixedPlane(t), rows, columns) <==> forall r {:trigger t.bases[r]} :: 0 <= r < rows ==> t.bases[r] <= 240
  {
    AllSlabs(t, rows, columns);
    forall r {:trigger BaseIndex(r, columns)} | 0 <= r < rows
      ensures BaseIndex(r, columns) < |FixedPlane(t)| && FixedPlane(t)[BaseIndex(r, columns)] == t.bases[r]
    {
      BaseFound(t, rows, columns, r);
    }
    BasesGood(FixedPlane(t), t.bases, rows, columns);
  }

  lemma BaseFound(t: Table, rows: nat, columns: nat, r: nat)
    requires Shaped(t, rows, columns) && r < rows
    ensures BaseIndex(r, columns) < |FixedPlane(t)| && FixedPlane(t)[BaseIndex(r, columns)] == t.bases[r]
  {
    AllSlabs(t, rows, columns);
    IndexBelow(r, 0, rows, columns);
    BaseIsRead(t, rows, columns, r);
  }

  lemma BasesGood(plane: seq<Byte>, bases: seq<Byte>, rows: nat, columns: nat)
    requires GoodGeometry(rows, columns) && |plane| == FixedLength(rows, columns) && |bases| == rows
    requires forall r {:trigger BaseIndex(r, columns)} :: 0 <= r < rows ==>
               BaseIndex(r, columns) < |plane| && plane[BaseIndex(r, columns)] == bases[r]
    ensures GoodBases(plane, rows, columns) <==> forall r {:trigger bases[r]} :: 0 <= r < rows ==> bases[r] <= 240
  {
    if GoodBases(plane, rows, columns) {
      forall r {:trigger bases[r]} | 0 <= r < rows ensures bases[r] <= 240 { assert plane[BaseIndex(r, columns)] <= 240; }
    }
  }

  // ---------------------------------------------------------------------
  // E4M3

  /** The number an unsigned E4M3 code stands for, in units of 2^-9: three bits of mantissa
      below four of exponent with a bias of seven, subnormal where the exponent is zero. */
  function E4M3(code: nat): nat {
    var exponent, mantissa := code / 8, code % 8;
    if exponent == 0 then mantissa else (8 + mantissa) * Pow2(exponent - 1)
  }

  lemma {:induction false} E4M3Grows(a: nat, b: nat)
    requires a < b
    ensures E4M3(a) < E4M3(b)
  {
    if a < b - 1 { E4M3Grows(a, b - 1); }
    NextE4M3(b - 1);
  }

  lemma NextE4M3(a: nat)
    ensures E4M3(a) < E4M3(a + 1)
  {
    var exponent, mantissa := a / 8, a % 8;
    if mantissa < 7 {
      assert (a + 1) / 8 == exponent && (a + 1) % 8 == mantissa + 1;
      if exponent > 0 {
        PowPositive(exponent - 1);
        assert (8 + (mantissa + 1)) * Pow2(exponent - 1) == (8 + mantissa) * Pow2(exponent - 1) + Pow2(exponent - 1);
      }
    } else {
      assert (a + 1) / 8 == exponent + 1 && (a + 1) % 8 == 0;
      if exponent > 0 { PowPositive(exponent - 1); }
    }
  }

  lemma {:induction false} PowPositive(n: nat)
    ensures Pow2(n) > 0
  {
    if n > 0 { PowPositive(n - 1); }
  }

  /** The base of appended rows is the one code of 1.0, and the highest scale code is that of
      448, the largest finite number; the next is the code of no number. */
  lemma ScaleCodes(code: nat)
    ensures E4M3(code) == 512 <==> code == PADDED_SCALE_CODE
    ensures E4M3(code) <= 448 * 512 <==> code <= MAX_SCALE_CODE
    ensures MAX_SCALE_CODE + 1 == 0x7f
  {
    Widths();
    assert Pow2(4) == 16;
    assert Pow2(14) == 16384 by { assert Pow2(9) == 512; }
    assert E4M3(PADDED_SCALE_CODE) == 8 * Pow2(6) == 512;
    assert E4M3(MAX_SCALE_CODE) == 14 * Pow2(14) == 448 * 512;
    if code < PADDED_SCALE_CODE { E4M3Grows(code, PADDED_SCALE_CODE); }
    if code > PADDED_SCALE_CODE { E4M3Grows(PADDED_SCALE_CODE, code); }
    if code < MAX_SCALE_CODE { E4M3Grows(code, MAX_SCALE_CODE); }
    if code > MAX_SCALE_CODE { E4M3Grows(MAX_SCALE_CODE, code); }
  }
}
