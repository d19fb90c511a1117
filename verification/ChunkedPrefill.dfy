/** Prefilling prompts in chunks of bounded size, with the one-token overlap that
    speculative decoding needs (src/chat_model.ts, src/glm51_model.ts). */
module ChunkedPrefill {
  import opened Wrappers
  import opened TokenChunks
  import opened PagePool
  import opened PageLaws
  import opened PageStock
  import opened PageTally
  import opened PagedSequence
  import opened SequenceRows
  import opened GreedyStream
  import opened DecodeRuns
  import opened MtpDecode
  import opened PrefillBudget

  // ---------------------------------------------------------------------
  // Selecting a chunk

  datatype Chunk = Chunk(prefill: seq<seq<int>>, remaining: seq<seq<int>>)

  datatype ChunkError = BadChunkSize | ChunkTooSmall

  /** Tokens in the first n lists. */
  function TotalLen(lists: seq<seq<int>>, n: nat): nat
    requires n <= |lists|
  {
    if n == 0 then 0 else TotalLen(lists, n - 1) + |lists[n - 1]|
  }

  function OverlapLen(overlap: Option<int>): nat { if overlap.Some? then 1 else 0 }

  /** The inputs of a row that takes t of its tokens. */
  function WithOverlap(overlap: Option<int>, taken: seq<int>): seq<int> {
    if taken != [] && overlap.Some? then [overlap.value] + taken else taken
  }

  /** Row b takes a prefix of its tokens behind its overlap, the rest remains, and
      it takes as many as the budget left by the rows before it allows. */
  ghost predicate RowSelected(ids: seq<int>, overlap: Option<int>, prefill: seq<int>, remaining: seq<int>, budget: int) {
    && |remaining| <= |ids|
    && var t := |ids| - |remaining|;
       && remaining == ids[t..] && prefill == WithOverlap(overlap, ids[..t])
       && |prefill| <= Max(0, budget)
       && (remaining != [] ==> t + 1 + OverlapLen(overlap) > budget)
  }

  ghost predicate SelectedAt(idsList: seq<seq<int>>, overlaps: seq<Option<int>>, chunkSize: int, chunk: Chunk, b: nat)
    requires b < |idsList| && b < |overlaps| && b < |chunk.prefill| && b < |chunk.remaining|
  {
    RowSelected(idsList[b], overlaps[b], chunk.prefill[b], chunk.remaining[b], chunkSize - TotalLen(chunk.prefill, b))
  }

  /** The first n rows are selected. */
  ghost predicate Selected(idsList: seq<seq<int>>, overlaps: seq<Option<int>>, chunkSize: int, chunk: Chunk, n: nat) {
    && |chunk.prefill| == |chunk.remaining| == n <= |idsList| && n <= |overlaps|
    && forall b {:trigger SelectedAt(idsList, overlaps, chunkSize, chunk, b)} :: 0 <= b < n ==>
         SelectedAt(idsList, overlaps, chunkSize, chunk, b)
  }

  /** One of the first n rows has tokens. */
  predicate AnyInput(idsList: seq<seq<int>>, n: nat)
    requires n <= |idsList|
  {
    n > 0 && (AnyInput(idsList, n - 1) || idsList[n - 1] != [])
  }

  /** One of the first n rows has tokens and needs no overlap. */
  ghost predicate AnyPlain(idsList: seq<seq<int>>, overlaps: seq<Option<int>>, n: nat)
    requires n <= |idsList| && n <= |overlaps|
  {
    n > 0 && (AnyPlain(idsList, overlaps, n - 1) || (idsList[n - 1] != [] && overlaps[n - 1].None?))
  }

  lemma {:induction false} TotalOfPrefix(lists: seq<seq<int>>, last: seq<int>, n: nat)
    requires n <= |lists|
    ensures TotalLen(lists + [last], n) == TotalLen(lists, n)
  {
    if n > 0 { TotalOfPrefix(lists, last, n - 1); }
  }

  /** Greedy selection under the budget. It refuses a chunk size of one token when
      every row with tokens also needs its overlap, and only then. */
  method SelectPrefillChunk(idsList: seq<seq<int>>, chunkSize: int, overlaps: seq<Option<int>>)
      returns (result: Result<Chunk, ChunkError>)
    requires |overlaps| == |idsList|
    ensures result == Err(BadChunkSize) <==> !(1 <= chunkSize <= MAX_SAFE_INTEGER)
    ensures result == Err(ChunkTooSmall) <==>
              chunkSize == 1 && AnyInput(idsList, |idsList|) && !AnyPlain(idsList, overlaps, |idsList|)
    ensures result.Ok? ==>
              && Selected(idsList, overlaps, chunkSize, result.value, |idsList|)
              && TotalLen(result.value.prefill, |idsList|) <= chunkSize
              && (TotalLen(result.value.prefill, |idsList|) > 0 <==> AnyInput(idsList, |idsList|))
  {
    if !(1 <= chunkSize <= MAX_SAFE_INTEGER) { return Err(BadChunkSize); }
    var chunk, budget, anyInput := SelectRows(idsList, chunkSize, overlaps);
    if AnyPlain(idsList, overlaps, |idsList|) { PlainIsInput(idsList, overlaps, |idsList|); }
    if budget == chunkSize && anyInput { return Err(ChunkTooSmall); }
    result := Ok(chunk);
  }

  method SelectRows(idsList: seq<seq<int>>, chunkSize: nat, overlaps: seq<Option<int>>)
      returns (chunk: Chunk, budget: nat, anyInput: bool)
    requires |overlaps| == |idsList| && chunkSize >= 1
    ensures SelectedUpTo(idsList, overlaps, chunkSize, chunk, |idsList|, budget, anyInput)
  {
    chunk, budget, anyInput := Chunk([], []), chunkSize, false;
    var b := 0;
    while b < |idsList|
      invariant 0 <= b <= |idsList| && SelectedUpTo(idsList, overlaps, chunkSize, chunk, b, budget, anyInput)
    {
      chunk, budget, anyInput := SelectNext(idsList, chunkSize, overlaps, b, chunk, budget, anyInput);
      b := b + 1;
    }
  }

  method SelectNext(idsList: seq<seq<int>>, ghost chunkSize: nat, overlaps: seq<Option<int>>, b: nat,
                    chunk: Chunk, budget: nat, anyInput: bool)
      returns (chunk': Chunk, budget': nat, anyInput': bool)
    requires b < |idsList| == |overlaps| && chunkSize >= 1
    requires SelectedUpTo(idsList, overlaps, chunkSize, chunk, b, budget, anyInput)
    ensures SelectedUpTo(idsList, overlaps, chunkSize, chunk', b + 1, budget', anyInput')
  {
    var input, rest := SelectRowChunk(idsList[b], overlaps[b], budget);
    SelectedNext(idsList, overlaps, chunkSize, chunk, b, budget, anyInput, input, rest);
    chunk' := Chunk(chunk.prefill + [input], chunk.remaining + [rest]);
    budget' := budget - |input|;
    anyInput' := anyInput || idsList[b] != [];
  }

  ghost predicate SelectedUpTo(idsList: seq<seq<int>>, overlaps: seq<Option<int>>, chunkSize: int, chunk: Chunk, b: nat,
                               budget: int, anyInput: bool) {
    && Selected(idsList, overlaps, chunkSize, chunk, b)
    && budget == chunkSize - TotalLen(chunk.prefill, b) && anyInput == AnyInput(idsList, b)
    && (budget < chunkSize <==> if chunkSize > 1 then AnyInput(idsList, b) else AnyPlain(idsList, overlaps, b))
  }

  /** A row takes something from an untouched budget iff it has tokens, and, when the
      budget is one token, needs no overlap. */
  lemma SelectedNext(idsList: seq<seq<int>>, overlaps: seq<Option<int>>, chunkSize: int, chunk: Chunk, b: nat,
                     budget: nat, anyInput: bool, input: seq<int>, rest: seq<int>)
    requires b < |idsList| == |overlaps| && chunkSize >= 1
    requires SelectedUpTo(idsList, overlaps, chunkSize, chunk, b, budget, anyInput)
    requires RowSelected(idsList[b], overlaps[b], input, rest, budget) && |input| <= budget
    requires input != [] <==> idsList[b] != [] && budget > OverlapLen(overlaps[b])
    ensures SelectedUpTo(idsList, overlaps, chunkSize, Chunk(chunk.prefill + [input], chunk.remaining + [rest]), b + 1,
                         budget - |input|, anyInput || idsList[b] != [])
  {
    ExtendSelected(idsList, overlaps, chunkSize, chunk, b, input, rest);
  }

  method SelectRowChunk(ids: seq<int>, overlap: Option<int>, budget: nat) returns (input: seq<int>, rest: seq<int>)
    ensures RowSelected(ids, overlap, input, rest, budget) && |input| <= budget
    ensures input != [] <==> ids != [] && budget > OverlapLen(overlap)
  {
    var take := Min(|ids|, Max(0, budget - OverlapLen(overlap)));
    input, rest := ids[..take], ids[take..];
    if take > 0 && overlap.Some? {
      input := [overlap.value] + input;
    }
    assert |ids| - |rest| == take;
  }

  lemma {:induction false} PlainIsInput(idsList: seq<seq<int>>, overlaps: seq<Option<int>>, n: nat)
    requires n <= |idsList| && n <= |overlaps| && AnyPlain(idsList, overlaps, n)
    ensures AnyInput(idsList, n)
  {
    if AnyPlain(idsList, overlaps, n - 1) { PlainIsInput(idsList, overlaps, n - 1); }
  }

  lemma ExtendSelected(idsList: seq<seq<int>>, overlaps: seq<Option<int>>, chunkSize: int, chunk: Chunk, b: nat,
                       input: seq<int>, rest: seq<int>)
    requires b < |idsList| == |overlaps| && Selected(idsList, overlaps, chunkSize, chunk, b)
    requires RowSelected(idsList[b], overlaps[b], input, rest, chunkSize - TotalLen(chunk.prefill, b))
    ensures Selected(idsList, overlaps, chunkSize, Chunk(chunk.prefill + [input], chunk.remaining + [rest]), b + 1)
    ensures TotalLen(chunk.prefill + [input], b + 1) == TotalLen(chunk.prefill, b) + |input|
  {
    TotalOfPrefix(chunk.prefill, input, b);
    var chunk' := Chunk(chunk.prefill + [input], chunk.remaining + [rest]);
    forall j | 0 <= j < b + 1 ensures SelectedAt(idsList, overlaps, chunkSize, chunk', j) {
      TotalOfPrefix(chunk.prefill, input, j);
      if j < b { assert SelectedAt(idsList, overlaps, chunkSize, chunk, j); }
    }
  }

  // ---------------------------------------------------------------------
  // One chunk

  /** Row r after all of `ids` in one prefill. */
  function PrefilledRow(model: Model, r: Row, ids: seq<int>): Row {
    if ids == [] then r else Row(r.history + ids, r.allocLen + |ids|, Some(model(r.history + ids)))
  }

  ghost function PrefilledRows(model: Model, rows: seq<Row>, idsList: seq<seq<int>>): (r: seq<Row>)
    requires |idsList| == |rows|
    ensures |r| == |rows| && forall b :: 0 <= b < |rows| ==> r[b] == PrefilledRow(model, rows[b], idsList[b])
  {
    seq(|rows|, b requires 0 <= b < |rows| => PrefilledRow(model, rows[b], idsList[b]))
  }

  /** Prefilling in two parts is prefilling at once. */
  lemma PrefillTwice(model: Model, r: Row, ids: seq<int>, more: seq<int>)
    ensures PrefilledRow(model, PrefilledRow(model, r, ids), more) == PrefilledRow(model, r, ids + more)
  {
    if ids == [] {
      assert ids + more == more;
    } else if more == [] {
      assert ids + more == ids;
    } else {
      assert (r.history + ids) + more == r.history + (ids + more);
      assert ids + more != [];
    }
  }

  ghost predicate ReportedRowFor(r: Row, ids: seq<int>) {
    ids == [] || |r.history| == r.allocLen
  }

  /** The rows with tokens are fully reported. */
  ghost predicate Reported(rows: seq<Row>, idsList: seq<seq<int>>) {
    && |idsList| == |rows|
    && forall b {:trigger ReportedRowFor(rows[b], idsList[b])} :: 0 <= b < |rows| ==> ReportedRowFor(rows[b], idsList[b])
  }

  function OverlapOf(r: Row, ids: seq<int>): Option<int> {
    if ids == [] || r.history == [] then None else Some(r.history[|r.history| - 1])
  }

  ghost predicate HasOverlaps(rows: seq<Row>, idsList: seq<seq<int>>, overlaps: seq<Option<int>>) {
    && |overlaps| == |idsList| == |rows|
    && forall b {:trigger overlaps[b]} :: 0 <= b < |rows| ==> overlaps[b] == OverlapOf(rows[b], idsList[b])
  }

  /** The last committed token of every row with input, to be run again. */
  method Overlaps(cache: PageCache, seqs: seq<Sequence>, idsList: seq<seq<int>>) returns (overlaps: Option<seq<Option<int>>>)
    requires Batch(cache, seqs) && |idsList| == |seqs|
    ensures overlaps.Some? <==> Reported(BatchRows(cache, seqs), idsList)
    ensures overlaps.Some? ==> HasOverlaps(BatchRows(cache, seqs), idsList, overlaps.value)
  {
    ghost var rows := BatchRows(cache, seqs);
    var found: seq<Option<int>> := [];
    var b := 0;
    while b < |seqs|
      invariant 0 <= b == |found| <= |seqs| && OverlapsUpTo(rows, idsList, found)
    {
      var overlap := RowOverlap(cache, seqs, b, idsList[b]);
      if overlap.None? {
        NotReported(rows, idsList, b);
        return None;
      }
      OverlapsNext(rows, idsList, found, overlap.value);
      found := found + [overlap.value];
      b := b + 1;
    }
    OverlapsEnd(rows, idsList, found);
    overlaps := Some(found);
  }

  ghost predicate OverlapsUpTo(rows: seq<Row>, idsList: seq<seq<int>>, found: seq<Option<int>>) {
    && |found| <= |rows| == |idsList|
    && forall j {:trigger OverlapAt(rows, idsList, found, j)} :: 0 <= j < |found| ==> OverlapAt(rows, idsList, found, j)
  }

  ghost predicate OverlapAt(rows: seq<Row>, idsList: seq<seq<int>>, found: seq<Option<int>>, j: nat)
    requires j < |found| <= |rows| == |idsList|
  {
    ReportedRowFor(rows[j], idsList[j]) && found[j] == OverlapOf(rows[j], idsList[j])
  }

  lemma OverlapsNext(rows: seq<Row>, idsList: seq<seq<int>>, found: seq<Option<int>>, overlap: Option<int>)
    requires OverlapsUpTo(rows, idsList, found) && |found| < |rows|
    requires ReportedRowFor(rows[|found|], idsList[|found|]) && overlap == OverlapOf(rows[|found|], idsList[|found|])
    ensures OverlapsUpTo(rows, idsList, found + [overlap])
  {
    forall j {:trigger OverlapAt(rows, idsList, found + [overlap], j)} | 0 <= j < |found| + 1
      ensures OverlapAt(rows, idsList, found + [overlap], j)
    {
      if j < |found| { assert OverlapAt(rows, idsList, found, j); }
    }
  }

  lemma OverlapsEnd(rows: seq<Row>, idsList: seq<seq<int>>, found: seq<Option<int>>)
    requires OverlapsUpTo(rows, idsList, found) && |found| == |rows|
    ensures Reported(rows, idsList) && HasOverlaps(rows, idsList, found)
  {
    forall b | 0 <= b < |rows| ensures ReportedRowFor(rows[b], idsList[b]) && found[b] == OverlapOf(rows[b], idsList[b]) {
      assert OverlapAt(rows, idsList, found, b);
    }
  }

  lemma NotReported(rows: seq<Row>, idsList: seq<seq<int>>, b: nat)
    requires b < |rows| == |idsList| && !ReportedRowFor(rows[b], idsList[b])
    ensures !Reported(rows, idsList)
  {
  }

  method RowOverlap(cache: PageCache, seqs: seq<Sequence>, b: nat, ids: seq<int>) returns (overlap: Option<Option<int>>)
    requires Batch(cache, seqs) && b < |seqs|
    ensures var r := BatchRows(cache, seqs)[b];
            && (overlap.Some? <==> ReportedRowFor(r, ids))
            && (overlap.Some? ==> overlap.value == OverlapOf(r, ids))
  {
    if ids == [] { return Some(None); }
    RowFits(cache, seqs, b);
    var reported := seqs[b].ReportedTokenCount();
    if reported != seqs[b].allocLen { return None; }
    var tokenIds := seqs[b].GetTokenIds();
    overlap := Some(if tokenIds == [] then None else Some(tokenIds[|tokenIds| - 1]));
  }

  /** An overlap is only ever taken from a committed row with history. */
  ghost predicate SoundOverlaps(rows: seq<Row>, overlaps: seq<Option<int>>) {
    && |overlaps| == |rows|
    && forall b {:trigger overlaps[b]} :: 0 <= b < |rows| && overlaps[b].Some? ==>
         rows[b].history != [] && |rows[b].history| == rows[b].allocLen && overlaps[b].value == rows[b].history[|rows[b].history| - 1]
  }

  /** The rows once the selected ones with an overlap stepped back by one token. */
  ghost function SteppedBack(rows: seq<Row>, prefill: seq<seq<int>>, overlaps: seq<Option<int>>): (r: seq<Row>)
    requires SoundOverlaps(rows, overlaps) && |prefill| == |rows|
    ensures |r| == |rows|
    ensures forall b :: 0 <= b < |rows| ==>
              r[b] == if prefill[b] != [] && overlaps[b].Some? then RewoundRow(rows[b]) else rows[b]
  {
    seq(|rows|, b requires 0 <= b < |rows| =>
      if prefill[b] != [] && overlaps[b].Some? then RewoundRow(rows[b]) else rows[b])
  }

  /** The lengths the rows are cut to before a chunk. */
  function Backed(rows: seq<Row>, prefill: seq<seq<int>>, overlaps: seq<Option<int>>): (r: seq<nat>)
    requires |prefill| == |overlaps| == |rows|
    ensures |r| == |rows|
    ensures forall b {:trigger r[b]} :: 0 <= b < |r| ==>
              r[b] == if prefill[b] != [] && overlaps[b].Some? then Max(0, rows[b].allocLen - 1) else rows[b].allocLen
  {
    seq(|rows|, b requires 0 <= b < |rows| =>
      if prefill[b] != [] && overlaps[b].Some? then Max(0, rows[b].allocLen - 1) else rows[b].allocLen)
  }

  lemma SteppedIsCut(rows: seq<Row>, prefill: seq<seq<int>>, overlaps: seq<Option<int>>)
    requires SoundOverlaps(rows, overlaps) && |prefill| == |rows|
    ensures CutRows(rows, Backed(rows, prefill, overlaps)) == SteppedBack(rows, prefill, overlaps)
  {
    forall b | 0 <= b < |rows|
      ensures CutRow(rows[b], Backed(rows, prefill, overlaps)[b]) == SteppedBack(rows, prefill, overlaps)[b]
    {
      if overlaps[b].Some? { assert rows[b].history != [] && |rows[b].history| == rows[b].allocLen; }
    }
  }

  /** Only selected rows rewind; deferred rows keep their cache and history. Whether all
      rewinds find a page for their copy is told from the cache before. */
  method RewindSelected(cache: PageCache, seqs: seq<Sequence>, prefill: seq<seq<int>>, overlaps: seq<Option<int>>,
                        ghost rows: seq<Row>, ghost start: Pool<Sequence, Page>)
      returns (ok: bool, ghost at: nat)
    requires Batch(cache, seqs) && rows == BatchRows(cache, seqs) && start == cache.View()
    requires |prefill| == |seqs| && SoundOverlaps(rows, overlaps)
    modifies cache, cache.sequences, cache.pages
    ensures cache.sequences == old(cache.sequences) && fresh(cache.pages - old(cache.pages))
    ensures var cuts := Backed(rows, prefill, overlaps);
            && Listed(start, seqs, cuts) && (ok <==> CutsFit(start, seqs, cuts, |seqs|))
            && (ok ==> AllCut(cache, seqs, start, PagedRows(start, seqs), cuts))
            && (!ok ==> CutsStopped(cache, seqs, start, rows, cuts, at))
  {
    BarePaged(cache, seqs);
    CutsStart(cache, seqs, Backed(rows, prefill, overlaps));
    ghost var first := BatchPaged(cache, seqs);
    RewindLengths(first, prefill, overlaps);
    ok, at := RewindEach(cache, seqs, prefill, overlaps, start, first, Backed(rows, prefill, overlaps));
    if ok { CutsEnd(cache, seqs, start, first, Backed(rows, prefill, overlaps)); }
  }

  /** Rows with an overlap give up their last token, the others nothing. */
  ghost predicate CutsBack(first: seq<Paged>, prefill: seq<seq<int>>, overlaps: seq<Option<int>>, cuts: seq<nat>) {
    && |prefill| == |overlaps| == |cuts| == |first|
    && forall b {:trigger cuts[b]} :: 0 <= b < |first| ==>
         if prefill[b] != [] && overlaps[b].Some?
         then first[b].row.allocLen > 0 && cuts[b] == first[b].row.allocLen - 1
         else cuts[b] == first[b].row.allocLen
  }

  lemma RewindLengths(first: seq<Paged>, prefill: seq<seq<int>>, overlaps: seq<Option<int>>)
    requires SoundOverlaps(Bare(first), overlaps) && |prefill| == |first|
    ensures CutsBack(first, prefill, overlaps, Backed(Bare(first), prefill, overlaps))
  {
    var rows := Bare(first);
    forall b {:trigger Backed(rows, prefill, overlaps)[b]} | 0 <= b < |rows|
      ensures overlaps[b].Some? ==> rows[b].allocLen > 0 {
      if overlaps[b].Some? { assert rows[b].history != [] && |rows[b].history| == rows[b].allocLen; }
    }
  }

  method RewindEach(cache: PageCache, seqs: seq<Sequence>, prefill: seq<seq<int>>, overlaps: seq<Option<int>>,
                    ghost start: Pool<Sequence, Page>, ghost first: seq<Paged>, ghost cuts: seq<nat>)
      returns (ok: bool, ghost at: nat)
    requires CutSoFar(cache, seqs, start, first, cuts, 0) && CutsBack(first, prefill, overlaps, cuts)
    modifies cache, cache.sequences, cache.pages
    ensures cache.sequences == old(cache.sequences) && fresh(cache.pages - old(cache.pages))
    ensures ok ==> CutSoFar(cache, seqs, start, first, cuts, |seqs|)
    ensures !ok ==> CutsStopped(cache, seqs, start, Bare(first), cuts, at)
  {
    var b := 0;
    while b < |seqs|
      invariant 0 <= b <= |seqs|
      invariant cache.sequences == old(cache.sequences) && fresh(cache.pages - old(cache.pages))
      invariant CutSoFar(cache, seqs, start, first, cuts, b)
    {
      ok := RewindNext(cache, seqs, b, prefill, overlaps, start, first, cuts);
      if !ok { return false, b; }
      b := b + 1;
    }
    ok, at := true, b;
  }

  /** One row, rewound or passed over. */
  method RewindNext(cache: PageCache, seqs: seq<Sequence>, b: nat, prefill: seq<seq<int>>, overlaps: seq<Option<int>>,
                    ghost start: Pool<Sequence, Page>, ghost first: seq<Paged>, ghost cuts: seq<nat>)
      returns (ok: bool)
    requires CutSoFar(cache, seqs, start, first, cuts, b) && b < |seqs| && CutsBack(first, prefill, overlaps, cuts)
    modifies cache, cache.sequences, cache.pages
    ensures cache.sequences == old(cache.sequences) && fresh(cache.pages - old(cache.pages))
    ensures ok <==> FitsAt(start, seqs, cuts, b)
    ensures ok ==> CutSoFar(cache, seqs, start, first, cuts, b + 1)
    ensures !ok ==> CutsStopped(cache, seqs, start, Bare(first), cuts, b)
  {
    if prefill[b] != [] && overlaps[b].Some? {
      ok := RewindOne(cache, seqs, b, start, first, cuts);
    } else {
      SkipCut(cache, seqs, start, first, cuts, b);
      ok := true;
    }
  }

  method RewindOne(cache: PageCache, seqs: seq<Sequence>, b: nat, ghost start: Pool<Sequence, Page>, ghost first: seq<Paged>,
                   ghost cuts: seq<nat>)
      returns (ok: bool)
    requires CutSoFar(cache, seqs, start, first, cuts, b) && b < |seqs|
    requires first[b].row.allocLen > 0 && cuts[b] == first[b].row.allocLen - 1
    modifies cache, cache.sequences, cache.pages
    ensures cache.sequences == old(cache.sequences) && fresh(cache.pages - old(cache.pages))
    ensures ok <==> FitsAt(start, seqs, cuts, b)
    ensures ok ==> CutSoFar(cache, seqs, start, first, cuts, b + 1)
    ensures !ok ==> CutsStopped(cache, seqs, start, Bare(first), cuts, b)
  {
    BarePaged(cache, seqs);
    assert BatchPaged(cache, seqs)[b] == first[b];
    var reported, allocLen, target := ReadRow(cache, seqs, b);
    ok := TruncateNext(cache, seqs, b, allocLen - 1, start, first, cuts);
  }

  /** A row that keeps its length is passed over. */
  lemma SkipCut(cache: PageCache, seqs: seq<Sequence>, start: Pool<Sequence, Page>, first: seq<Paged>, cuts: seq<nat>, b: nat)
    requires CutSoFar(cache, seqs, start, first, cuts, b) && b < |seqs| && cuts[b] == first[b].row.allocLen
    ensures FitsAt(start, seqs, cuts, b) && CutSoFar(cache, seqs, start, first, cuts, b + 1)
  {
    MixSkip(first, CutAll(first, cuts, cache.pageSize), b);
    TurnIsTallied(start, cache.View(), seqs, cuts, b);
    assert BatchPaged(cache, seqs)[b] == first[b];
    CourseNext(start, cache.View(), cache.View(), seqs, cuts, b);
  }

  lemma MixSkip<T>(first: seq<T>, last: seq<T>, b: nat)
    requires |first| == |last| && b < |first| && first[b] == last[b]
    ensures Mix(first, last, b) == Mix(first, last, b + 1)
  {
  }

  function Lengths(lists: seq<seq<int>>): (r: seq<nat>)
    ensures |r| == |lists| && forall b :: 0 <= b < |lists| ==> r[b] == |lists[b]|
  {
    seq(|lists|, b requires 0 <= b < |lists| => |lists[b]|)
  }

  /** The model's choice after each row's last input, for rows with inputs. */
  ghost predicate Chosen(model: Model, rows: seq<Row>, prefill: seq<seq<int>>, targets: seq<Option<int>>) {
    && |targets| == |prefill| == |rows|
    && forall b {:trigger targets[b]} :: 0 <= b < |rows| && prefill[b] != [] ==> targets[b] == Some(model(rows[b].history + prefill[b]))
  }

  method SelectTargets(cache: PageCache, seqs: seq<Sequence>, model: Model, prefill: seq<seq<int>>)
      returns (targets: seq<Option<int>>)
    requires Batch(cache, seqs) && |prefill| == |seqs|
    ensures Chosen(model, BatchRows(cache, seqs), prefill, targets)
  {
    ghost var rows := BatchRows(cache, seqs);
    targets := [];
    var b := 0;
    while b < |seqs|
      invariant 0 <= b == |targets| <= |seqs|
      invariant forall j {:trigger targets[j]} :: 0 <= j < b && prefill[j] != [] ==> targets[j] == Some(model(rows[j].history + prefill[j]))
    {
      var target := None;
      if prefill[b] != [] {
        var selected := SelectRow(cache, seqs, b, model, prefill[b]);
        assert prefill[b][..|prefill[b]|] == prefill[b];
        target := Some(selected[|prefill[b]| - 1]);
      }
      targets := targets + [target];
      b := b + 1;
    }
  }

  /** The tokens of each row that went into the chunk. */
  ghost function Taken(idsList: seq<seq<int>>, remaining: seq<seq<int>>): (r: seq<seq<int>>)
    requires |remaining| == |idsList| && forall b :: 0 <= b < |idsList| ==> |remaining[b]| <= |idsList[b]|
    ensures |r| == |idsList| && forall b :: 0 <= b < |r| ==> r[b] == idsList[b][..|idsList[b]| - |remaining[b]|]
  {
    seq(|idsList|, b requires 0 <= b < |idsList| => idsList[b][..|idsList[b]| - |remaining[b]|])
  }

  lemma SelectedSplits(idsList: seq<seq<int>>, overlaps: seq<Option<int>>, chunkSize: int, chunk: Chunk)
    requires |overlaps| == |idsList| && Selected(idsList, overlaps, chunkSize, chunk, |idsList|)
    ensures forall b {:trigger chunk.remaining[b]} :: 0 <= b < |idsList| ==> |chunk.remaining[b]| <= |idsList[b]|
    ensures forall b {:trigger chunk.remaining[b]} {:trigger chunk.prefill[b]} :: 0 <= b < |idsList| ==>
              && idsList[b] == Taken(idsList, chunk.remaining)[b] + chunk.remaining[b]
              && chunk.prefill[b] == WithOverlap(overlaps[b], Taken(idsList, chunk.remaining)[b])
  {
    forall b | 0 <= b < |idsList| ensures |chunk.remaining[b]| <= |idsList[b]| {
      assert SelectedAt(idsList, overlaps, chunkSize, chunk, b);
    }
    forall b | 0 <= b < |idsList|
      ensures idsList[b] == Taken(idsList, chunk.remaining)[b] + chunk.remaining[b]
      ensures chunk.prefill[b] == WithOverlap(overlaps[b], Taken(idsList, chunk.remaining)[b])
    {
      assert SelectedAt(idsList, overlaps, chunkSize, chunk, b);
      var t := |idsList[b]| - |chunk.remaining[b]|;
      assert idsList[b] == idsList[b][..t] + idsList[b][t..];
    }
  }

  /** Stepping back, planning and reporting a row's inputs adds its taken tokens. */
  lemma RoundRow(model: Model, r: Row, overlap: Option<int>, taken: seq<int>)
    requires overlap.Some? ==> r.history != [] && |r.history| == r.allocLen && overlap.value == r.history[|r.history| - 1]
    requires taken != []
    ensures var prefill := WithOverlap(overlap, taken);
            var back := if overlap.Some? then RewoundRow(r) else r;
            && ReportedRow(back.(allocLen := back.allocLen + |prefill|), prefill, Some(model(back.history + prefill)))
               == PrefilledRow(model, r, taken)
  {
    if overlap.Some? {
      var h := r.history;
      assert h == h[..|h| - 1] + [h[|h| - 1]];
      assert h[..|h| - 1] + ([h[|h| - 1]] + taken) == h + taken;
    }
  }

  /** Every row runs what it takes behind its overlap. */
  ghost predicate BehindOverlaps(prefill: seq<seq<int>>, overlaps: seq<Option<int>>, taken: seq<seq<int>>) {
    && |prefill| == |overlaps| == |taken|
    && forall b {:trigger prefill[b]} :: 0 <= b < |prefill| ==> prefill[b] == WithOverlap(overlaps[b], taken[b])
  }

  lemma RoundRows(model: Model, rows: seq<Row>, overlaps: seq<Option<int>>, taken: seq<seq<int>>,
                  prefill: seq<seq<int>>, targets: seq<Option<int>>)
    requires SoundOverlaps(rows, overlaps) && |taken| == |prefill| == |rows|
    requires BehindOverlaps(prefill, overlaps, taken)
    requires Chosen(model, GrownRows(SteppedBack(rows, prefill, overlaps), Lengths(prefill)), prefill, targets)
    ensures ReportedRows(GrownRows(SteppedBack(rows, prefill, overlaps), Lengths(prefill)), prefill, targets)
         == PrefilledRows(model, rows, taken)
  {
    var planned := GrownRows(SteppedBack(rows, prefill, overlaps), Lengths(prefill));
    forall b | 0 <= b < |rows|
      ensures ReportedRows(planned, prefill, targets)[b] == PrefilledRow(model, rows[b], taken[b])
    {
      if taken[b] != [] {
        RoundRow(model, rows[b], overlaps[b], taken[b]);
        assert targets[b] == Some(model(planned[b].history + prefill[b]));
      }
    }
  }

  datatype PrefillStatus = Prefilled | Uncommitted | BadSize | TooSmall | CopyFailed | PlanFailed

  predicate Refused(status: PrefillStatus) { status == BadSize || status == TooSmall }

  /** Plan the chunk, run it, report its inputs. */
  method RunChunk(cache: PageCache, seqs: seq<Sequence>, model: Model, prefill: seq<seq<int>>, maxSeqLen: nat,
                  ghost rows: seq<Row>, ghost ps: seq<Paged>, ghost budget: nat)
      returns (ok: bool, ghost targets: seq<Option<int>>)
    requires HeldBy(cache, seqs, ps, budget) && |prefill| == |seqs| == |ps| && BatchRows(cache, seqs) == rows
    modifies cache, cache.sequences, cache.pages
    ensures SameBatch(cache, seqs) && KeepsPrivate(old(cache.View()), cache.View())
    ensures ok <==> Plannable(ps, Lengths(prefill), maxSeqLen, cache.pageSize, budget)
    ensures !ok ==> BatchRows(cache, seqs) == rows && HeldBy(cache, seqs, ps, budget)
    ensures ok ==> ChunkRun(cache, seqs, model, rows, prefill, targets, GrownAll(ps, Lengths(prefill), cache.pageSize), budget)
  {
    targets := [];
    AllFit(cache, seqs);
    ghost var start := cache.View();
    ok := Plan(cache, seqs, Lengths(prefill), maxSeqLen, ps, budget);
    if !ok { return; }
    ghost var planned := cache.View();
    targets := ReportChunk(cache, seqs, model, rows, prefill, GrownAll(ps, Lengths(prefill), cache.pageSize), budget);
    KeepsPrivateTransitive(start, planned, cache.View());
  }

  /** The rows after their inputs are planned, run and reported, on these pages. */
  ghost predicate ChunkRun(cache: PageCache, seqs: seq<Sequence>, model: Model, rows: seq<Row>, prefill: seq<seq<int>>,
                           targets: seq<Option<int>>, ps: seq<Paged>, budget: nat)
    reads cache, cache.sequences, cache.pages
  {
    && |prefill| == |rows| == |ps| && Chosen(model, GrownRows(rows, Lengths(prefill)), prefill, targets)
    && var rows' := ReportedRows(GrownRows(rows, Lengths(prefill)), prefill, targets);
       Batch(cache, seqs) && BatchRows(cache, seqs) == rows' && HeldBy(cache, seqs, WithRows(ps, rows'), budget)
  }

  method ReportChunk(cache: PageCache, seqs: seq<Sequence>, model: Model, ghost rows: seq<Row>, prefill: seq<seq<int>>,
                     ghost ps: seq<Paged>, ghost budget: nat)
      returns (ghost targets: seq<Option<int>>)
    requires HeldBy(cache, seqs, ps, budget) && |prefill| == |seqs| == |rows| == |ps|
    requires BatchRows(cache, seqs) == GrownRows(rows, Lengths(prefill))
    requires forall b {:trigger rows[b]} :: 0 <= b < |rows| ==> |rows[b].history| <= rows[b].allocLen
    modifies cache, cache.sequences, cache.pages
    ensures SameBatch(cache, seqs) && cache.pages == old(cache.pages) && KeepsPrivate(old(cache.View()), cache.View())
    ensures ChunkRun(cache, seqs, model, rows, prefill, targets, ps, budget)
  {
    var selected := SelectTargets(cache, seqs, model, prefill);
    TotalWith(ps, ReportedRows(GrownRows(rows, Lengths(prefill)), prefill, selected), |ps|);
    ReportAll(cache, seqs, prefill, selected);
    targets := selected;
  }

  lemma AllFit(cache: PageCache, seqs: seq<Sequence>)
    requires Batch(cache, seqs)
    ensures forall b {:trigger BatchRows(cache, seqs)[b]} :: 0 <= b < |seqs| ==>
              |BatchRows(cache, seqs)[b].history| <= BatchRows(cache, seqs)[b].allocLen
  {
    forall b | 0 <= b < |seqs| ensures |BatchRows(cache, seqs)[b].history| <= BatchRows(cache, seqs)[b].allocLen {
      RowFits(cache, seqs, b);
    }
  }

  /** What the selection of a chunk finds, before anything changes. */
  ghost predicate Planned(rows: seq<Row>, idsList: seq<seq<int>>, chunkSize: int, mtp: bool, overlaps: seq<Option<int>>) {
    && |overlaps| == |idsList| == |rows| && SoundOverlaps(rows, overlaps)
    && (if mtp then HasOverlaps(rows, idsList, overlaps) else overlaps == Repeat(None, |rows|))
  }

  /** The refusals: a chunk size out of range, or one token for rows that all need
      their overlap too. */
  ghost predicate RefusedFor(status: PrefillStatus, idsList: seq<seq<int>>, chunkSize: int, overlaps: seq<Option<int>>)
    requires |overlaps| == |idsList|
  {
    && (status == BadSize <==> !(1 <= chunkSize <= MAX_SAFE_INTEGER))
    && (status == TooSmall <==> chunkSize == 1 && AnyInput(idsList, |idsList|) && !AnyPlain(idsList, overlaps, |idsList|))
  }

  ghost predicate GoodChunk(idsList: seq<seq<int>>, overlaps: seq<Option<int>>, chunkSize: int, chunk: Chunk) {
    && |overlaps| == |idsList| && Selected(idsList, overlaps, chunkSize, chunk, |idsList|)
    && TotalLen(chunk.prefill, |idsList|) <= chunkSize
    && (TotalLen(chunk.prefill, |idsList|) > 0 <==> AnyInput(idsList, |idsList|))
    && Splits(idsList, chunk.remaining)
  }

  /** The outcome of the selection for these rows. */
  ghost predicate ChunkSelected(rows: seq<Row>, idsList: seq<seq<int>>, chunkSize: int, mtp: bool,
                                status: PrefillStatus, chunk: Chunk, overlaps: seq<Option<int>>) {
    && (status == Uncommitted <==> mtp && !Reported(rows, idsList))
    && (status != Uncommitted ==>
          Planned(rows, idsList, chunkSize, mtp, overlaps) && RefusedFor(status, idsList, chunkSize, overlaps))
    && (status != Uncommitted && !Refused(status) ==> GoodChunk(idsList, overlaps, chunkSize, chunk))
  }

  /** What a selected chunk leaves of the rows: the taken tokens prefilled, if no rewind runs
      out of pages and the pages for the inputs are there after the rewinds; the rewinds
      alone when only these are missing; and the rewinds before the first that runs out. */
  ghost predicate ChunkApplied(cache: PageCache, seqs: seq<Sequence>, model: Model, start: Pool<Sequence, Page>, rows: seq<Row>,
                               taken: seq<seq<int>>, prefill: seq<seq<int>>, overlaps: seq<Option<int>>, status: PrefillStatus,
                               at: nat, maxSeqLen: nat)
    requires SoundOverlaps(rows, overlaps) && |taken| == |prefill| == |rows|
    reads cache, cache.sequences, cache.pages
  {
    var cuts := Backed(rows, prefill, overlaps);
    && Listed(start, seqs, cuts) && cache.pageSize == start.pageSize
    && (status == Prefilled <==> CutPlannable(start, seqs, cuts, Lengths(prefill), maxSeqLen))
    && (status == CopyFailed <==> !CutsFit(start, seqs, cuts, |seqs|))
    && (status == Prefilled ==> ChunkHeld(cache, seqs, start, cuts, Lengths(prefill), PrefilledRows(model, rows, taken)))
    && (status == PlanFailed ==>
          && Batch(cache, seqs) && BatchRows(cache, seqs) == SteppedBack(rows, prefill, overlaps)
          && NoPlan(cache, seqs, Lengths(prefill), maxSeqLen))
    && (status == CopyFailed ==> CutsStopped(cache, seqs, start, rows, cuts, at))
  }

  /** These rows, on the pages the chunk left them; what is behind the cuts is theirs alone. */
  ghost predicate ChunkHeld(cache: PageCache, seqs: seq<Sequence>, start: Pool<Sequence, Page>, cuts: seq<nat>, lens: seq<nat>,
                            rows: seq<Row>)
    requires Listed(start, seqs, cuts)
    reads cache, cache.sequences, cache.pages
  {
    && |lens| == |rows| == |seqs| && CutStock(start, seqs, cuts) >= 0
    && Batch(cache, seqs) && BatchRows(cache, seqs) == rows
    && HeldBy(cache, seqs, WithRows(GrownAll(CutAll(PagedRows(start, seqs), cuts, cache.pageSize), lens, cache.pageSize), rows),
              CutStock(start, seqs, cuts))
    && KeepsPrivate(start, cache.View()) && PrivateCuts(start, cache.View(), seqs, cuts, |seqs|)
  }

  method SelectChunk(cache: PageCache, seqs: seq<Sequence>, idsList: seq<seq<int>>, chunkSize: int, mtp: bool)
      returns (status: PrefillStatus, chunk: Chunk, overlaps: seq<Option<int>>)
    requires Batch(cache, seqs) && |idsList| == |seqs|
    ensures ChunkSelected(BatchRows(cache, seqs), idsList, chunkSize, mtp, status, chunk, overlaps)
    ensures status in {Prefilled, Uncommitted, BadSize, TooSmall}
  {
    ghost var rows := BatchRows(cache, seqs);
    var found := ChunkOverlaps(cache, seqs, idsList, mtp);
    if found.None? { return Uncommitted, Chunk([], []), []; }
    overlaps := found.value;
    status, chunk := SelectBehind(rows, idsList, chunkSize, mtp, overlaps);
  }

  method SelectBehind(ghost rows: seq<Row>, idsList: seq<seq<int>>, chunkSize: int, ghost mtp: bool, overlaps: seq<Option<int>>)
      returns (status: PrefillStatus, chunk: Chunk)
    requires Planned(rows, idsList, chunkSize, mtp, overlaps) && (mtp ==> Reported(rows, idsList))
    ensures ChunkSelected(rows, idsList, chunkSize, mtp, status, chunk, overlaps)
    ensures status in {Prefilled, BadSize, TooSmall}
  {
    chunk := Chunk([], []);
    var selection := SelectPrefillChunk(idsList, chunkSize, overlaps);
    match selection {
      case Err(BadChunkSize) => status := BadSize;
      case Err(ChunkTooSmall) => status := TooSmall;
      case Ok(c) =>
        status, chunk := Prefilled, c;
        SelectedSplits(idsList, overlaps, chunkSize, chunk);
    }
  }

  /** A chunk as the rows see it: what they take, run and leave. */
  ghost predicate RowChunk(r: Row, ids: seq<int>, overlap: Option<int>, taken: seq<int>, prefill: seq<int>, remaining: seq<int>, mtp: bool) {
    && ids == taken + remaining && prefill == WithOverlap(overlap, taken)
    && (if mtp then ReportedRowFor(r, ids) && overlap == OverlapOf(r, ids) else overlap == None)
  }

  ghost predicate RowChunks(rows: seq<Row>, idsList: seq<seq<int>>, overlaps: seq<Option<int>>, taken: seq<seq<int>>,
                            prefill: seq<seq<int>>, remaining: seq<seq<int>>, mtp: bool) {
    && |idsList| == |overlaps| == |taken| == |prefill| == |remaining| == |rows|
    && forall b {:trigger rows[b]} :: 0 <= b < |rows| ==>
         RowChunk(rows[b], idsList[b], overlaps[b], taken[b], prefill[b], remaining[b], mtp)
  }

  lemma GoodRowChunks(rows: seq<Row>, idsList: seq<seq<int>>, overlaps: seq<Option<int>>, chunkSize: int, chunk: Chunk, mtp: bool)
    requires Planned(rows, idsList, chunkSize, mtp, overlaps) && GoodChunk(idsList, overlaps, chunkSize, chunk)
    requires mtp ==> Reported(rows, idsList)
    ensures RowChunks(rows, idsList, overlaps, Taken(idsList, chunk.remaining), chunk.prefill, chunk.remaining, mtp)
    ensures BehindOverlaps(chunk.prefill, overlaps, Taken(idsList, chunk.remaining))
  {
    SelectedSplits(idsList, overlaps, chunkSize, chunk);
    forall b | 0 <= b < |rows|
      ensures RowChunk(rows[b], idsList[b], overlaps[b], Taken(idsList, chunk.remaining)[b], chunk.prefill[b], chunk.remaining[b], mtp)
    {
      assert mtp ==> ReportedRowFor(rows[b], idsList[b]);
      assert chunk.remaining[b] == chunk.remaining[b];
    }
  }

  /** One chunk: select under the budget, step selected rows back onto their overlap,
      run and report. Nothing changes when the selection refuses. When the plan
      fails the rewinds stay: the rows' streams are then their histories of before.
      Which of these happens is decided by the state before. */
  method PrefillChunk(cache: PageCache, seqs: seq<Sequence>, model: Model, idsList: seq<seq<int>>, chunkSize: int,
                      mtp: bool, maxSeqLen: nat, ghost rows: seq<Row>, ghost start: Pool<Sequence, Page>)
      returns (status: PrefillStatus, chunk: Chunk, ghost overlaps: seq<Option<int>>, ghost taken: seq<seq<int>>, ghost at: nat)
    requires Batch(cache, seqs) && |idsList| == |seqs| && rows == BatchRows(cache, seqs) && start == cache.View()
    modifies cache, cache.sequences, cache.pages
    ensures cache.sequences == old(cache.sequences) && fresh(cache.pages - old(cache.pages))
    ensures ChunkSelected(rows, idsList, chunkSize, mtp, status, chunk, overlaps)
    ensures if status == Uncommitted || Refused(status) then Batch(cache, seqs) && BatchRows(cache, seqs) == rows
            else && RowChunks(rows, idsList, overlaps, taken, chunk.prefill, chunk.remaining, mtp) && SoundOverlaps(rows, overlaps)
                 && ChunkApplied(cache, seqs, model, start, rows, taken, chunk.prefill, overlaps, status, at, maxSeqLen)
  {
    at, taken := 0, [];
    var found;
    status, chunk, found := SelectChunk(cache, seqs, idsList, chunkSize, mtp);
    overlaps := found;
    if status == Prefilled {
      GoodRowChunks(rows, idsList, found, chunkSize, chunk, mtp);
      taken := Taken(idsList, chunk.remaining);
      status, at := ApplyChunk(cache, seqs, model, taken, chunk.prefill, found, maxSeqLen, rows, start);
    }
  }

  ghost predicate Splits(idsList: seq<seq<int>>, remaining: seq<seq<int>>) {
    && |remaining| == |idsList|
    && forall b {:trigger remaining[b]} :: 0 <= b < |idsList| ==> |remaining[b]| <= |idsList[b]|
  }

  method ChunkOverlaps(cache: PageCache, seqs: seq<Sequence>, idsList: seq<seq<int>>, mtp: bool)
      returns (overlaps: Option<seq<Option<int>>>)
    requires Batch(cache, seqs) && |idsList| == |seqs|
    ensures overlaps.None? <==> mtp && !Reported(BatchRows(cache, seqs), idsList)
    ensures overlaps.Some? ==> SoundOverlaps(BatchRows(cache, seqs), overlaps.value)
    ensures overlaps.Some? && mtp ==> HasOverlaps(BatchRows(cache, seqs), idsList, overlaps.value)
    ensures overlaps.Some? && !mtp ==> overlaps.value == Repeat(None, |seqs|)
  {
    if mtp {
      overlaps := Overlaps(cache, seqs, idsList);
      if overlaps.Some? { OverlapsAreSound(BatchRows(cache, seqs), idsList, overlaps.value); }
    } else {
      overlaps := Some(Repeat(None, |seqs|));
    }
  }

  lemma OverlapsAreSound(rows: seq<Row>, idsList: seq<seq<int>>, overlaps: seq<Option<int>>)
    requires Reported(rows, idsList) && HasOverlaps(rows, idsList, overlaps)
    ensures SoundOverlaps(rows, overlaps)
  {
    assert forall b :: 0 <= b < |rows| ==> ReportedRowFor(rows[b], idsList[b]);
  }

  method ApplyChunk(cache: PageCache, seqs: seq<Sequence>, model: Model, ghost taken: seq<seq<int>>, prefill: seq<seq<int>>,
                    overlaps: seq<Option<int>>, maxSeqLen: nat, ghost rows: seq<Row>, ghost start: Pool<Sequence, Page>)
      returns (status: PrefillStatus, ghost at: nat)
    requires Batch(cache, seqs) && rows == BatchRows(cache, seqs) && start == cache.View()
    requires |taken| == |prefill| == |seqs| && SoundOverlaps(rows, overlaps)
    requires BehindOverlaps(prefill, overlaps, taken)
    modifies cache, cache.sequences, cache.pages
    ensures cache.sequences == old(cache.sequences) && fresh(cache.pages - old(cache.pages))
    ensures status in {Prefilled, PlanFailed, CopyFailed}
    ensures ChunkApplied(cache, seqs, model, start, rows, taken, prefill, overlaps, status, at, maxSeqLen)
  {
    BarePaged(cache, seqs);
    var ok;
    ok, at := RewindSelected(cache, seqs, prefill, overlaps, rows, start);
    if !ok { return CopyFailed, at; }
    status := RunRewound(cache, seqs, model, taken, prefill, overlaps, maxSeqLen, rows, start);
  }

  /** Run a chunk on the rows that have stepped back. */
  method RunRewound(cache: PageCache, seqs: seq<Sequence>, model: Model, ghost taken: seq<seq<int>>, prefill: seq<seq<int>>,
                    ghost overlaps: seq<Option<int>>, maxSeqLen: nat, ghost rows: seq<Row>, ghost start: Pool<Sequence, Page>)
      returns (status: PrefillStatus)
    requires |taken| == |prefill| == |seqs| == |rows| && SoundOverlaps(rows, overlaps)
    requires Listed(start, seqs, Backed(rows, prefill, overlaps)) && Bare(PagedRows(start, seqs)) == rows
    requires AllCut(cache, seqs, start, PagedRows(start, seqs), Backed(rows, prefill, overlaps)) && cache.pageSize == start.pageSize
    requires BehindOverlaps(prefill, overlaps, taken)
    modifies cache, cache.sequences, cache.pages
    ensures SameBatch(cache, seqs) && status in {Prefilled, PlanFailed}
    ensures var cuts := Backed(rows, prefill, overlaps);
            && (status == Prefilled <==> CutPlannable(start, seqs, cuts, Lengths(prefill), maxSeqLen))
            && (status == Prefilled ==> ChunkHeld(cache, seqs, start, cuts, Lengths(prefill), PrefilledRows(model, rows, taken)))
    ensures status == PlanFailed ==>
              BatchRows(cache, seqs) == SteppedBack(rows, prefill, overlaps) && NoPlan(cache, seqs, Lengths(prefill), maxSeqLen)
  {
    ghost var cuts, mid, ps := Backed(rows, prefill, overlaps), cache.View(), BatchPaged(cache, seqs);
    CutHolds(cache, seqs, start, PagedRows(start, seqs), cuts);
    SteppedIsCut(rows, prefill, overlaps);
    var ok := RunStepped(cache, seqs, model, rows, taken, prefill, overlaps, maxSeqLen, ps, CutStock(start, seqs, cuts));
    status := if ok then Prefilled else PlanFailed;
    KeepsPrivateTransitive(start, mid, cache.View());
    CutsStayPrivate(start, mid, cache.View(), seqs, cuts);
  }

  lemma CutsStayPrivate<S, P>(start: Pool<S, P>, mid: Pool<S, P>, now: Pool<S, P>, seqs: seq<S>, cuts: seq<nat>)
    requires Listed(start, seqs, cuts) && PrivateCuts(start, mid, seqs, cuts, |seqs|) && KeepsPrivate(mid, now)
    ensures PrivateCuts(start, now, seqs, cuts, |seqs|)
  {
    forall b | 0 <= b < |seqs| && cuts[b] < start.sequences[seqs[b]].allocLen
      ensures seqs[b] in now.sequences && PrivateFrom(now, seqs[b], PageOf(cuts[b], start.pageSize))
    {
      assert PrivateFrom(mid, seqs[b], PageOf(cuts[b], start.pageSize));
    }
  }

  /** The taken tokens are prefilled, or the plan cannot be made. */
  method RunStepped(cache: PageCache, seqs: seq<Sequence>, model: Model, ghost rows: seq<Row>, ghost taken: seq<seq<int>>,
                    prefill: seq<seq<int>>, ghost overlaps: seq<Option<int>>, maxSeqLen: nat, ghost ps: seq<Paged>, ghost budget: nat)
      returns (ok: bool)
    requires HeldBy(cache, seqs, ps, budget) && |taken| == |prefill| == |seqs| == |rows| == |ps| && SoundOverlaps(rows, overlaps)
    requires BatchRows(cache, seqs) == SteppedBack(rows, prefill, overlaps)
    requires BehindOverlaps(prefill, overlaps, taken)
    modifies cache, cache.sequences, cache.pages
    ensures SameBatch(cache, seqs) && KeepsPrivate(old(cache.View()), cache.View())
    ensures ok <==> Plannable(ps, Lengths(prefill), maxSeqLen, cache.pageSize, budget)
    ensures ok ==>
              && BatchRows(cache, seqs) == PrefilledRows(model, rows, taken)
              && HeldBy(cache, seqs, WithRows(GrownAll(ps, Lengths(prefill), cache.pageSize), PrefilledRows(model, rows, taken)), budget)
    ensures !ok ==>
              BatchRows(cache, seqs) == SteppedBack(rows, prefill, overlaps) && NoPlan(cache, seqs, Lengths(prefill), maxSeqLen)
  {
    ghost var targets;
    ok, targets := RunChunk(cache, seqs, model, prefill, maxSeqLen, SteppedBack(rows, prefill, overlaps), ps, budget);
    if ok { RoundRows(model, rows, overlaps, taken, prefill, targets); }
  }

  // ---------------------------------------------------------------------
  // Pages for all chunks

  /** The lengths at which the rows will be cut when their next tokens are run. */
  ghost function LastCuts(rows: seq<Row>, idsList: seq<seq<int>>, mtp: bool): (r: seq<nat>)
    requires |idsList| == |rows|
    ensures |r| == |rows| && forall b {:trigger r[b]} :: 0 <= b < |r| ==> r[b] == LastCut(rows[b], idsList[b], mtp)
  {
    seq(|rows|, b requires 0 <= b < |rows| => LastCut(rows[b], idsList[b], mtp))
  }

  /** These are the rows of the sequences. */
  ghost predicate RowsOf(pool: Pool<Sequence, Page>, seqs: seq<Sequence>, rows: seq<Row>) {
    (forall b {:trigger seqs[b]} :: 0 <= b < |seqs| ==> seqs[b] in pool.sequences) && rows == Rows(pool, seqs)
  }

  /** The free pages cover what the rows want for all their tokens, and one page for each
      that the rewinds give up while other sequences hold it. */
  ghost predicate Provided(pool: Pool<Sequence, Page>, seqs: seq<Sequence>, rows: seq<Row>, idsList: seq<seq<int>>, mtp: bool) {
    && |idsList| == |rows| == |seqs| && Listed(pool, seqs, LastCuts(rows, idsList, mtp)) && (mtp ==> Reported(rows, idsList))
    && TotalPages(GrownAll(PagedRows(pool, seqs), Lengths(idsList), pool.pageSize), |seqs|)
       + SumTo(Dues(pool, seqs, LastCuts(rows, idsList, mtp)), |seqs|)
       <= |pool.available| + TotalPages(PagedRows(pool, seqs), |seqs|)
  }

  /** The cut of a row in a chunk. */
  function BackedRow(r: Row, prefill: seq<int>, overlap: Option<int>): nat {
    if prefill != [] && overlap.Some? then Max(0, r.allocLen - 1) else r.allocLen
  }

  lemma RowChunkTurn(r: Row, ids: seq<int>, overlap: Option<int>, taken: seq<int>, prefill: seq<int>, remaining: seq<int>, mtp: bool)
    requires RowChunk(r, ids, overlap, taken, prefill, remaining, mtp)
    ensures RowTurn(r.allocLen, |ids|, |taken|, |prefill|, BackedRow(r, prefill, overlap))
    ensures BackedRow(r, prefill, overlap) == r.allocLen || BackedRow(r, prefill, overlap) == LastCut(r, ids, mtp)
  {
  }

  lemma ChunkTurn(ps: seq<Paged>, rows: seq<Row>, idsList: seq<seq<int>>, overlaps: seq<Option<int>>, taken: seq<seq<int>>,
                  prefill: seq<seq<int>>, remaining: seq<seq<int>>, mtp: bool)
    requires RowChunks(rows, idsList, overlaps, taken, prefill, remaining, mtp) && rows == Bare(ps)
    ensures Turn(ps, Lengths(idsList), Lengths(taken), Lengths(prefill), Backed(rows, prefill, overlaps))
  {
    var cuts := Backed(rows, prefill, overlaps);
    forall b | 0 <= b < |ps| ensures RowTurn(ps[b].row.allocLen, |idsList[b]|, |taken[b]|, |prefill[b]|, cuts[b]) {
      assert RowChunk(rows[b], idsList[b], overlaps[b], taken[b], prefill[b], remaining[b], mtp);
      RowChunkTurn(rows[b], idsList[b], overlaps[b], taken[b], prefill[b], remaining[b], mtp);
    }
  }

  lemma {:induction false} SumIsTotal(lists: seq<seq<int>>)
    ensures Sum(Lengths(lists)) == TotalLen(lists, |lists|)
  {
    SumFromEnd(Lengths(lists), |lists|);
    SumToIsTotal(lists, |lists|);
    assert Lengths(lists)[|lists|..] == [];
  }

  lemma {:induction false} SumToIsTotal(lists: seq<seq<int>>, n: nat)
    requires n <= |lists|
    ensures SumTo(Lengths(lists), n) == TotalLen(lists, n)
  {
    if n > 0 { SumToIsTotal(lists, n - 1); }
  }

  /** The cuts of a chunk owe no more than those foreseen. */
  lemma BackedOwes(pool: Pool<Sequence, Page>, seqs: seq<Sequence>, rows: seq<Row>, idsList: seq<seq<int>>,
                   overlaps: seq<Option<int>>, taken: seq<seq<int>>, prefill: seq<seq<int>>, remaining: seq<seq<int>>, mtp: bool)
    requires RowChunks(rows, idsList, overlaps, taken, prefill, remaining, mtp) && |rows| == |seqs|
    requires Listed(pool, seqs, LastCuts(rows, idsList, mtp)) && RowsOf(pool, seqs, rows)
    ensures Listed(pool, seqs, Backed(rows, prefill, overlaps))
    ensures SumTo(Dues(pool, seqs, Backed(rows, prefill, overlaps)), |seqs|) <= SumTo(Dues(pool, seqs, LastCuts(rows, idsList, mtp)), |seqs|)
  {
    var cuts, last := Backed(rows, prefill, overlaps), LastCuts(rows, idsList, mtp);
    forall b | 0 <= b < |seqs| ensures SameOrUncut(rows[b].allocLen, cuts[b], last[b]) {
      assert RowChunk(rows[b], idsList[b], overlaps[b], taken[b], prefill[b], remaining[b], mtp);
      RowChunkTurn(rows[b], idsList[b], overlaps[b], taken[b], prefill[b], remaining[b], mtp);
    }
    FewerCutsOwe(pool, seqs, rows, cuts, last);
  }

  /** With provided pages every chunk that is selected can be run. */
  lemma ProvidedPlans(pool: Pool<Sequence, Page>, seqs: seq<Sequence>, rows: seq<Row>, idsList: seq<seq<int>>, mtp: bool,
                      overlaps: seq<Option<int>>, taken: seq<seq<int>>, prefill: seq<seq<int>>, remaining: seq<seq<int>>, maxSeqLen: nat)
    requires Valid(pool) && Provided(pool, seqs, rows, idsList, mtp) && RowsOf(pool, seqs, rows)
    requires RowChunks(rows, idsList, overlaps, taken, prefill, remaining, mtp) && TotalLen(prefill, |prefill|) <= maxSeqLen
    ensures CutPlannable(pool, seqs, Backed(rows, prefill, overlaps), Lengths(prefill), maxSeqLen)
  {
    var ps, cuts, size := PagedRows(pool, seqs), Backed(rows, prefill, overlaps), pool.pageSize;
    assert rows == Bare(ps);
    BackedOwes(pool, seqs, rows, idsList, overlaps, taken, prefill, remaining, mtp);
    TotalAtMost(ps, Lengths(idsList), size);
    DuesCovered(pool, seqs, cuts);
    CutsBudget(pool, seqs, cuts);
    ChunkTurn(ps, rows, idsList, overlaps, taken, prefill, remaining, mtp);
    ChunkPages(ps, GrownAll(CutAll(ps, cuts, size), Lengths(prefill), size), Lengths(idsList), Lengths(taken), Lengths(prefill), cuts, size);
    SumIsTotal(prefill);
  }

  lemma CutOwes(pool: Pool<Sequence, Page>, s: Sequence, r: Row, ids: seq<int>, overlap: Option<int>, taken: seq<int>,
                prefill: seq<int>, remaining: seq<int>, mtp: bool)
    requires s in pool.sequences && r.allocLen == pool.sequences[s].allocLen
    requires RowChunk(r, ids, overlap, taken, prefill, remaining, mtp)
    ensures Due(pool, s, BackedRow(r, prefill, overlap)) <= Due(pool, s, LastCut(r, ids, mtp))
    ensures taken == [] ==> Due(pool, s, BackedRow(r, prefill, overlap)) == 0
  {
    UncutOwesNothing(pool, s);
    RowChunkTurn(r, ids, overlap, taken, prefill, remaining, mtp);
  }

  /** A deferred row owes no more than before, a row that took something nothing. */
  lemma NextOwes(pool: Pool<Sequence, Page>, now: Pool<Sequence, Page>, model: Model, s: Sequence, r: Row, r': Row, ids: seq<int>,
                 overlap: Option<int>, taken: seq<int>, prefill: seq<int>, remaining: seq<int>, mtp: bool)
    requires Valid(pool) && Valid(now) && s in pool.sequences && s in now.sequences && r == RowOf(pool, s) && r' == RowOf(now, s)
    requires KeepsPrivate(pool, now) && now.pageSize == pool.pageSize
    requires RowChunk(r, ids, overlap, taken, prefill, remaining, mtp) && r' == PrefilledRow(model, r, taken)
    requires BackedRow(r, prefill, overlap) < r.allocLen ==> PrivateFrom(now, s, PageOf(BackedRow(r, prefill, overlap), pool.pageSize))
    ensures taken == [] ==> Due(now, s, LastCut(r', remaining, mtp)) <= Due(pool, s, LastCut(r, ids, mtp))
    ensures taken != [] ==> Due(now, s, LastCut(r', remaining, mtp)) == 0
  {
    var next := LastCut(r', remaining, mtp);
    if next == r'.allocLen {
      UncutOwesNothing(now, s);
    } else if taken == [] {
      assert ids == remaining;
      DeferredOwes(pool, now, s, next);
    } else if r.history == [] {
      EmptyOwesNothing(pool, now, s, next);
    } else {
      TookWithOverlap(r, ids, overlap, taken, prefill, remaining);
      PrivateBehind(now, s, BackedRow(r, prefill, overlap), next);
    }
  }

  lemma TookWithOverlap(r: Row, ids: seq<int>, overlap: Option<int>, taken: seq<int>, prefill: seq<int>, remaining: seq<int>)
    requires RowChunk(r, ids, overlap, taken, prefill, remaining, true) && taken != [] && r.history != []
    ensures r.allocLen == |r.history| && BackedRow(r, prefill, overlap) == r.allocLen - 1
  {
    assert ids != [];
  }

  /** The cache after a chunk: the pages and free pages foreseen, and nobody's page shared anew. */
  ghost predicate Followed(pool: Pool<Sequence, Page>, now: Pool<Sequence, Page>, seqs: seq<Sequence>, cuts: seq<nat>, lens: seq<nat>,
                           rows: seq<Row>) {
    && Valid(now) && now.pageSize == pool.pageSize && Listed(pool, seqs, cuts) && Listed(now, seqs, cuts)
    && |lens| == |rows| == |seqs| && rows == Rows(now, seqs)
    && PagedRows(now, seqs) == WithRows(GrownAll(CutAll(PagedRows(pool, seqs), cuts, pool.pageSize), lens, pool.pageSize), rows)
    && |now.available| + TotalPages(PagedRows(now, seqs), |seqs|) == CutStock(pool, seqs, cuts)
    && KeepsPrivate(pool, now) && PrivateCuts(pool, now, seqs, cuts, |seqs|)
  }

  lemma HeldFollowed(cache: PageCache, seqs: seq<Sequence>, start: Pool<Sequence, Page>, cuts: seq<nat>, lens: seq<nat>, rows: seq<Row>)
    requires Listed(start, seqs, cuts) && cache.pageSize == start.pageSize && ChunkHeld(cache, seqs, start, cuts, lens, rows)
    ensures Followed(start, cache.View(), seqs, cuts, lens, rows)
  {
  }

  lemma NextDues(pool: Pool<Sequence, Page>, now: Pool<Sequence, Page>, seqs: seq<Sequence>, model: Model, rows: seq<Row>,
                 idsList: seq<seq<int>>, mtp: bool, overlaps: seq<Option<int>>, taken: seq<seq<int>>, prefill: seq<seq<int>>,
                 remaining: seq<seq<int>>)
    requires Valid(pool) && RowsOf(pool, seqs, rows) && |idsList| == |rows| && Listed(pool, seqs, LastCuts(rows, idsList, mtp))
    requires RowChunks(rows, idsList, overlaps, taken, prefill, remaining, mtp)
    requires Followed(pool, now, seqs, Backed(rows, prefill, overlaps), Lengths(prefill), PrefilledRows(model, rows, taken))
    ensures var rows', cuts := PrefilledRows(model, rows, taken), Backed(rows, prefill, overlaps);
            && Listed(now, seqs, LastCuts(rows', remaining, mtp))
            && SumTo(Dues(now, seqs, LastCuts(rows', remaining, mtp)), |seqs|) + SumTo(Dues(pool, seqs, cuts), |seqs|)
               <= SumTo(Dues(pool, seqs, LastCuts(rows, idsList, mtp)), |seqs|)
  {
    var rows', cuts := PrefilledRows(model, rows, taken), Backed(rows, prefill, overlaps);
    var next, spent, owed := Dues(now, seqs, LastCuts(rows', remaining, mtp)), Dues(pool, seqs, cuts), Dues(pool, seqs, LastCuts(rows, idsList, mtp));
    forall b | 0 <= b < |seqs| ensures next[b] + spent[b] <= owed[b] {
      RowDues(pool, now, seqs, model, rows, idsList, mtp, overlaps, taken, prefill, remaining, b);
    }
    SumsBelow(next, spent, owed, |seqs|);
  }

  lemma RowDues(pool: Pool<Sequence, Page>, now: Pool<Sequence, Page>, seqs: seq<Sequence>, model: Model, rows: seq<Row>,
                idsList: seq<seq<int>>, mtp: bool, overlaps: seq<Option<int>>, taken: seq<seq<int>>, prefill: seq<seq<int>>,
                remaining: seq<seq<int>>, b: nat)
    requires Valid(pool) && RowsOf(pool, seqs, rows) && |idsList| == |rows| && Listed(pool, seqs, LastCuts(rows, idsList, mtp)) && b < |seqs|
    requires RowChunks(rows, idsList, overlaps, taken, prefill, remaining, mtp)
    requires Followed(pool, now, seqs, Backed(rows, prefill, overlaps), Lengths(prefill), PrefilledRows(model, rows, taken))
    ensures var r, r', s := rows[b], PrefilledRow(model, rows[b], taken[b]), seqs[b];
            && s in pool.sequences && s in now.sequences
            && Due(now, s, LastCut(r', remaining[b], mtp)) + Due(pool, s, Backed(rows, prefill, overlaps)[b])
               <= Due(pool, s, LastCut(r, idsList[b], mtp))
  {
    var r, s, cut := rows[b], seqs[b], Backed(rows, prefill, overlaps)[b];
    assert RowChunk(r, idsList[b], overlaps[b], taken[b], prefill[b], remaining[b], mtp);
    assert cut == BackedRow(r, prefill[b], overlaps[b]);
    CutOwes(pool, s, r, idsList[b], overlaps[b], taken[b], prefill[b], remaining[b], mtp);
    NextOwes(pool, now, model, s, r, PrefilledRow(model, r, taken[b]), idsList[b], overlaps[b], taken[b], prefill[b], remaining[b], mtp);
  }

  /** What is provided for all tokens stays provided for those that remain. */
  lemma ProvidedStays(pool: Pool<Sequence, Page>, now: Pool<Sequence, Page>, seqs: seq<Sequence>, model: Model, rows: seq<Row>,
                      idsList: seq<seq<int>>, mtp: bool, overlaps: seq<Option<int>>, taken: seq<seq<int>>, prefill: seq<seq<int>>,
                      remaining: seq<seq<int>>)
    requires Valid(pool) && RowsOf(pool, seqs, rows) && Provided(pool, seqs, rows, idsList, mtp)
    requires RowChunks(rows, idsList, overlaps, taken, prefill, remaining, mtp)
    requires Followed(pool, now, seqs, Backed(rows, prefill, overlaps), Lengths(prefill), PrefilledRows(model, rows, taken))
    ensures Provided(now, seqs, PrefilledRows(model, rows, taken), remaining, mtp)
  {
    var ps, cuts, size, rows' := PagedRows(pool, seqs), Backed(rows, prefill, overlaps), pool.pageSize, PrefilledRows(model, rows, taken);
    assert rows == Bare(ps);
    NextDues(pool, now, seqs, model, rows, idsList, mtp, overlaps, taken, prefill, remaining);
    CutsBudget(pool, seqs, cuts);
    ChunkTurn(ps, rows, idsList, overlaps, taken, prefill, remaining, mtp);
    ChunkLengths(model, rows, idsList, mtp, overlaps, taken, prefill, remaining);
    RemainingPages(ps, GrownAll(CutAll(ps, cuts, size), Lengths(prefill), size), rows', Lengths(idsList), Lengths(taken),
                   Lengths(remaining), Lengths(prefill), cuts, size);
  }

  lemma ChunkLengths(model: Model, rows: seq<Row>, idsList: seq<seq<int>>, mtp: bool, overlaps: seq<Option<int>>,
                     taken: seq<seq<int>>, prefill: seq<seq<int>>, remaining: seq<seq<int>>)
    requires RowChunks(rows, idsList, overlaps, taken, prefill, remaining, mtp)
    ensures forall b {:trigger Lengths(remaining)[b]} :: 0 <= b < |rows| ==>
              && Lengths(remaining)[b] + Lengths(taken)[b] == Lengths(idsList)[b]
              && PrefilledRows(model, rows, taken)[b].allocLen == rows[b].allocLen + Lengths(taken)[b]
    ensures mtp ==> Reported(PrefilledRows(model, rows, taken), remaining)
  {
    forall b | 0 <= b < |rows|
      ensures |remaining[b]| + |taken[b]| == |idsList[b]|
      ensures mtp ==> ReportedRowFor(PrefilledRow(model, rows[b], taken[b]), remaining[b])
    {
      assert RowChunk(rows[b], idsList[b], overlaps[b], taken[b], prefill[b], remaining[b], mtp);
    }
  }

  // ---------------------------------------------------------------------
  // All chunks

  /** Every prompt is what was prefilled of it followed by what remains. */
  ghost predicate Divided(idsList: seq<seq<int>>, done: seq<seq<int>>, remaining: seq<seq<int>>) {
    && |done| == |remaining| == |idsList|
    && forall b {:trigger done[b]} {:trigger remaining[b]} :: 0 <= b < |idsList| ==> idsList[b] == done[b] + remaining[b]
  }

  lemma DivideMore(idsList: seq<seq<int>>, done: seq<seq<int>>, remaining: seq<seq<int>>, taken: seq<seq<int>>, remaining': seq<seq<int>>)
    requires Divided(idsList, done, remaining) && |taken| == |remaining'| == |remaining|
    requires forall b {:trigger remaining'[b]} :: 0 <= b < |remaining| ==> remaining[b] == taken[b] + remaining'[b]
    ensures Divided(idsList, Appended(done, taken), remaining')
  {
    var done' := Appended(done, taken);
    forall b | 0 <= b < |idsList| ensures idsList[b] == done'[b] + remaining'[b] {
      assert idsList[b] == done[b] + remaining[b];
      assert remaining[b] == taken[b] + remaining'[b];
    }
  }

  lemma PrefillRowsTwice(model: Model, rows: seq<Row>, done: seq<seq<int>>, more: seq<seq<int>>)
    requires |done| == |more| == |rows|
    ensures PrefilledRows(model, PrefilledRows(model, rows, done), more) == PrefilledRows(model, rows, Appended(done, more))
  {
    forall b | 0 <= b < |rows|
      ensures PrefilledRow(model, PrefilledRow(model, rows[b], done[b]), more[b]) == PrefilledRow(model, rows[b], done[b] + more[b])
    {
      PrefillTwice(model, rows[b], done[b], more[b]);
    }
  }

  /** A chunk that holds anything leaves less. */
  lemma {:induction false} ChunkProgress(idsList: seq<seq<int>>, overlaps: seq<Option<int>>, chunkSize: int, chunk: Chunk, n: nat)
    requires |overlaps| == |idsList| && Selected(idsList, overlaps, chunkSize, chunk, |idsList|) && n <= |idsList|
    ensures TotalLen(chunk.remaining, n) <= TotalLen(idsList, n)
    ensures TotalLen(chunk.prefill, n) > 0 ==> TotalLen(chunk.remaining, n) < TotalLen(idsList, n)
  {
    if n > 0 {
      ChunkProgress(idsList, overlaps, chunkSize, chunk, n - 1);
      assert SelectedAt(idsList, overlaps, chunkSize, chunk, n - 1);
    }
  }

  /** Committed rows stay committed from chunk to chunk. */
  lemma StaysReported(model: Model, rows: seq<Row>, idsList: seq<seq<int>>, done: seq<seq<int>>, remaining: seq<seq<int>>)
    requires Reported(rows, idsList) && Divided(idsList, done, remaining)
    ensures Reported(PrefilledRows(model, rows, done), remaining)
  {
    forall b | 0 <= b < |rows| ensures ReportedRowFor(PrefilledRows(model, rows, done)[b], remaining[b]) {
      assert ReportedRowFor(rows[b], idsList[b]);
      assert idsList[b] == done[b] + remaining[b];
    }
  }

  lemma {:induction false} NoInputLeft(remaining: seq<seq<int>>, n: nat)
    requires n <= |remaining| && !AnyInput(remaining, n)
    ensures forall b :: 0 <= b < n ==> remaining[b] == []
  {
    if n > 0 { NoInputLeft(remaining, n - 1); }
  }

  lemma AllDone(idsList: seq<seq<int>>, done: seq<seq<int>>, remaining: seq<seq<int>>)
    requires Divided(idsList, done, remaining) && !AnyInput(remaining, |remaining|)
    ensures done == idsList && remaining == Repeat([], |idsList|)
  {
    NoInputLeft(remaining, |remaining|);
    forall b | 0 <= b < |idsList| ensures done[b] == idsList[b] {
      assert idsList[b] == done[b] + remaining[b];
    }
  }

  /** Chunks that hold two tokens and fit the workspace, and the pages for all the tokens. */
  ghost predicate Ready(pool: Pool<Sequence, Page>, seqs: seq<Sequence>, rows: seq<Row>, idsList: seq<seq<int>>, chunkSize: int,
                        mtp: bool, maxSeqLen: nat) {
    2 <= chunkSize <= Min(maxSeqLen, MAX_SAFE_INTEGER) && Provided(pool, seqs, rows, idsList, mtp)
  }

  /** Prefill chunk by chunk until nothing remains. When it gets there every row is
      what prefilling its whole prompt at once would have left, whatever the chunk
      size; with room for two tokens the selection never refuses, and the loop
      ends because every chunk takes something. It gets there when the free pages cover
      all the tokens and the copies of the rewinds. */
  method Prefill(cache: PageCache, seqs: seq<Sequence>, model: Model, idsList: seq<seq<int>>, chunkSize: int,
                 mtp: bool, maxSeqLen: nat)
      returns (status: PrefillStatus)
    requires Batch(cache, seqs) && |idsList| == |seqs|
    modifies cache, cache.sequences, cache.pages
    ensures cache.sequences == old(cache.sequences) && fresh(cache.pages - old(cache.pages))
    ensures status == Prefilled ==>
              Batch(cache, seqs) && BatchRows(cache, seqs) == PrefilledRows(model, old(BatchRows(cache, seqs)), idsList)
    ensures status == Uncommitted ==> mtp && !Reported(old(BatchRows(cache, seqs)), idsList)
    ensures 2 <= chunkSize <= MAX_SAFE_INTEGER ==> !Refused(status)
    ensures Ready(old(cache.View()), seqs, old(BatchRows(cache, seqs)), idsList, chunkSize, mtp, maxSeqLen) ==> status == Prefilled
  {
    StartDivided(model, BatchRows(cache, seqs), idsList);
    ghost var ready := Ready(cache.View(), seqs, BatchRows(cache, seqs), idsList, chunkSize, mtp, maxSeqLen);
    ghost var done, remaining;
    status, done, remaining := PrefillLoop(cache, seqs, model, BatchRows(cache, seqs), idsList, chunkSize, mtp, maxSeqLen, ready);
    if status == Prefilled { AllDone(idsList, done, remaining); }
  }

  method PrefillLoop(cache: PageCache, seqs: seq<Sequence>, model: Model, ghost rows: seq<Row>, idsList: seq<seq<int>>,
                     chunkSize: int, mtp: bool, maxSeqLen: nat, ghost ready: bool)
      returns (status: PrefillStatus, ghost done: seq<seq<int>>, remaining: seq<seq<int>>)
    requires Between(cache, seqs, model, rows, idsList, Repeat([], |seqs|), idsList)
    requires ready ==> StillReady(cache, seqs, idsList, chunkSize, mtp, maxSeqLen)
    modifies cache, cache.sequences, cache.pages
    ensures cache.sequences == old(cache.sequences) && fresh(cache.pages - old(cache.pages))
    ensures status == Prefilled ==>
              Between(cache, seqs, model, rows, idsList, done, remaining) && !AnyInput(remaining, |remaining|)
    ensures Justified(status, rows, idsList, chunkSize, mtp) && (ready ==> status == Prefilled)
  {
    done, remaining, status := Repeat([], |seqs|), idsList, Prefilled;
    while status == Prefilled && AnyInput(remaining, |remaining|)
      invariant cache.sequences == old(cache.sequences) && fresh(cache.pages - old(cache.pages))
      invariant status == Prefilled ==> Between(cache, seqs, model, rows, idsList, done, remaining)
      invariant Justified(status, rows, idsList, chunkSize, mtp)
      invariant !ready || (status == Prefilled && StillReady(cache, seqs, remaining, chunkSize, mtp, maxSeqLen))
      decreases status == Prefilled, TotalLen(remaining, |remaining|)
    {
      status, remaining, done := NextChunk(cache, seqs, model, rows, idsList, done, remaining, chunkSize, mtp, maxSeqLen, ready);
    }
  }

  ghost predicate StillReady(cache: PageCache, seqs: seq<Sequence>, remaining: seq<seq<int>>, chunkSize: int, mtp: bool, maxSeqLen: nat)
    reads cache, cache.sequences, cache.pages
  {
    Batch(cache, seqs) && Ready(cache.View(), seqs, BatchRows(cache, seqs), remaining, chunkSize, mtp, maxSeqLen)
  }

  /** A refusal has its reason in the rows and sizes given at the start. */
  ghost predicate Justified(status: PrefillStatus, rows: seq<Row>, idsList: seq<seq<int>>, chunkSize: int, mtp: bool) {
    && (status == Uncommitted ==> mtp && !Reported(rows, idsList))
    && (2 <= chunkSize <= MAX_SAFE_INTEGER ==> !Refused(status))
  }

  /** Between chunks the rows are those of one prefill of what was taken so far. */
  ghost predicate Between(cache: PageCache, seqs: seq<Sequence>, model: Model, rows: seq<Row>, idsList: seq<seq<int>>,
                          done: seq<seq<int>>, remaining: seq<seq<int>>)
    reads cache, cache.sequences, cache.pages
  {
    && Batch(cache, seqs) && Divided(idsList, done, remaining) && |idsList| == |rows| == |seqs|
    && BatchRows(cache, seqs) == PrefilledRows(model, rows, done)
  }

  lemma StartDivided(model: Model, rows: seq<Row>, idsList: seq<seq<int>>)
    requires |idsList| == |rows|
    ensures Divided(idsList, Repeat([], |rows|), idsList)
    ensures PrefilledRows(model, rows, Repeat([], |rows|)) == rows
  {
  }

  method NextChunk(cache: PageCache, seqs: seq<Sequence>, model: Model, ghost rows: seq<Row>, ghost idsList: seq<seq<int>>,
                   ghost done: seq<seq<int>>, remaining: seq<seq<int>>, chunkSize: int, mtp: bool, maxSeqLen: nat, ghost ready: bool)
      returns (status: PrefillStatus, remaining': seq<seq<int>>, ghost done': seq<seq<int>>)
    requires Between(cache, seqs, model, rows, idsList, done, remaining) && AnyInput(remaining, |remaining|)
    requires ready ==> StillReady(cache, seqs, remaining, chunkSize, mtp, maxSeqLen)
    modifies cache, cache.sequences, cache.pages
    ensures cache.sequences == old(cache.sequences) && fresh(cache.pages - old(cache.pages))
    ensures status == Prefilled ==>
              && Between(cache, seqs, model, rows, idsList, done', remaining')
              && TotalLen(remaining', |remaining'|) < TotalLen(remaining, |remaining|)
    ensures Justified(status, rows, idsList, chunkSize, mtp)
    ensures ready ==> status == Prefilled && StillReady(cache, seqs, remaining', chunkSize, mtp, maxSeqLen)
  {
    if Reported(rows, idsList) { StaysReported(model, rows, idsList, done, remaining); }
    var chunk;
    ghost var overlaps, taken;
    status, chunk, overlaps, taken := ReadyChunk(cache, seqs, model, PrefilledRows(model, rows, done), remaining, chunkSize, mtp, maxSeqLen, ready);
    remaining', done' := chunk.remaining, done;
    if status == Prefilled {
      done' := Appended(done, taken);
      ChunkDivides(model, rows, idsList, done, remaining, overlaps, taken, chunkSize, chunk, mtp);
    }
  }

  /** A chunk of the loop; when the pages are provided it does not fail, and they still are. */
  method ReadyChunk(cache: PageCache, seqs: seq<Sequence>, model: Model, ghost rows: seq<Row>, remaining: seq<seq<int>>, chunkSize: int,
                    mtp: bool, maxSeqLen: nat, ghost ready: bool)
      returns (status: PrefillStatus, chunk: Chunk, ghost overlaps: seq<Option<int>>, ghost taken: seq<seq<int>>)
    requires Batch(cache, seqs) && |remaining| == |seqs| && rows == BatchRows(cache, seqs)
    requires ready ==> StillReady(cache, seqs, remaining, chunkSize, mtp, maxSeqLen)
    modifies cache, cache.sequences, cache.pages
    ensures cache.sequences == old(cache.sequences) && fresh(cache.pages - old(cache.pages))
    ensures ChunkSelected(rows, remaining, chunkSize, mtp, status, chunk, overlaps)
    ensures status == Prefilled ==>
              && RowChunks(rows, remaining, overlaps, taken, chunk.prefill, chunk.remaining, mtp)
              && Batch(cache, seqs) && BatchRows(cache, seqs) == PrefilledRows(model, rows, taken)
    ensures ready ==> status == Prefilled && StillReady(cache, seqs, chunk.remaining, chunkSize, mtp, maxSeqLen)
  {
    ghost var start, at := cache.View(), 0;
    status, chunk, overlaps, taken, at := PrefillChunk(cache, seqs, model, remaining, chunkSize, mtp, maxSeqLen, rows, start);
    if ready {
      ReadyPrefills(start, seqs, rows, remaining, chunkSize, mtp, maxSeqLen, status, chunk, overlaps, taken);
      ReadyStays(cache, seqs, model, start, rows, remaining, chunkSize, mtp, maxSeqLen, chunk, overlaps, taken);
    }
  }

  /** With everything ready the selection does not refuse, and its chunk can be run. */
  lemma ReadyPrefills(pool: Pool<Sequence, Page>, seqs: seq<Sequence>, rows: seq<Row>, idsList: seq<seq<int>>, chunkSize: int, mtp: bool,
                      maxSeqLen: nat, status: PrefillStatus, chunk: Chunk, overlaps: seq<Option<int>>, taken: seq<seq<int>>)
    requires Valid(pool) && RowsOf(pool, seqs, rows) && Ready(pool, seqs, rows, idsList, chunkSize, mtp, maxSeqLen)
    requires ChunkSelected(rows, idsList, chunkSize, mtp, status, chunk, overlaps)
    requires status != Uncommitted && !Refused(status) ==> RowChunks(rows, idsList, overlaps, taken, chunk.prefill, chunk.remaining, mtp)
    ensures status != Uncommitted && !Refused(status)
    ensures CutPlannable(pool, seqs, Backed(rows, chunk.prefill, overlaps), Lengths(chunk.prefill), maxSeqLen)
  {
    ProvidedPlans(pool, seqs, rows, idsList, mtp, overlaps, taken, chunk.prefill, chunk.remaining, maxSeqLen);
  }

  lemma ReadyStays(cache: PageCache, seqs: seq<Sequence>, model: Model, start: Pool<Sequence, Page>, rows: seq<Row>, idsList: seq<seq<int>>,
                   chunkSize: int, mtp: bool, maxSeqLen: nat, chunk: Chunk, overlaps: seq<Option<int>>, taken: seq<seq<int>>)
    requires Valid(start) && RowsOf(start, seqs, rows) && Ready(start, seqs, rows, idsList, chunkSize, mtp, maxSeqLen)
    requires RowChunks(rows, idsList, overlaps, taken, chunk.prefill, chunk.remaining, mtp) && cache.pageSize == start.pageSize
    requires var cuts := Backed(rows, chunk.prefill, overlaps);
             Listed(start, seqs, cuts) && ChunkHeld(cache, seqs, start, cuts, Lengths(chunk.prefill), PrefilledRows(model, rows, taken))
    ensures StillReady(cache, seqs, chunk.remaining, chunkSize, mtp, maxSeqLen)
  {
    HeldFollowed(cache, seqs, start, Backed(rows, chunk.prefill, overlaps), Lengths(chunk.prefill), PrefilledRows(model, rows, taken));
    ProvidedStays(start, cache.View(), seqs, model, rows, idsList, mtp, overlaps, taken, chunk.prefill, chunk.remaining);
  }

  lemma ChunkDivides(model: Model, rows: seq<Row>, idsList: seq<seq<int>>, done: seq<seq<int>>, remaining: seq<seq<int>>,
                     overlaps: seq<Option<int>>, taken: seq<seq<int>>, chunkSize: int, chunk: Chunk, mtp: bool)
    requires |idsList| == |rows| && Divided(idsList, done, remaining)
    requires GoodChunk(remaining, overlaps, chunkSize, chunk) && AnyInput(remaining, |remaining|)
    requires RowChunks(PrefilledRows(model, rows, done), remaining, overlaps, taken, chunk.prefill, chunk.remaining, mtp)
    ensures Divided(idsList, Appended(done, taken), chunk.remaining)
    ensures TotalLen(chunk.remaining, |chunk.remaining|) < TotalLen(remaining, |remaining|)
    ensures PrefilledRows(model, PrefilledRows(model, rows, done), taken) == PrefilledRows(model, rows, Appended(done, taken))
  {
    ChunkProgress(remaining, overlaps, chunkSize, chunk, |remaining|);
    var now := PrefilledRows(model, rows, done);
    forall b | 0 <= b < |remaining| ensures remaining[b] == taken[b] + chunk.remaining[b] {
      assert RowChunk(now[b], remaining[b], overlaps[b], taken[b], chunk.prefill[b], chunk.remaining[b], mtp);
    }
    DivideMore(idsList, done, remaining, taken, chunk.remaining);
    PrefillRowsTwice(model, rows, done, taken);
  }
}
