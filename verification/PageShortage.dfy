/** Small caches on which a startup of speculative decoding, a step of it, or a prefill chunk
    runs out of pages half way (src/glm51_model.ts, src/paged_sequence.ts). */
module PageShortage {
  import opened Wrappers
  import opened TokenChunks
  import opened PagePool
  import opened PageLaws
  import opened PageStock
  import opened PageTally
  import opened SequenceRows
  import opened GreedyStream
  import opened DecodeRuns
  import opened MtpDecode

  /** Two rows of length two on one full page, and no page free. */
  function OnePage(): Pool<nat, nat> {
    Pool(2, 1,
         map[0 := SequenceView([0], 2, Some(9)), 1 := SequenceView([0], 2, Some(9))],
         map[0 := PageView(0, [5, 6], 2)], [], map[0 := 0])
  }

  lemma PagesOfTwo()
    ensures PageOf(1, 2) == 0 && OffsetOf(1, 2) == 1 && PagesFor(1, 2) == 1
    ensures PageOf(2, 2) == 1 && OffsetOf(2, 2) == 0 && PagesFor(2, 2) == 1
    ensures PagesFor(3, 2) == 2 && Times(1, 2) == 2 && Times(2, 2) == 4
  {
  }

  lemma OnePageValid()
    ensures Valid(OnePage()) && History(OnePage(), 0) == History(OnePage(), 1) == [5, 6]
  {
    var pool := OnePage();
    PagesOfTwo();
    forall s | s in pool.sequences ensures Lists(pool.pages, pool.sequences[s].pages) == [[5, 6]] && WellShaped(pool, s) && ClosedAt(pool, s) {
      assert Lists(pool.pages, pool.sequences[s].pages) == [[5, 6]];
      assert Flat([[5, 6]]) == [5, 6] + Flat([]);
    }
    assert Holders(pool, 0) == {0, 1};
    assert HeldId(pool, 0) by { assert 0 in pool.pages && pool.pages[0].refs > 0; }
  }

  lemma OnePageRefs()
    ensures TurnRefs(OnePage(), [0, 1], [1, 1], 0) == [2]
  {
    assert HoldersLeft(OnePage(), [0, 1], [1, 1], 0, 0) == Holders(OnePage(), 0) == {0, 1};
  }

  /** Both rows are ready, but the first rewind falls into a page that the other row holds,
      and there is none for its copy: a startup stops there. */
  lemma CopyMissing()
    ensures var pool, seqs, rows := OnePage(), [0, 1], Bare(PagedRows(OnePage(), [0, 1]));
            && Valid(pool) && AllCommitted(rows) && AllNonEmpty(rows) && Listed(pool, seqs, Shorter(rows))
            && !FitsAt(pool, seqs, Shorter(rows), 0) && !CutsFit(pool, seqs, Shorter(rows), 2)
  {
    var pool, seqs: seq<nat>, lens: seq<nat> := OnePage(), [0, 1], [1, 1];
    OnePageValid();
    assert Shorter(Bare(PagedRows(pool, seqs))) == lens;
    PagesOfTwo();
    OnePageRefs();
    assert TurnRefs(pool, seqs, lens, 0)[1..] == [];
    assert !FitsAt(pool, seqs, lens, 0);
  }

  /** A row of length three and a row of length two that share a full page, and no page free. */
  function TwoPages(): Pool<nat, nat> {
    Pool(2, 2,
         map[0 := SequenceView([0, 1], 3, Some(9)), 1 := SequenceView([0], 2, Some(9))],
         map[0 := PageView(0, [5, 6], 2), 1 := PageView(1, [7], 1)], [], map[0 := 0, 1 := 0])
  }

  lemma TwoPagesShaped()
    ensures forall s | s in TwoPages().sequences :: WellShaped(TwoPages(), s) && ClosedAt(TwoPages(), s)
    ensures History(TwoPages(), 0) == [5, 6, 7] && History(TwoPages(), 1) == [5, 6]
  {
    var pool := TwoPages();
    PagesOfTwo();
    assert Lists(pool.pages, [0, 1]) == [[5, 6], [7]] && Lists(pool.pages, [0]) == [[5, 6]];
    assert [[5, 6], [7]][1..] == [[7]];
    assert Flat([[7]]) == [7] + Flat([]);
    assert Flat([[5, 6]]) == [5, 6] + Flat([]);
    assert Flat([[5, 6], [7]]) == [5, 6] + Flat([[7]]) == [5, 6, 7];
  }

  lemma TwoPagesPartitioned()
    ensures Partitioned(TwoPages())
  {
    var pool := TwoPages();
    assert HeldId(pool, 0) by { assert 0 in pool.pages && pool.pages[0].refs > 0; }
    assert HeldId(pool, 1) by { assert 1 in pool.pages && pool.pages[1].refs > 0; }
  }

  lemma TwoPagesValid()
    ensures Valid(TwoPages())
  {
    var pool := TwoPages();
    TwoPagesShaped();
    TwoPagesPartitioned();
    assert Holders(pool, 0) == {0, 1} && Holders(pool, 1) == {0};
  }

  lemma TwoPagesTally()
    ensures var pool, seqs, lens := TwoPages(), [0, 1], [2, 1];
            && Listed(pool, seqs, lens) && CutsFit(pool, seqs, lens, 2) && FreeAfter(pool, seqs, lens, 2) == 0
  {
    var pool, seqs: seq<nat>, lens: seq<nat> := TwoPages(), [0, 1], [2, 1];
    PagesOfTwo();
    assert Holders(pool, 0) == {0, 1} && Holders(pool, 1) == {0};
    assert TurnRefs(pool, seqs, lens, 0) == [2, 1];
    assert [2, 1][1..] == [1] && Ones([1]) == 1;
    assert GivenUp(pool, 0, 2) == [1];
    assert HoldersLeft(pool, seqs, lens, 1, 0) == {0, 1};
    assert TurnRefs(pool, seqs, lens, 1) == [2];
    assert [2][1..] == [];
    assert FreeAfter(pool, seqs, lens, 1) == 1;
  }

  /** Both rewinds succeed, but the copy of the second takes the page that the first one
      freed: no plan that gives the first row its last token back can be made, be it for a
      startup or for a chunk of more inputs. */
  lemma RoomMissing(more: nat, maxSeqLen: nat)
    requires more > 0
    ensures var pool, seqs, rows := TwoPages(), [0, 1], Bare(PagedRows(TwoPages(), [0, 1]));
            && Valid(pool) && AllCommitted(rows) && AllNonEmpty(rows) && Listed(pool, seqs, Shorter(rows))
            && CutsFit(pool, seqs, Shorter(rows), 2)
            && !CutPlannable(pool, seqs, Shorter(rows), [more, more], maxSeqLen)
  {
    TwoPagesValid();
    TwoPagesRows();
    TwoPagesTally();
    TwoPagesNoPlan(more, maxSeqLen);
  }

  lemma TwoPagesRows()
    ensures var rows := Bare(PagedRows(TwoPages(), [0, 1]));
            AllCommitted(rows) && AllNonEmpty(rows) && Shorter(rows) == [2, 1]
  {
    TwoPagesShaped();
  }

  lemma TwoPagesNoPlan(more: nat, maxSeqLen: nat)
    requires more > 0
    ensures !CutPlannable(TwoPages(), [0, 1], [2, 1], [more, more], maxSeqLen)
  {
    var seqs: seq<nat> := [0, 1];
    TwoPagesTally();
    TwoPagesGrown(PagedRows(TwoPages(), seqs), more);
  }

  lemma TwoPagesGrown(ps: seq<Paged>, more: nat)
    requires more > 0 && |ps| == 2 && ps[0].row.allocLen == 3 && ps[1].row.allocLen == 2
    ensures TotalPages(CutAll(ps, [2, 1], 2), 2) == 2 && TotalPages(GrownAll(CutAll(ps, [2, 1], 2), [more, more], 2), 2) >= 3
  {
    PagesOfTwo();
    var cut := CutAll(ps, [2, 1], 2);
    var grown := GrownAll(cut, [more, more], 2);
    assert cut[0].pages == 1 && cut[1].pages == 1;
    PagesForMono(3, 2 + more, 2);
    PagesForMono(1, 1 + more, 2);
    assert TotalPages(cut, 2) == 2 by { assert TotalPages(cut, 1) == 1; }
    assert TotalPages(grown, 2) >= 3 by { assert TotalPages(grown, 1) == grown[0].pages >= 2; }
  }

  function Ids(): set<nat> { {0, 1, 2} }

  /** One row with one token reported and two positions reserved behind it, on three pages of
      one token, and no page free. */
  function ThreePages(): Pool<nat, nat> {
    Pool(1, 3, map[0 := SequenceView([0, 1, 2], 3, Some(9))],
         map p | p in Ids() :: PageView(p, if p == 0 then [5] else [], 1), [], map p | p in Ids() :: 0)
  }

  lemma OneToken(ts: seq<seq<int>>)
    requires |ts| == 3 && |ts[0]| == 1 && ts[1] == [] && ts[2] == []
    ensures Shaped(ts, 1) && Flat(ts) == ts[0]
  {
    FlatOfEmpty(ts[1..]);
  }

  lemma ThreePagesShaped()
    ensures WellShaped(ThreePages(), 0) && ClosedAt(ThreePages(), 0) && History(ThreePages(), 0) == [5]
  {
    var pool := ThreePages();
    var ts := Lists(pool.pages, pool.sequences[0].pages);
    OneToken(ts);
    assert ts[0] == [5];
    OneByOne(3);
  }

  lemma {:induction false} OneByOne(n: nat)
    ensures Times(n, 1) == n
  {
    if n > 0 { OneByOne(n - 1); }
  }

  lemma ThreePagesConserved()
    ensures Conserved(ThreePages())
  {
    var pool := ThreePages();
    ThreePagesShaped();
    assert [0, 1, 2][0] == 0 && [0, 1, 2][1] == 1 && [0, 1, 2][2] == 2;
    forall p: nat | p < 3 ensures HeldId(pool, p) && Holders(pool, p) == {0} {
      assert p in pool.pages && pool.pages[p].refs > 0 && pool.pages[p].id == p;
      assert pool.sequences[0].pages[p] == p;
    }
  }

  lemma ThreePagesValid()
    ensures Valid(ThreePages())
  {
    ThreePagesConserved();
    ThreePagesShaped();
  }

  /** That row is in flight with a draft behind its one committed token. Whatever the model, the
      draft and the target, the step is committed and the next one cannot be submitted. */
  lemma StepNotYielded(generator: MtpGenerator, draft: int)
    requires |generator.seqs| == 1 && generator.numDraftTokens == 1 && generator.cache.pageSize == 1
    ensures var pool, rows := ThreePages(), [Row([5], 1, Some(9))];
            var ps := PagedRows(pool, [0]);
            && Valid(pool) && Bare(ps) == Holding(rows, 2)
            && AllCommitted(rows) && AllStand(generator.model, rows, Streams(rows), [[]])
            && !generator.Prospect(ps, [1], Foreseen(generator.model, rows, [[draft]]), 2, |pool.available| + TotalPages(ps, 1))
  {
    ThreePagesValid();
    ThreePagesShaped();
    var rows := [Row([5], 1, Some(9))];
    assert PagedRows(ThreePages(), [0]) == [Paged(Row([5], 3, Some(9)), 3)];
    assert Extend(generator.model, Stream(rows[0]), 0) == [];
    StepTooLong(generator, rows[0], draft);
  }

  lemma StepTooLong(generator: MtpGenerator, r: Row, draft: int)
    requires |generator.seqs| == 1 && generator.numDraftTokens == 1 && generator.cache.pageSize == 1
    requires Committed(r) && |r.history| == 1
    ensures var ps := [Paged(r.(allocLen := 3), 3)];
            TotalPages(ps, 1) == 3 && !generator.Prospect(ps, [1], Foreseen(generator.model, [r], [[draft]]), 2, 3)
  {
    var step := Foreseen(generator.model, [r], [[draft]]);
    var kept := KeptLens([1], step);
    var ps := [Paged(r.(allocLen := 3), 3)];
    assert TotalPages(ps, 1) == TotalPages(ps, 0) + 3;
    assert kept[0] == 2 + step.numAccepted[0];
    PagesOfOne(kept[0] + 2);
    assert Wanted(CutAll(ps, kept, 1), kept, 2, 1, 1) >= 4;
  }

  lemma {:induction false} PagesOfOne(n: nat)
    ensures PagesFor(n, 1) == n
  {
    if n > 0 { PagesOfOne(n - 1); }
  }
}
