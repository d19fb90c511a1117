/** A plan as a whole: the pages of a batch, then the metadata buffers of its slot
    (src/execution-workspace.ts). */
module ExecutionPlan {
  import opened Wrappers
  import opened TokenChunks
  import opened PagePool
  import opened PageLaws
  import opened PageTally
  import opened PagedSequence
  import opened SequenceRows
  import opened DecodeRuns
  import opened MtpDecode
  import CapacityBounds

  /** Refused before any page is reserved; planned; or outgrown: the pages are reserved, and
      the metadata do not fit the slot. */
  datatype PlanStatus = Refused | Planned | Outgrown

  /** Pages with content, row by row. */
  function ContentPages(rows: seq<Row>, size: nat): (r: seq<nat>)
    requires size > 0
    ensures |r| == |rows| && forall b {:trigger r[b]} :: 0 <= b < |r| ==> r[b] == PagesFor(rows[b].allocLen, size)
  {
    seq(|rows|, b requires 0 <= b < |rows| => PagesFor(rows[b].allocLen, size))
  }

  /** No row has more pages with content than the cache has pages. */
  lemma ContentWithin(cache: PageCache, seqs: seq<Sequence>, b: nat)
    requires Batch(cache, seqs) && b < |seqs|
    ensures ContentPages(BatchRows(cache, seqs), cache.pageSize)[b] <= cache.maxPages
  {
    RowFits(cache, seqs, b);
    var pool, s := cache.View(), seqs[b];
    HistoryFits(pool, s);
    PagesForBounds(s.allocLen, cache.pageSize);
    assert pool.sequences[s] == s.View();
    CapacityBounds.PagesBounded(pool, s);
  }

  /** Nothing the slot was made for is exceeded, by this or any other plan within the limits. */
  ghost predicate SlotServes(workspace: CapacityBounds.Workspace, slot: nat, batchSize: nat, maxPages: nat)
    reads workspace
  {
    && slot in workspace.firstPages && 1 <= batchSize <= workspace.maxBatch
    && CapacityBounds.SlotSuffices(workspace.maxBatch, workspace.maxSeqLen, workspace.firstPages[slot], maxPages)
  }

  /** The pages with content of all rows; none has more than the cache. */
  method CountContent(cache: PageCache, seqs: seq<Sequence>) returns (contentPages: seq<nat>)
    requires Batch(cache, seqs)
    ensures contentPages == ContentPages(BatchRows(cache, seqs), cache.pageSize)
    ensures AtMost(contentPages, cache.maxPages)
  {
    contentPages := [];
    var b := 0;
    while b < |seqs|
      invariant 0 <= b == |contentPages| <= |seqs| && AtMost(contentPages, cache.maxPages)
      invariant forall j {:trigger contentPages[j]} :: 0 <= j < b ==> contentPages[j] == PagesFor(BatchRows(cache, seqs)[j].allocLen, cache.pageSize)
    {
      RowFits(cache, seqs, b);
      ContentWithin(cache, seqs, b);
      contentPages := contentPages + [PagesFor(seqs[b].allocLen, cache.pageSize)];
      b := b + 1;
    }
  }

  ghost predicate AtMost(contentPages: seq<nat>, maxPages: nat) {
    forall b {:trigger contentPages[b]} :: 0 <= b < |contentPages| ==> contentPages[b] <= maxPages
  }

  /** The plan fits what the slot was made for. */
  ghost predicate FitsSlot(workspace: CapacityBounds.Workspace, slot: nat, contentPages: seq<nat>, totalTokens: nat)
    reads workspace
  {
    && slot in workspace.firstPages
    && CapacityBounds.Metadata(contentPages, totalTokens)
       <= CapacityBounds.SlotCapacity(workspace.maxBatch, workspace.maxSeqLen, workspace.firstPages[slot])
  }

  /** The buffers of an execution state, whose last view lists the pages with content;
      nothing in the cache changes. */
  method TakeBuffers(workspace: CapacityBounds.Workspace, slot: nat, cache: PageCache, seqs: seq<Sequence>, totalTokens: nat,
                     ghost ps: seq<Paged>, ghost budget: nat)
      returns (ok: bool)
    requires workspace.Valid() && HeldBy(cache, seqs, ps, budget)
    modifies workspace, workspace.stateBuffers.Values
    ensures workspace.Valid() && slot in workspace.firstPages && workspace.firstPages == old(workspace.Claimed(slot, cache.maxPages))
    ensures ok <==> FitsSlot(workspace, slot, ContentPages(Bare(ps), cache.pageSize), totalTokens)
    ensures SlotServes(workspace, slot, |ps|, cache.maxPages) && totalTokens <= Max(workspace.maxSeqLen, workspace.maxBatch) ==> ok
    ensures cache.View() == old(cache.View()) && HeldBy(cache, seqs, ps, budget)
  {
    BarePaged(cache, seqs);
    var contentPages := CountContent(cache, seqs);
    ok := TakeSlot(workspace, slot, cache, contentPages, totalTokens);
  }

  method TakeSlot(workspace: CapacityBounds.Workspace, slot: nat, cache: PageCache, contentPages: seq<nat>, totalTokens: nat)
      returns (ok: bool)
    requires workspace.Valid() && AtMost(contentPages, cache.maxPages)
    modifies workspace, workspace.stateBuffers.Values
    ensures workspace.Valid() && slot in workspace.firstPages && workspace.firstPages == old(workspace.Claimed(slot, cache.maxPages))
    ensures ok <==> FitsSlot(workspace, slot, contentPages, totalTokens)
    ensures SlotServes(workspace, slot, |contentPages|, cache.maxPages) && totalTokens <= Max(workspace.maxSeqLen, workspace.maxBatch) ==> ok
    ensures cache.View() == old(cache.View())
  {
    ok := workspace.PlanOn(slot, cache.maxPages, contentPages, totalTokens);
  }

  /** How a plan ends, given the slots' first caches before it: unless refused, it claims the
      slot and is made iff its metadata fit, as they do on a slot that serves the cache. */
  ghost predicate EndsOn(workspace: CapacityBounds.Workspace, first: map<nat, nat>, slot: nat, maxPages: nat,
                         contentPages: seq<nat>, totalTokens: nat, status: PlanStatus)
    reads workspace
  {
    && workspace.firstPages == (if status == Refused || slot in first then first else first[slot := maxPages])
    && (status != Refused ==> (status == Planned <==> FitsSlot(workspace, slot, contentPages, totalTokens)))
    && (SlotServes(workspace, slot, |contentPages|, maxPages) ==> status != Outgrown)
  }

  /** The execution state of a batch whose pages were reserved or refused. */
  method MakeState(workspace: CapacityBounds.Workspace, slot: nat, cache: PageCache, seqs: seq<Sequence>, totalTokens: nat,
                   reserved: bool, ghost ps: seq<Paged>, ghost budget: nat)
      returns (status: PlanStatus)
    requires workspace.Valid() && HeldBy(cache, seqs, ps, budget)
    requires reserved ==> totalTokens <= Max(workspace.maxSeqLen, |ps|)
    modifies workspace, workspace.stateBuffers.Values
    ensures workspace.Valid() && cache.View() == old(cache.View()) && HeldBy(cache, seqs, ps, budget)
    ensures status == Refused <==> !reserved
    ensures EndsOn(workspace, old(workspace.firstPages), slot, cache.maxPages, ContentPages(Bare(ps), cache.pageSize), totalTokens, status)
  {
    if !reserved { return Refused; }
    var ok := TakeBuffers(workspace, slot, cache, seqs, totalTokens, ps, budget);
    status := if ok then Planned else Outgrown;
  }

  /** The rows once a plan has reserved their positions, or refused to. */
  ghost function After(ps: seq<Paged>, lens: seq<nat>, size: nat, refused: bool): seq<Paged>
    requires |lens| == |ps| && size > 0
  {
    if refused then ps else GrownAll(ps, lens, size)
  }

  /** The reservation leaves the workspace alone. */
  method ReservePrefill(workspace: CapacityBounds.Workspace, cache: PageCache, seqs: seq<Sequence>, lens: seq<nat>,
                        ghost ps: seq<Paged>, ghost budget: nat)
      returns (ok: bool)
    requires workspace.Valid() && HeldBy(cache, seqs, ps, budget) && |lens| == |seqs|
    modifies cache, cache.sequences, cache.pages
    ensures cache.sequences == old(cache.sequences) && KeepsPrivate(old(cache.View()), cache.View())
    ensures workspace.Valid() && workspace.firstPages == old(workspace.firstPages) && workspace.stateBuffers == old(workspace.stateBuffers)
    ensures |ps| == |seqs| && (ok <==> Plannable(ps, lens, workspace.maxSeqLen, cache.pageSize, budget))
    ensures HeldBy(cache, seqs, After(ps, lens, cache.pageSize, !ok), budget)
  {
    ok := Plan(cache, seqs, lens, workspace.maxSeqLen, ps, budget);
  }

  /** planPrefill: refuse what does not fit, reserve the pages, then take the buffers. A plan
      that outgrows its slot leaves the rows grown. */
  method PlanPrefill(workspace: CapacityBounds.Workspace, slot: nat, cache: PageCache, seqs: seq<Sequence>, lens: seq<nat>,
                     ghost ps: seq<Paged>, ghost budget: nat)
      returns (status: PlanStatus)
    requires workspace.Valid() && HeldBy(cache, seqs, ps, budget) && |lens| == |seqs|
    modifies cache, cache.sequences, cache.pages, workspace, workspace.stateBuffers.Values
    ensures cache.sequences == old(cache.sequences) && workspace.Valid() && KeepsPrivate(old(cache.View()), cache.View())
    ensures |ps| == |seqs| && (status == Refused <==> !Plannable(ps, lens, workspace.maxSeqLen, cache.pageSize, budget))
    ensures HeldBy(cache, seqs, After(ps, lens, cache.pageSize, status == Refused), budget)
    ensures EndsOn(workspace, old(workspace.firstPages), slot, cache.maxPages,
                   ContentPages(Bare(After(ps, lens, cache.pageSize, status == Refused)), cache.pageSize), Sum(lens), status)
  {
    var totalTokens := CountTokens(lens);
    var reserved := ReservePrefill(workspace, cache, seqs, lens, ps, budget);
    status := MakeState(workspace, slot, cache, seqs, totalTokens, reserved, After(ps, lens, cache.pageSize, !reserved), budget);
  }

  method ReserveDecode(workspace: CapacityBounds.Workspace, cache: PageCache, seqs: seq<Sequence>, ghost ps: seq<Paged>, ghost budget: nat)
      returns (ok: bool)
    requires workspace.Valid() && HeldBy(cache, seqs, ps, budget)
    modifies cache, cache.sequences, cache.pages
    ensures cache.sequences == old(cache.sequences) && KeepsPrivate(old(cache.View()), cache.View())
    ensures workspace.Valid() && workspace.firstPages == old(workspace.firstPages) && workspace.stateBuffers == old(workspace.stateBuffers)
    ensures |ps| == |seqs| && (ok <==> TotalPages(GrownAll(ps, Repeat(1, |ps|), cache.pageSize), |ps|) <= budget)
    ensures HeldBy(cache, seqs, After(ps, Repeat(1, |ps|), cache.pageSize, !ok), budget)
  {
    ok := Reserve(cache, seqs, Repeat(1, |seqs|));
  }

  /** planDecode, one token a row: there is no token limit, the rest is the same. */
  method PlanDecode(workspace: CapacityBounds.Workspace, slot: nat, cache: PageCache, seqs: seq<Sequence>,
                    ghost ps: seq<Paged>, ghost budget: nat)
      returns (status: PlanStatus)
    requires workspace.Valid() && HeldBy(cache, seqs, ps, budget)
    modifies cache, cache.sequences, cache.pages, workspace, workspace.stateBuffers.Values
    ensures cache.sequences == old(cache.sequences) && workspace.Valid() && KeepsPrivate(old(cache.View()), cache.View())
    ensures |ps| == |seqs| && (status == Refused <==> TotalPages(GrownAll(ps, Repeat(1, |ps|), cache.pageSize), |ps|) > budget)
    ensures HeldBy(cache, seqs, After(ps, Repeat(1, |ps|), cache.pageSize, status == Refused), budget)
    ensures EndsOn(workspace, old(workspace.firstPages), slot, cache.maxPages,
                   ContentPages(Bare(After(ps, Repeat(1, |ps|), cache.pageSize, status == Refused)), cache.pageSize), |ps|, status)
  {
    var reserved := ReserveDecode(workspace, cache, seqs, ps, budget);
    status := MakeState(workspace, slot, cache, seqs, |seqs|, reserved, After(ps, Repeat(1, |ps|), cache.pageSize, !reserved), budget);
  }

  /** A slot serves the cache that was first planned on it, and every cache of no more pages. */
  lemma OwnSlotServes(workspace: CapacityBounds.Workspace, slot: nat, batchSize: nat, maxPages: nat)
    requires slot in workspace.firstPages && 1 <= batchSize <= workspace.maxBatch && workspace.maxSeqLen >= 1
    requires maxPages <= workspace.firstPages[slot]
    ensures SlotServes(workspace, slot, batchSize, maxPages)
  {
    CapacityBounds.FirstCacheFits(workspace.maxBatch, workspace.maxSeqLen, workspace.firstPages[slot], maxPages);
  }
}
