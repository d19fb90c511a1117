/** The pages a chunk of a prefill needs and leaves, counted from the cache before it
    (src/chat_model.ts, src/glm51_model.ts). */
module PrefillBudget {
  import opened Wrappers
  import opened TokenChunks
  import opened PagePool
  import opened PageLaws
  import opened PageStock
  import opened PageTally
  import opened SequenceRows
  import opened MtpDecode

  // ---------------------------------------------------------------------
  // Counting pages

  /** What a chunk does to the length of one row: it takes t of the r tokens, and runs them
      alone, or behind the row's last token, which is cut off for that. */
  predicate RowTurn(len: nat, r: nat, t: nat, fill: nat, cut: nat) {
    t <= r && ((cut == len && fill == t) || (len == cut + 1 && fill == t + 1))
  }

  ghost predicate Turn(ps: seq<Paged>, r: seq<nat>, t: seq<nat>, fill: seq<nat>, cuts: seq<nat>) {
    && |ps| == |r| == |t| == |fill| == |cuts|
    && forall b {:trigger RowTurn(ps[b].row.allocLen, r[b], t[b], fill[b], cuts[b])} :: 0 <= b < |ps| ==>
         RowTurn(ps[b].row.allocLen, r[b], t[b], fill[b], cuts[b])
  }

  lemma RowPages(p: Paged, r: nat, t: nat, fill: nat, cut: nat, size: nat)
    requires size > 0 && RowTurn(p.row.allocLen, r, t, fill, cut)
    ensures var after := GrownPaged(CutPaged(p, cut, size), fill, size);
            && after.row.allocLen == p.row.allocLen + t
            && after.pages <= GrownPaged(p, r, size).pages
            && GrownPaged(after, r - t, size).pages <= GrownPaged(p, r, size).pages
  {
    var len := p.row.allocLen;
    PagesForMono(len, len + t, size);
    PagesForMono(len + t, len + r, size);
    if cut < len { PagesForMono(cut, len + t, size); }
  }

  lemma {:induction false} TotalMono(xs: seq<Paged>, ys: seq<Paged>, n: nat)
    requires n <= |xs| == |ys| && forall b {:trigger xs[b]} :: 0 <= b < n ==> xs[b].pages <= ys[b].pages
    ensures TotalPages(xs, n) <= TotalPages(ys, n)
  {
    if n > 0 {
      TotalMono(xs, ys, n - 1);
      assert xs[n - 1].pages <= ys[n - 1].pages;
    }
  }

  /** A chunk wants no more pages than all of the tokens. */
  lemma ChunkPages(ps: seq<Paged>, planned: seq<Paged>, r: seq<nat>, t: seq<nat>, fill: seq<nat>, cuts: seq<nat>, size: nat)
    requires size > 0 && Turn(ps, r, t, fill, cuts) && planned == GrownAll(CutAll(ps, cuts, size), fill, size)
    ensures TotalPages(planned, |ps|) <= TotalPages(GrownAll(ps, r, size), |ps|)
  {
    forall b | 0 <= b < |ps| ensures planned[b].pages <= GrownAll(ps, r, size)[b].pages {
      assert RowTurn(ps[b].row.allocLen, r[b], t[b], fill[b], cuts[b]);
      RowPages(ps[b], r[b], t[b], fill[b], cuts[b], size);
    }
    TotalMono(planned, GrownAll(ps, r, size), |ps|);
  }

  /** Nor does what remains behind it; the rows' tokens do not matter. */
  lemma RemainingPages(ps: seq<Paged>, planned: seq<Paged>, rows: seq<Row>, r: seq<nat>, t: seq<nat>, left: seq<nat>,
                       fill: seq<nat>, cuts: seq<nat>, size: nat)
    requires size > 0 && Turn(ps, r, t, fill, cuts) && planned == GrownAll(CutAll(ps, cuts, size), fill, size)
    requires |rows| == |left| == |ps|
    requires forall b {:trigger left[b]} :: 0 <= b < |ps| ==> left[b] + t[b] == r[b] && rows[b].allocLen == ps[b].row.allocLen + t[b]
    ensures TotalPages(GrownAll(WithRows(planned, rows), left, size), |ps|) <= TotalPages(GrownAll(ps, r, size), |ps|)
  {
    var after := GrownAll(WithRows(planned, rows), left, size);
    forall b | 0 <= b < |ps| ensures after[b].pages <= GrownAll(ps, r, size)[b].pages {
      assert left[b] + t[b] == r[b];
      assert RowTurn(ps[b].row.allocLen, r[b], t[b], fill[b], cuts[b]);
      RowPages(ps[b], r[b], t[b], fill[b], cuts[b], size);
    }
    TotalMono(after, GrownAll(ps, r, size), |ps|);
  }

  lemma TotalAtMost(ps: seq<Paged>, r: seq<nat>, size: nat)
    requires |r| == |ps| && size > 0
    ensures TotalPages(ps, |ps|) <= TotalPages(GrownAll(ps, r, size), |ps|)
  {
    TotalMono(ps, GrownAll(ps, r, size), |ps|);
  }

  // ---------------------------------------------------------------------
  // Counting shared pages

  /** Nothing is owed from position n on. */
  lemma PrivateBehind<S, P>(pool: Pool<S, P>, s: S, m: nat, n: nat)
    requires s in pool.sequences && m <= n && PrivateFrom(pool, s, PageOf(m, pool.pageSize))
    ensures Due(pool, s, n) == 0
  {
    PageOfMono(m, n, pool.pageSize);
    PrivateOwesNothing(pool, s, n);
  }

  lemma {:induction false} PageOfMono(m: nat, n: nat, size: nat)
    requires size > 0 && m <= n
    ensures PageOf(m, size) <= PageOf(n, size)
  {
    if m >= size { PageOfMono(m - size, n - size, size); }
  }

  /** The length at which a row will be cut when its next tokens are run. */
  function LastCut(r: Row, ids: seq<int>, mtp: bool): nat {
    if mtp && ids != [] && r.history != [] then Max(0, r.allocLen - 1) else r.allocLen
  }

  lemma UncutOwesNothing<S, P>(pool: Pool<S, P>, s: S)
    requires s in pool.sequences
    ensures Due(pool, s, pool.sequences[s].allocLen) == 0
  {
  }

  lemma EmptyOwesNothing<S, P>(pool: Pool<S, P>, now: Pool<S, P>, s: S, n: nat)
    requires Valid(pool) && s in pool.sequences && History(pool, s) == []
    requires KeepsPrivate(pool, now) && now.pageSize == pool.pageSize
    ensures s in now.sequences && Due(now, s, n) == 0
  {
    forall i | 0 <= i < |pool.sequences[s].pages|
      ensures pool.sequences[s].pages[i] in pool.pages && pool.pages[pool.sequences[s].pages[i]].refs == 1
    {
      EmptyIsPrivate(pool, s, i);
    }
    assert PrivateFrom(pool, s, 0);
    assert PageOf(0, now.pageSize) == 0;
    PrivateBehind(now, s, 0, n);
  }

  /** A deferred row owes no more than before. */
  lemma DeferredOwes<S, P>(pool: Pool<S, P>, now: Pool<S, P>, s: S, n: nat)
    requires Valid(pool) && Valid(now) && s in pool.sequences && s in now.sequences
    requires KeepsPrivate(pool, now) && now.pageSize == pool.pageSize
    requires RowOf(now, s) == RowOf(pool, s) && n + 1 == |History(pool, s)| == pool.sequences[s].allocLen
    ensures Due(now, s, n) <= Due(pool, s, n)
  {
    LastTokenOwesOne(pool, s, n);
    LastTokenOwesOne(now, s, n);
    if Due(pool, s, n) == 0 { PrivateOwesNothing(now, s, n); }
  }

  predicate SameOrUncut(len: nat, cut: nat, last: nat) { cut == last || cut == len }

  /** Cutting fewer of the rows owes no more. */
  lemma FewerCutsOwe<S, P>(pool: Pool<S, P>, seqs: seq<S>, rows: seq<Row>, cuts: seq<nat>, last: seq<nat>)
    requires Listed(pool, seqs, cuts) && Listed(pool, seqs, last) && rows == Rows(pool, seqs)
    requires forall b {:trigger SameOrUncut(rows[b].allocLen, cuts[b], last[b])} :: 0 <= b < |seqs| ==>
               SameOrUncut(rows[b].allocLen, cuts[b], last[b])
    ensures SumTo(Dues(pool, seqs, cuts), |seqs|) <= SumTo(Dues(pool, seqs, last), |seqs|)
  {
    var owed, foreseen := Dues(pool, seqs, cuts), Dues(pool, seqs, last);
    forall b | 0 <= b < |seqs| ensures owed[b] <= foreseen[b] {
      assert SameOrUncut(rows[b].allocLen, cuts[b], last[b]);
      UncutOwesNothing(pool, seqs[b]);
      assert owed[b] == Due(pool, seqs[b], cuts[b]) && foreseen[b] == Due(pool, seqs[b], last[b]);
    }
    SumToMono(owed, foreseen, |seqs|);
  }

  lemma {:induction false} SumsBelow(xs: seq<nat>, ys: seq<nat>, zs: seq<nat>, n: nat)
    requires n <= |xs| == |ys| == |zs| && forall b {:trigger xs[b]} :: 0 <= b < n ==> xs[b] + ys[b] <= zs[b]
    ensures SumTo(xs, n) + SumTo(ys, n) <= SumTo(zs, n)
  {
    if n > 0 {
      SumsBelow(xs, ys, zs, n - 1);
      assert xs[n - 1] + ys[n - 1] <= zs[n - 1];
    }
  }
}
