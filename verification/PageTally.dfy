/** Truncating a batch of sequences one after another: which cuts copy a page, which pages
    they free, and when they run out, told from the cache before the first cut
    (src/paged_sequence.ts). */
module PageTally {
  import opened Wrappers
  import opened TokenChunks
  import opened PagePool
  import opened PageLaws
  import opened PageGrowth
  import opened PageStock

  // ---------------------------------------------------------------------
  // One truncation

  function Ones(xs: seq<nat>): nat {
    if xs == [] then 0 else Ones(xs[..|xs| - 1]) + (if xs[|xs| - 1] == 1 then 1 else 0)
  }

  lemma {:induction false} OnesAreMembers(xs: seq<nat>)
    ensures Ones(xs) > 0 <==> 1 in xs
  {
    if xs != [] {
      OnesAreMembers(xs[..|xs| - 1]);
      assert xs == xs[..|xs| - 1] + [xs[|xs| - 1]];
    }
  }

  lemma OnesOfTail(xs: seq<nat>, k: nat)
    requires k < |xs|
    ensures Ones(xs[k..]) == Ones(xs[..|xs| - 1][k..]) + (if xs[|xs| - 1] == 1 then 1 else 0)
  {
    assert xs[k..][..|xs[k..]| - 1] == xs[..|xs| - 1][k..];
  }

  lemma PopTally<S, P>(pool: Pool<S, P>, s: S, k: nat)
    requires Closed(pool) && Counted(pool) && CanPop(pool, s) && k < |pool.sequences[s].pages|
    ensures var pages, pool' := pool.sequences[s].pages, PopPage(pool, s);
            |pool'.available| + Ones(RefCounts(pool'.pages, pages[..|pages| - 1])[k..])
            == |pool.available| + Ones(RefCounts(pool.pages, pages)[k..])
  {
    PopRefCounts(pool, s);
    HeldPageCounted(pool, s, Last(pool.sequences[s].pages));
    OnesOfTail(RefCounts(pool.pages, pool.sequences[s].pages), k);
  }

  /** Popping down frees one id for every page popped that nobody else holds. */
  lemma {:induction false} PopDownTally<S, P>(pool: Pool<S, P>, s: S, n: nat)
    requires Closed(pool) && Counted(pool) && s in pool.sequences && pool.sequences[s].allocLen == n
    requires n <= Times(|pool.sequences[s].pages|, pool.pageSize)
    ensures var pages, k := pool.sequences[s].pages, PagesFor(n, pool.pageSize);
            && k <= |pages|
            && |PopDown(pool, s, n).available| == |pool.available| + Ones(RefCounts(pool.pages, pages)[k..])
    decreases |pool.sequences[s].pages|
  {
    var pages, k := pool.sequences[s].pages, PagesFor(n, pool.pageSize);
    PagesForBounds(n, pool.pageSize);
    var last := |pages| - 1;
    var refs := RefCounts(pool.pages, pages);
    if pages != [] && n <= Times(last, pool.pageSize) {
      PopShape(pool, s);
      PopCounts(pool, s);
      PopDownTally(PopPage(pool, s), s, n);
      PopTally(pool, s, k);
    } else if pages != [] {
      if k <= last { TimesMono(k, last, pool.pageSize); }
      assert refs[k..] == [];
    }
  }

  /** The pages that truncating s to n gives up: from the one position n falls into. */
  function GivenUp<S, P>(pool: Pool<S, P>, s: S, n: nat): seq<P>
    requires s in pool.sequences
  {
    var v, k := pool.sequences[s], PageOf(n, pool.pageSize);
    if n < v.allocLen && k <= |v.pages| then v.pages[k..] else []
  }

  /** What truncating s to n frees when its pages have these reference counts. */
  function Freed(refs: seq<nat>, n: nat, size: nat): nat
    requires size > 0
  {
    if PagesFor(n, size) <= |refs| then Ones(refs[PagesFor(n, size)..]) else 0
  }

  /** Truncating to n cuts into a page that others hold as well. */
  ghost predicate CutsShared(refs: seq<nat>, n: nat, size: nat)
    requires size > 0
  {
    OffsetOf(n, size) != 0 && PageOf(n, size) < |refs| && refs[PageOf(n, size)] > 1
  }

  lemma CopiesIsCutsShared<S, P>(pool: Pool<S, P>, s: S, n: nat)
    requires s in pool.sequences
    ensures Copies(pool, s, n) <==> CutsShared(RefCounts(pool.pages, pool.sequences[s].pages), n, pool.pageSize)
  {
  }

  function Toll(copies: bool): nat { if copies then 1 else 0 }

  /** Sequence s keeps its pages up to position n, the last of them replaced by a copy when
      others hold it too. */
  ghost predicate CutPages<S, P>(pool: Pool<S, P>, pool': Pool<S, P>, s: S, n: nat, spare: P)
    requires s in pool.sequences
  {
    && s in pool'.sequences && pool'.sequences == pool.sequences[s := pool'.sequences[s]]
    && pool.pages.Keys <= pool'.pages.Keys && pool'.pageSize == pool.pageSize
    && (spare !in pool.pages || !Copies(pool, s, n))
    && var pages, pages', c := pool.sequences[s].pages, pool'.sequences[s].pages, PageOf(n, pool.pageSize);
       && c <= |pages|
       && if OffsetOf(n, pool.pageSize) == 0 then pages' == pages[..c]
          else if Copies(pool, s, n) then pages' == pages[..c] + [spare]
          else c < |pages| && pages' == pages[..c + 1]
  }

  /** The second half of truncation on the pages alone. */
  lemma CutTailPages<S, P>(kept: Pool<S, P>, s: S, k: nat, o: nat, spare: P)
    requires s in kept.sequences && |kept.sequences[s].pages| == k + 1 && kept.sequences[s].pages[k] in kept.pages
    ensures var pages, result := kept.sequences[s].pages, CutTail(kept, s, k, o, spare);
            var copies := kept.pages[pages[k]].refs > 1;
            result.Done? ==>
              && s in result.pool.sequences && result.pool.sequences == kept.sequences[s := result.pool.sequences[s]]
              && result.pool.sequences[s].pages == (if copies then pages[..k] + [spare] else pages)
              && |result.pool.available| == |kept.available| - Toll(copies)
              && kept.pages.Keys <= result.pool.pages.Keys && result.pool.pageSize == kept.pageSize
  {
    var pages := kept.sequences[s].pages;
    assert pages[k := spare] == pages[..k] + [spare];
  }

  lemma KeptTailPages<S, P>(pool: Pool<S, P>, s: S, n: nat)
    requires Valid(pool) && s in pool.sequences && n < pool.sequences[s].allocLen && OffsetOf(n, pool.pageSize) != 0
    ensures var kept, k, pages := Kept(pool, s, n), PageOf(n, pool.pageSize), pool.sequences[s].pages;
            && k < |pages| && s in kept.sequences && kept.sequences[s].pages == pages[..k + 1]
            && pages[k] in kept.pages && (kept.pages[pages[k]].refs > 1 <==> Copies(pool, s, n))
  {
    HistoryFits(pool, s);
    KeptLastPage(pool, s, n);
    KeptSequences(pool, s, n);
  }

  lemma KeptPages<S, P>(pool: Pool<S, P>, s: S, n: nat)
    requires Valid(pool) && s in pool.sequences && n < pool.sequences[s].allocLen
    ensures var kept := Kept(pool, s, n);
            && s in kept.sequences && kept.sequences == pool.sequences[s := kept.sequences[s]]
            && PagesFor(n, pool.pageSize) <= |pool.sequences[s].pages|
            && kept.sequences[s].pages == pool.sequences[s].pages[..PagesFor(n, pool.pageSize)]
            && kept.pages.Keys == pool.pages.Keys && kept.pageSize == pool.pageSize
            && |kept.available| == |pool.available| + Freed(RefCounts(pool.pages, pool.sequences[s].pages), n, pool.pageSize)
  {
    HistoryFits(pool, s);
    RetargetConserves(pool, s, n, pool.sequences[s].targetToken);
    PopDownTally(Retarget(pool, s, n, pool.sequences[s].targetToken), s, n);
    KeptSequences(pool, s, n);
    KeptConserves(pool, s, n);
  }

  lemma TruncateIsKeptThenCut<S, P>(pool: Pool<S, P>, s: S, n: nat, spare: P)
    requires Valid(pool) && s in pool.sequences && n < pool.sequences[s].allocLen && s in Kept(pool, s, n).sequences
    ensures Truncate(pool, s, n, spare)
         == if OffsetOf(n, pool.pageSize) == 0 then Done(Kept(pool, s, n))
            else CutTail(Kept(pool, s, n), s, PageOf(n, pool.pageSize), OffsetOf(n, pool.pageSize), spare)
  {
  }

  /** Truncation leaves the free list with the freed ids less that of the copy. */
  lemma TruncatePages<S, P>(pool: Pool<S, P>, pool': Pool<S, P>, s: S, n: nat, spare: P)
    requires Valid(pool) && s in pool.sequences && n < pool.sequences[s].allocLen
    requires Truncate(pool, s, n, spare) == Done(pool') && (spare !in pool.pages || !Copies(pool, s, n))
    ensures CutPages(pool, pool', s, n, spare)
    ensures |pool'.available| == |pool.available| + Freed(RefCounts(pool.pages, pool.sequences[s].pages), n, pool.pageSize)
                                 - Toll(Copies(pool, s, n))
  {
    KeptPages(pool, s, n);
    TruncateIsKeptThenCut(pool, s, n, spare);
    PageArithmetic(n, pool.pageSize);
    if OffsetOf(n, pool.pageSize) != 0 { CutTailFrom(pool, Kept(pool, s, n), s, n, spare); }
  }

  lemma CutTailFrom<S, P>(pool: Pool<S, P>, kept: Pool<S, P>, s: S, n: nat, spare: P)
    requires Valid(pool) && s in pool.sequences && n < pool.sequences[s].allocLen && OffsetOf(n, pool.pageSize) != 0
    requires kept == Kept(pool, s, n)
    ensures var k, pages := PageOf(n, pool.pageSize), pool.sequences[s].pages;
            && k < |pages| && s in kept.sequences
            && var result := CutTail(kept, s, k, OffsetOf(n, pool.pageSize), spare);
               result.Done? ==>
                 && s in result.pool.sequences && result.pool.sequences == kept.sequences[s := result.pool.sequences[s]]
                 && result.pool.sequences[s].pages == (if Copies(pool, s, n) then pages[..k] + [spare] else pages[..k + 1])
                 && |result.pool.available| == |kept.available| - Toll(Copies(pool, s, n))
                 && kept.pages.Keys <= result.pool.pages.Keys && result.pool.pageSize == kept.pageSize
  {
    KeptTailPages(pool, s, n);
    var pages, k := pool.sequences[s].pages, PageOf(n, pool.pageSize);
    assert pages[..k + 1][k] == pages[k] && pages[..k + 1][..k] == pages[..k];
    CutTailPages(kept, s, k, OffsetOf(n, pool.pageSize), spare);
  }

  /** Nobody but s has taken a page or left one. Where others hold a page too, s has left
      it if it gave it up. */
  ghost predicate Departed<S, P>(pool: Pool<S, P>, pool': Pool<S, P>, s: S, n: nat)
    requires s in pool.sequences
  {
    forall p {:trigger Holders(pool', p)} | p in pool.pages && Holders(pool, p) - {s} != {} ::
      Holders(pool', p) == if p in GivenUp(pool, s, n) then Holders(pool, p) - {s} else Holders(pool, p)
  }

  /** What nobody else held is still held by nobody else. */
  ghost predicate KeepsPrivate<S, P>(pool: Pool<S, P>, pool': Pool<S, P>) {
    forall s, k: nat {:trigger PrivateFrom(pool', s, k)} {:trigger PrivateFrom(pool, s, k)} | s in pool.sequences && PrivateFrom(pool, s, k) ::
      s in pool'.sequences && PrivateFrom(pool', s, k)
  }

  lemma KeepsPrivateTransitive<S, P>(x: Pool<S, P>, y: Pool<S, P>, z: Pool<S, P>)
    requires KeepsPrivate(x, y) && KeepsPrivate(y, z)
    ensures KeepsPrivate(x, z)
  {
    forall s, k: nat | s in x.sequences && PrivateFrom(x, s, k) ensures s in z.sequences && PrivateFrom(z, s, k) {
      assert s in y.sequences && PrivateFrom(y, s, k);
    }
  }

  /** The pages s has now are those it had at the same place, or new ones. */
  ghost predicate OwnOrNew<S, P>(pool: Pool<S, P>, pool': Pool<S, P>, s: S) {
    && s in pool.sequences && s in pool'.sequences && pool'.sequences == pool.sequences[s := pool'.sequences[s]]
    && var pages, pages' := pool.sequences[s].pages, pool'.sequences[s].pages;
       forall i {:trigger pages'[i]} :: 0 <= i < |pages'| ==> (i < |pages| && pages'[i] == pages[i]) || pages'[i] !in pool.pages
  }

  lemma PrivateStays<S, P>(pool: Pool<S, P>, pool': Pool<S, P>, s: S)
    requires Conserved(pool) && Conserved(pool') && OwnOrNew(pool, pool', s)
    ensures KeepsPrivate(pool, pool')
  {
    forall t, k: nat | t in pool.sequences && PrivateFrom(pool, t, k) ensures PrivateFrom(pool', t, k) {
      var pages' := pool'.sequences[t].pages;
      forall i | k <= i < |pages'| ensures pages'[i] in pool'.pages && pool'.pages[pages'[i]].refs == 1 {
        PrivateStaysAt(pool, pool', s, t, k, i);
      }
    }
  }

  lemma PrivateStaysAt<S, P>(pool: Pool<S, P>, pool': Pool<S, P>, s: S, t: S, k: nat, i: nat)
    requires Conserved(pool) && Conserved(pool') && OwnOrNew(pool, pool', s)
    requires t in pool.sequences && PrivateFrom(pool, t, k) && k <= i < |pool'.sequences[t].pages|
    ensures var p := pool'.sequences[t].pages[i]; p in pool'.pages && pool'.pages[p].refs == 1
  {
    var p := pool'.sequences[t].pages[i];
    assert p in pool'.sequences[t].pages;
    if p in pool.pages {
      assert p == pool.sequences[t].pages[i];
      HeldPageCounted(pool, t, p);
      assert Holders(pool, p) == {t};
    }
    HeldPageCounted(pool', t, p);
    assert forall u | u in pool.sequences :: ClosedAt(pool, u);
    assert Holders(pool', p) == {t};
  }

  /** Growing s by new pages takes nobody's pages. */
  lemma GrowthKeepsPrivate<S, P>(pool: Pool<S, P>, pool': Pool<S, P>, s: S, h: seq<int>, n: nat, t: Option<int>)
    requires Conserved(pool) && s in pool.sequences && Extended(pool, pool', s, h, n, t)
    requires var pages, pages' := pool.sequences[s].pages, pool'.sequences[s].pages;
             forall i {:trigger pages'[i]} :: |pages| <= i < |pages'| ==> pages'[i] !in pool.pages
    ensures KeepsPrivate(pool, pool')
  {
    forall u | u in pool.sequences && u != s ensures pool'.sequences[u] == pool.sequences[u] { assert ReadsSame(pool, pool', u); }
    var pages, pages' := pool.sequences[s].pages, pool'.sequences[s].pages;
    forall i | 0 <= i < |pages| ensures pages'[i] == pages[i] { assert pages'[..|pages|][i] == pages[i]; }
    PrivateStays(pool, pool', s);
  }

  /** The whole effect of truncating s to n on who holds which page. */
  ghost predicate Recounted<S, P>(pool: Pool<S, P>, pool': Pool<S, P>, s: S, n: nat)
    requires s in pool.sequences
  {
    if n < pool.sequences[s].allocLen then
      && s in pool'.sequences && pool'.sequences == pool.sequences[s := pool'.sequences[s]]
      && pool.pages.Keys <= pool'.pages.Keys && pool'.pageSize == pool.pageSize
      && |pool'.available| == |pool.available| + Freed(RefCounts(pool.pages, pool.sequences[s].pages), n, pool.pageSize)
                              - Toll(Copies(pool, s, n))
      && Departed(pool, pool', s, n) && KeepsPrivate(pool, pool') && PrivateFrom(pool', s, PageOf(n, pool.pageSize))
    else pool' == pool
  }

  lemma TruncateRecounts<S, P>(pool: Pool<S, P>, pool': Pool<S, P>, s: S, n: nat, spare: P)
    requires Valid(pool) && s in pool.sequences && n < pool.sequences[s].allocLen
    requires Truncate(pool, s, n, spare) == Done(pool') && Conserved(pool')
    requires spare !in pool.pages || !Copies(pool, s, n)
    ensures Recounted(pool, pool', s, n)
  {
    TruncatePages(pool, pool', s, n, spare);
    TruncateDeparts(pool, pool', s, n, spare);
    PrivateStays(pool, pool', s);
    TailIsPrivate(pool, pool', s, n, spare);
  }

  lemma TruncateDeparts<S, P>(pool: Pool<S, P>, pool': Pool<S, P>, s: S, n: nat, spare: P)
    requires Conserved(pool) && s in pool.sequences && n < pool.sequences[s].allocLen && CutPages(pool, pool', s, n, spare)
    ensures Departed(pool, pool', s, n)
  {
    forall p | p in pool.pages && Holders(pool, p) - {s} != {}
      ensures Holders(pool', p) == if p in GivenUp(pool, s, n) then Holders(pool, p) - {s} else Holders(pool, p)
    {
      HoldersUpdate(pool, pool', s, p);
      if p in pool.sequences[s].pages { LeavesShared(pool, pool', s, n, spare, p); }
    }
  }

  lemma LeavesShared<S, P>(pool: Pool<S, P>, pool': Pool<S, P>, s: S, n: nat, spare: P, p: P)
    requires Conserved(pool) && s in pool.sequences && n < pool.sequences[s].allocLen && CutPages(pool, pool', s, n, spare)
    requires p in pool.sequences[s].pages && Holders(pool, p) - {s} != {}
    ensures p in pool'.sequences[s].pages <==> p !in GivenUp(pool, s, n)
  {
    assert ClosedAt(pool, s);
    SharedIsCopied(pool, s, n, p);
    LeavesPage(pool.sequences[s].pages, pool'.sequences[s].pages, PageOf(n, pool.pageSize), spare, p);
  }

  /** A page that others hold is not the one a cut keeps without a copy. */
  lemma SharedIsCopied<S, P>(pool: Pool<S, P>, s: S, n: nat, p: P)
    requires Conserved(pool) && s in pool.sequences && p in pool.sequences[s].pages && Holders(pool, p) - {s} != {}
    ensures p in pool.pages && pool.pages[p].refs > 1
    ensures var pages, c := pool.sequences[s].pages, PageOf(n, pool.pageSize);
            OffsetOf(n, pool.pageSize) != 0 && c < |pages| && pages[c] == p ==> Copies(pool, s, n)
  {
    HeldPageCounted(pool, s, p);
  }

  /** Of the distinct pages, those from c on are gone, but perhaps the one at c. */
  lemma LeavesPage<P>(pages: seq<P>, pages': seq<P>, c: nat, spare: P, p: P)
    requires NoDup(pages) && c <= |pages| && p in pages
    requires pages' == pages[..c] || (p != spare && pages' == pages[..c] + [spare]) || (c < |pages| && pages[c] != p && pages' == pages[..c + 1])
    ensures p in pages' <==> p !in pages[c..]
  {
    assert pages == pages[..c] + pages[c..];
  }

  lemma TailIsPrivate<S, P>(pool: Pool<S, P>, pool': Pool<S, P>, s: S, n: nat, spare: P)
    requires Conserved(pool) && Conserved(pool') && s in pool.sequences && CutPages(pool, pool', s, n, spare)
    ensures PrivateFrom(pool', s, PageOf(n, pool.pageSize))
  {
    var pages, pages', c := pool.sequences[s].pages, pool'.sequences[s].pages, PageOf(n, pool.pageSize);
    forall i | c <= i < |pages'| ensures pages'[i] in pool'.pages && pool'.pages[pages'[i]].refs == 1 {
      assert pages'[i] in pages';
      if !Copies(pool, s, n) {
        assert pages'[i] == pages[c] && pages[c] in pages;
        HeldPageCounted(pool, s, pages[c]);
      }
      HeldAlone(pool, pool', s, pages'[i]);
    }
  }

  /** What s holds now, and nobody else held before, s holds alone. */
  lemma HeldAlone<S, P>(pool: Pool<S, P>, pool': Pool<S, P>, s: S, p: P)
    requires Conserved(pool) && Conserved(pool') && s in pool.sequences && s in pool'.sequences
    requires pool'.sequences == pool.sequences[s := pool'.sequences[s]] && p in pool'.sequences[s].pages
    requires p !in pool.pages || Holders(pool, p) <= {s}
    ensures p in pool'.pages && pool'.pages[p].refs == 1
  {
    HeldPageCounted(pool', s, p);
    assert forall u | u in pool.sequences :: ClosedAt(pool, u);
    assert forall u | u in pool.sequences && p in pool.sequences[u].pages :: u in Holders(pool, p);
    assert Holders(pool', p) == {s};
  }

  // ---------------------------------------------------------------------
  // A batch of truncations, told from the pool before the first

  ghost predicate Listed<S, P>(pool: Pool<S, P>, seqs: seq<S>, lens: seq<nat>) {
    Distinct(seqs) && |lens| == |seqs| && forall b {:trigger seqs[b]} :: 0 <= b < |seqs| ==> seqs[b] in pool.sequences
  }

  /** Who holds page p once the first j sequences are cut. */
  ghost function HoldersLeft<S, P>(pool: Pool<S, P>, seqs: seq<S>, lens: seq<nat>, j: nat, p: P): set<S>
    requires Listed(pool, seqs, lens) && j <= |seqs|
  {
    if j == 0 then Holders(pool, p)
    else if p in GivenUp(pool, seqs[j - 1], lens[j - 1]) then HoldersLeft(pool, seqs, lens, j - 1, p) - {seqs[j - 1]}
    else HoldersLeft(pool, seqs, lens, j - 1, p)
  }

  /** The reference counts that sequence j finds on its pages when its turn comes. */
  ghost function TurnRefs<S, P>(pool: Pool<S, P>, seqs: seq<S>, lens: seq<nat>, j: nat): (refs: seq<nat>)
    requires Listed(pool, seqs, lens) && j < |seqs|
    ensures |refs| == |pool.sequences[seqs[j]].pages|
    ensures forall i :: 0 <= i < |refs| ==> refs[i] == |HoldersLeft(pool, seqs, lens, j, pool.sequences[seqs[j]].pages[i])|
  {
    var pages := pool.sequences[seqs[j]].pages;
    seq(|pages|, i requires 0 <= i < |pages| => |HoldersLeft(pool, seqs, lens, j, pages[i])|)
  }

  ghost predicate CopiesAt<S, P>(pool: Pool<S, P>, seqs: seq<S>, lens: seq<nat>, j: nat)
    requires Listed(pool, seqs, lens) && j < |seqs|
  {
    lens[j] < pool.sequences[seqs[j]].allocLen && CutsShared(TurnRefs(pool, seqs, lens, j), lens[j], pool.pageSize)
  }

  ghost function FreedAt<S, P>(pool: Pool<S, P>, seqs: seq<S>, lens: seq<nat>, j: nat): nat
    requires Listed(pool, seqs, lens) && j < |seqs|
  {
    if lens[j] < pool.sequences[seqs[j]].allocLen then Freed(TurnRefs(pool, seqs, lens, j), lens[j], pool.pageSize) else 0
  }

  /** Free pages after the first j truncations. */
  ghost function FreeAfter<S, P>(pool: Pool<S, P>, seqs: seq<S>, lens: seq<nat>, j: nat): int
    requires Listed(pool, seqs, lens) && j <= |seqs|
  {
    if j == 0 then |pool.available|
    else FreeAfter(pool, seqs, lens, j - 1) + FreedAt(pool, seqs, lens, j - 1) - Toll(CopiesAt(pool, seqs, lens, j - 1))
  }

  /** Sequence j, if it has to copy a page, finds one free or frees one itself. */
  ghost predicate FitsAt<S, P>(pool: Pool<S, P>, seqs: seq<S>, lens: seq<nat>, j: nat)
    requires Listed(pool, seqs, lens) && j < |seqs|
  {
    CopiesAt(pool, seqs, lens, j) ==> FreeAfter(pool, seqs, lens, j) + FreedAt(pool, seqs, lens, j) > 0
  }

  /** None of the first n truncations runs out of pages. */
  ghost predicate CutsFit<S, P>(pool: Pool<S, P>, seqs: seq<S>, lens: seq<nat>, n: nat)
    requires Listed(pool, seqs, lens) && n <= |seqs|
  {
    forall j {:trigger FitsAt(pool, seqs, lens, j)} :: 0 <= j < n ==> FitsAt(pool, seqs, lens, j)
  }

  /** Sequence s is as it was, and its pages have the holders the tally expects. */
  ghost predicate AsTallied<S, P>(pool: Pool<S, P>, now: Pool<S, P>, seqs: seq<S>, lens: seq<nat>, j: nat, s: S)
    requires Listed(pool, seqs, lens) && j <= |seqs|
  {
    && s in pool.sequences && s in now.sequences && now.sequences[s] == pool.sequences[s]
    && forall p {:trigger Holders(now, p)} | p in pool.sequences[s].pages ::
         p in now.pages && Holders(now, p) == HoldersLeft(pool, seqs, lens, j, p)
  }

  /** The pool after the first j truncations, as far as the others will notice. */
  ghost predicate Tallied<S, P>(pool: Pool<S, P>, now: Pool<S, P>, seqs: seq<S>, lens: seq<nat>, j: nat)
    requires Listed(pool, seqs, lens) && j <= |seqs|
  {
    && now.pageSize == pool.pageSize && |now.available| == FreeAfter(pool, seqs, lens, j)
    && forall b {:trigger seqs[b]} :: j <= b < |seqs| ==> AsTallied(pool, now, seqs, lens, j, seqs[b])
  }

  lemma TallyStart<S, P>(pool: Pool<S, P>, seqs: seq<S>, lens: seq<nat>)
    requires Closed(pool) && Listed(pool, seqs, lens)
    ensures Tallied(pool, pool, seqs, lens, 0)
  {
    assert forall b {:trigger seqs[b]} :: 0 <= b < |seqs| ==> ClosedAt(pool, seqs[b]);
  }

  lemma TurnIsTallied<S, P>(pool: Pool<S, P>, now: Pool<S, P>, seqs: seq<S>, lens: seq<nat>, j: nat)
    requires Listed(pool, seqs, lens) && j < |seqs| && Tallied(pool, now, seqs, lens, j) && Counted(now)
    ensures seqs[j] in now.sequences && now.sequences[seqs[j]] == pool.sequences[seqs[j]]
    ensures RefCounts(now.pages, pool.sequences[seqs[j]].pages) == TurnRefs(pool, seqs, lens, j)
  {
    assert AsTallied(pool, now, seqs, lens, j, seqs[j]);
    var pages := pool.sequences[seqs[j]].pages;
    forall i | 0 <= i < |pages| ensures RefCounts(now.pages, pages)[i] == TurnRefs(pool, seqs, lens, j)[i] {
      assert pages[i] in pages;
      assert Holders(now, pages[i]) == HoldersLeft(pool, seqs, lens, j, pages[i]);
    }
  }

  /** The next truncation runs out exactly when the tally says so. */
  lemma RunsOutAsTallied<S, P>(pool: Pool<S, P>, now: Pool<S, P>, seqs: seq<S>, lens: seq<nat>, j: nat)
    requires Listed(pool, seqs, lens) && j < |seqs| && Tallied(pool, now, seqs, lens, j) && Counted(now)
    ensures seqs[j] in now.sequences
    ensures lens[j] < now.sequences[seqs[j]].allocLen && RunsOut(now, seqs[j], lens[j]) <==> !FitsAt(pool, seqs, lens, j)
  {
    TurnIsTallied(pool, now, seqs, lens, j);
    CopiesIsCutsShared(now, seqs[j], lens[j]);
    var refs, k := TurnRefs(pool, seqs, lens, j), PagesFor(lens[j], pool.pageSize);
    if k <= |refs| {
      OnesAreMembers(refs[k..]);
      if k == |refs| { assert refs[k..] == []; }
    }
  }

  lemma TallyNext<S, P>(pool: Pool<S, P>, now: Pool<S, P>, next: Pool<S, P>, seqs: seq<S>, lens: seq<nat>, j: nat)
    requires Listed(pool, seqs, lens) && j < |seqs| && Tallied(pool, now, seqs, lens, j) && Counted(now)
    requires seqs[j] in now.sequences && Recounted(now, next, seqs[j], lens[j])
    ensures Tallied(pool, next, seqs, lens, j + 1)
  {
    TurnIsTallied(pool, now, seqs, lens, j);
    CopiesIsCutsShared(now, seqs[j], lens[j]);
    forall b | j < b < |seqs| ensures AsTallied(pool, next, seqs, lens, j + 1, seqs[b]) {
      OtherTallied(pool, now, next, seqs, lens, j, b);
    }
  }

  lemma OtherTallied<S, P>(pool: Pool<S, P>, now: Pool<S, P>, next: Pool<S, P>, seqs: seq<S>, lens: seq<nat>, j: nat, b: nat)
    requires Listed(pool, seqs, lens) && j < b < |seqs| && Tallied(pool, now, seqs, lens, j)
    requires seqs[j] in now.sequences && now.sequences[seqs[j]] == pool.sequences[seqs[j]]
    requires Recounted(now, next, seqs[j], lens[j])
    ensures AsTallied(pool, next, seqs, lens, j + 1, seqs[b])
  {
    var s, t := seqs[j], seqs[b];
    assert Differ(seqs, j, b);
    assert AsTallied(pool, now, seqs, lens, j, t);
    assert GivenUp(now, s, lens[j]) == GivenUp(pool, s, lens[j]);
    forall p | p in pool.sequences[t].pages
      ensures p in next.pages && Holders(next, p) == HoldersLeft(pool, seqs, lens, j + 1, p)
    {
      assert Holders(now, p) == HoldersLeft(pool, seqs, lens, j, p);
      assert t in Holders(now, p) - {s};
      assert lens[j] < now.sequences[s].allocLen ==> p in now.pages;
    }
  }

  /** The sequences that were cut hold what is left behind their cuts alone. */
  ghost predicate PrivateCuts<S, P>(pool: Pool<S, P>, now: Pool<S, P>, seqs: seq<S>, lens: seq<nat>, j: nat)
    requires Listed(pool, seqs, lens) && j <= |seqs|
  {
    forall b {:trigger seqs[b]} :: 0 <= b < j && lens[b] < pool.sequences[seqs[b]].allocLen ==>
      seqs[b] in now.sequences && PrivateFrom(now, seqs[b], PageOf(lens[b], pool.pageSize))
  }

  /** Where a batch of truncations stands after its first j. */
  ghost predicate Course<S, P>(pool: Pool<S, P>, now: Pool<S, P>, seqs: seq<S>, lens: seq<nat>, j: nat) {
    && Listed(pool, seqs, lens) && j <= |seqs|
    && Tallied(pool, now, seqs, lens, j) && CutsFit(pool, seqs, lens, j)
    && KeepsPrivate(pool, now) && PrivateCuts(pool, now, seqs, lens, j)
  }

  lemma CourseStart<S, P>(pool: Pool<S, P>, seqs: seq<S>, lens: seq<nat>)
    requires Closed(pool) && Listed(pool, seqs, lens)
    ensures Course(pool, pool, seqs, lens, 0)
  {
    TallyStart(pool, seqs, lens);
  }

  lemma PrivateCutsNext<S, P>(pool: Pool<S, P>, now: Pool<S, P>, next: Pool<S, P>, seqs: seq<S>, lens: seq<nat>, j: nat)
    requires Listed(pool, seqs, lens) && j < |seqs| && PrivateCuts(pool, now, seqs, lens, j) && KeepsPrivate(now, next)
    requires lens[j] < pool.sequences[seqs[j]].allocLen ==>
               seqs[j] in next.sequences && PrivateFrom(next, seqs[j], PageOf(lens[j], pool.pageSize))
    ensures PrivateCuts(pool, next, seqs, lens, j + 1)
  {
    forall b | 0 <= b < j + 1 && lens[b] < pool.sequences[seqs[b]].allocLen
      ensures seqs[b] in next.sequences && PrivateFrom(next, seqs[b], PageOf(lens[b], pool.pageSize))
    {
      if b < j { assert PrivateFrom(now, seqs[b], PageOf(lens[b], pool.pageSize)); }
    }
  }

  lemma CutsFitNext<S, P>(pool: Pool<S, P>, seqs: seq<S>, lens: seq<nat>, j: nat)
    requires Listed(pool, seqs, lens) && j < |seqs| && CutsFit(pool, seqs, lens, j) && FitsAt(pool, seqs, lens, j)
    ensures CutsFit(pool, seqs, lens, j + 1)
  {
  }

  lemma RecountedKeeps<S, P>(now: Pool<S, P>, next: Pool<S, P>, s: S, n: nat)
    requires s in now.sequences && Recounted(now, next, s, n)
    ensures KeepsPrivate(now, next)
    ensures n < now.sequences[s].allocLen ==> s in next.sequences && PrivateFrom(next, s, PageOf(n, now.pageSize))
  {
  }

  lemma CourseNext<S, P>(pool: Pool<S, P>, now: Pool<S, P>, next: Pool<S, P>, seqs: seq<S>, lens: seq<nat>, j: nat)
    requires Course(pool, now, seqs, lens, j) && j < |seqs| && Counted(now) && FitsAt(pool, seqs, lens, j)
    requires seqs[j] in now.sequences && Recounted(now, next, seqs[j], lens[j])
    ensures Course(pool, next, seqs, lens, j + 1)
  {
    TallyNext(pool, now, next, seqs, lens, j);
    TurnIsTallied(pool, now, seqs, lens, j);
    RecountedKeeps(now, next, seqs[j], lens[j]);
    KeepsPrivateTransitive(pool, now, next);
    PrivateCutsNext(pool, now, next, seqs, lens, j);
    CutsFitNext(pool, seqs, lens, j);
  }

  // ---------------------------------------------------------------------
  // A bound

  function Shared(refs: seq<nat>): nat {
    if refs == [] then 0 else Shared(refs[..|refs| - 1]) + Toll(refs[|refs| - 1] > 1)
  }

  /** The pages that truncating s to n gives up and that others hold as well. */
  function Due<S, P>(pool: Pool<S, P>, s: S, n: nat): nat
    requires s in pool.sequences
  {
    Shared(RefCounts(pool.pages, GivenUp(pool, s, n)))
  }

  lemma DueOfTail<S, P>(pool: Pool<S, P>, s: S, n: nat)
    requires s in pool.sequences && n < pool.sequences[s].allocLen
    requires PageOf(n, pool.pageSize) <= |pool.sequences[s].pages|
    ensures Due(pool, s, n) == Shared(RefCounts(pool.pages, pool.sequences[s].pages)[PageOf(n, pool.pageSize)..])
  {
    assert RefCounts(pool.pages, pool.sequences[s].pages)[PageOf(n, pool.pageSize)..] == RefCounts(pool.pages, GivenUp(pool, s, n));
  }

  ghost function Dues<S, P>(pool: Pool<S, P>, seqs: seq<S>, lens: seq<nat>): (r: seq<nat>)
    requires Listed(pool, seqs, lens)
    ensures |r| == |seqs| && forall b {:trigger r[b]} :: 0 <= b < |r| ==> r[b] == Due(pool, seqs[b], lens[b])
  {
    seq(|seqs|, b requires 0 <= b < |seqs| => Due(pool, seqs[b], lens[b]))
  }

  lemma {:induction false} SharedOfCons(x: nat, xs: seq<nat>)
    ensures Shared([x] + xs) == Toll(x > 1) + Shared(xs)
  {
    if xs == [] {
      assert [x] + xs == [x];
    } else {
      SharedOfCons(x, xs[..|xs| - 1]);
      assert ([x] + xs)[..|xs|] == [x] + xs[..|xs| - 1];
    }
  }

  /** Of pages with so many holders left, each becomes free or was shared. */
  lemma {:induction false} FreedOrShared(turn: seq<nat>, refs: seq<nat>)
    requires |turn| == |refs| && forall i :: 0 <= i < |turn| ==> 1 <= turn[i] <= refs[i]
    ensures |turn| <= Ones(turn) + Shared(refs)
  {
    if turn != [] { FreedOrShared(turn[..|turn| - 1], refs[..|refs| - 1]); }
  }

  lemma {:induction false} LeftBound<S, P>(pool: Pool<S, P>, seqs: seq<S>, lens: seq<nat>, j: nat, b: nat, p: P)
    requires Listed(pool, seqs, lens) && j <= b < |seqs| && p in pool.sequences[seqs[b]].pages
    ensures seqs[b] in HoldersLeft(pool, seqs, lens, j, p) && HoldersLeft(pool, seqs, lens, j, p) <= Holders(pool, p)
  {
    if j > 0 {
      LeftBound(pool, seqs, lens, j - 1, b, p);
      assert Differ(seqs, j - 1, b);
    }
  }

  lemma SubsetSize<T>(xs: set<T>, ys: set<T>, x: T)
    requires x in xs && xs <= ys
    ensures 1 <= |xs| <= |ys|
  {
    assert ys == xs + (ys - xs);
  }

  lemma TurnBound<S, P>(pool: Pool<S, P>, seqs: seq<S>, lens: seq<nat>, j: nat)
    requires Closed(pool) && Counted(pool) && Listed(pool, seqs, lens) && j < |seqs|
    ensures var turn, refs := TurnRefs(pool, seqs, lens, j), RefCounts(pool.pages, pool.sequences[seqs[j]].pages);
            forall i :: 0 <= i < |turn| ==> 1 <= turn[i] <= refs[i]
  {
    var turn, pages := TurnRefs(pool, seqs, lens, j), pool.sequences[seqs[j]].pages;
    assert ClosedAt(pool, seqs[j]);
    forall i | 0 <= i < |turn| ensures 1 <= turn[i] <= RefCounts(pool.pages, pages)[i] {
      assert pages[i] in pages;
      LeftBound(pool, seqs, lens, j, j, pages[i]);
      SubsetSize(HoldersLeft(pool, seqs, lens, j, pages[i]), Holders(pool, pages[i]), seqs[j]);
    }
  }

  lemma PageCount(n: nat, size: nat)
    requires size > 0
    ensures PagesFor(n, size) == PageOf(n, size) + (if OffsetOf(n, size) == 0 then 0 else 1)
  {
    PageArithmetic(n, size);
  }

  lemma CutCost(turn: seq<nat>, refs: seq<nat>, n: nat, size: nat)
    requires size > 0 && |turn| == |refs| && PagesFor(n, size) <= |turn| && forall i :: 0 <= i < |turn| ==> 1 <= turn[i] <= refs[i]
    ensures PageOf(n, size) <= |refs|
    ensures Toll(CutsShared(turn, n, size)) + |turn| <= Freed(turn, n, size) + PagesFor(n, size) + Shared(refs[PageOf(n, size)..])
    ensures CutsShared(turn, n, size) ==> Shared(refs[PageOf(n, size)..]) > 0
  {
    PageCount(n, size);
    var c, k := PageOf(n, size), PagesFor(n, size);
    FreedOrShared(turn[k..], refs[k..]);
    if OffsetOf(n, size) != 0 {
      SharedOfCons(refs[c], refs[k..]);
      assert refs[c..] == [refs[c]] + refs[k..];
    }
  }

  /** What the turn of sequence j takes from the free pages, against the pages it drops. */
  lemma TurnCost<S, P>(pool: Pool<S, P>, seqs: seq<S>, lens: seq<nat>, j: nat)
    requires Valid(pool) && Listed(pool, seqs, lens) && j < |seqs| && lens[j] < pool.sequences[seqs[j]].allocLen
    ensures var pages, k := pool.sequences[seqs[j]].pages, PagesFor(lens[j], pool.pageSize);
            && k <= |pages|
            && Toll(CopiesAt(pool, seqs, lens, j)) + |pages| <= FreedAt(pool, seqs, lens, j) + k + Due(pool, seqs[j], lens[j])
            && (CopiesAt(pool, seqs, lens, j) ==> Due(pool, seqs[j], lens[j]) > 0)
  {
    var s, n, size := seqs[j], lens[j], pool.pageSize;
    var pages := pool.sequences[s].pages;
    HistoryFits(pool, s);
    PagesForBounds(n, size);
    TurnBound(pool, seqs, lens, j);
    CutCost(TurnRefs(pool, seqs, lens, j), RefCounts(pool.pages, pages), n, size);
    DueOfTail(pool, s, n);
  }

  /** The pages s has, and those it has after its cut. */
  function PagesOf<S, P>(pool: Pool<S, P>, s: S): nat
    requires s in pool.sequences
  {
    |pool.sequences[s].pages|
  }

  function PagesLeft<S, P>(pool: Pool<S, P>, s: S, n: nat): nat
    requires s in pool.sequences
  {
    if n < pool.sequences[s].allocLen then PagesFor(n, pool.pageSize) else PagesOf(pool, s)
  }

  lemma TurnBalance<S, P>(pool: Pool<S, P>, seqs: seq<S>, lens: seq<nat>, j: nat)
    requires Valid(pool) && Listed(pool, seqs, lens) && j < |seqs|
    ensures FreeAfter(pool, seqs, lens, j + 1) + PagesLeft(pool, seqs[j], lens[j]) + Due(pool, seqs[j], lens[j])
            >= FreeAfter(pool, seqs, lens, j) + PagesOf(pool, seqs[j])
    ensures PagesLeft(pool, seqs[j], lens[j]) <= PagesOf(pool, seqs[j])
  {
    if lens[j] < pool.sequences[seqs[j]].allocLen { TurnCost(pool, seqs, lens, j); }
  }

  /** Free pages before and after each turn. */
  ghost function Frees<S, P>(pool: Pool<S, P>, seqs: seq<S>, lens: seq<nat>): (r: seq<int>)
    requires Listed(pool, seqs, lens)
    ensures |r| == |seqs| + 1
    ensures forall j {:trigger r[j]} :: 0 <= j <= |seqs| ==> r[j] == FreeAfter(pool, seqs, lens, j)
  {
    seq(|seqs| + 1, j requires 0 <= j <= |seqs| => FreeAfter(pool, seqs, lens, j))
  }

  ghost predicate Balanced(free: seq<int>, have: seq<nat>, left: seq<nat>, dues: seq<nat>) {
    && |free| == |have| + 1 && |left| == |dues| == |have|
    && forall j {:trigger dues[j]} :: 0 <= j < |dues| ==> free[j + 1] + left[j] + dues[j] >= free[j] + have[j] && left[j] <= have[j]
  }

  lemma {:induction false} BalanceTo(free: seq<int>, have: seq<nat>, left: seq<nat>, dues: seq<nat>, n: nat)
    requires Balanced(free, have, left, dues) && n <= |dues|
    ensures free[n] + SumTo(left, n) + SumTo(dues, n) >= free[0] + SumTo(have, n)
    ensures SumTo(left, n) <= SumTo(have, n)
  {
    if n > 0 {
      BalanceTo(free, have, left, dues, n - 1);
      assert dues[n - 1] >= 0;
    }
  }

  ghost function AllPages<S, P>(pool: Pool<S, P>, seqs: seq<S>, lens: seq<nat>): (r: seq<nat>)
    requires Listed(pool, seqs, lens)
    ensures |r| == |seqs| && forall b {:trigger r[b]} :: 0 <= b < |r| ==> r[b] == PagesOf(pool, seqs[b])
  {
    seq(|seqs|, b requires 0 <= b < |seqs| => PagesOf(pool, seqs[b]))
  }

  ghost function AllLeft<S, P>(pool: Pool<S, P>, seqs: seq<S>, lens: seq<nat>): (r: seq<nat>)
    requires Listed(pool, seqs, lens)
    ensures |r| == |seqs| && forall b {:trigger r[b]} :: 0 <= b < |r| ==> r[b] == PagesLeft(pool, seqs[b], lens[b])
  {
    seq(|seqs|, b requires 0 <= b < |seqs| => PagesLeft(pool, seqs[b], lens[b]))
  }

  /** The cuts give back every page they drop, less one for each that others hold. */
  lemma CutsBalance<S, P>(pool: Pool<S, P>, seqs: seq<S>, lens: seq<nat>)
    requires Valid(pool) && Listed(pool, seqs, lens)
    ensures Balanced(Frees(pool, seqs, lens), AllPages(pool, seqs, lens), AllLeft(pool, seqs, lens), Dues(pool, seqs, lens))
  {
    forall j | 0 <= j < |seqs|
      ensures Frees(pool, seqs, lens)[j + 1] + AllLeft(pool, seqs, lens)[j] + Dues(pool, seqs, lens)[j]
              >= Frees(pool, seqs, lens)[j] + AllPages(pool, seqs, lens)[j]
      ensures AllLeft(pool, seqs, lens)[j] <= AllPages(pool, seqs, lens)[j]
    {
      TurnBalance(pool, seqs, lens, j);
    }
  }

  lemma FreeBound<S, P>(pool: Pool<S, P>, seqs: seq<S>, lens: seq<nat>, j: nat)
    requires Valid(pool) && Listed(pool, seqs, lens) && j <= |seqs|
    ensures FreeAfter(pool, seqs, lens, j) + SumTo(Dues(pool, seqs, lens), j) >= |pool.available|
  {
    CutsBalance(pool, seqs, lens);
    BalanceTo(Frees(pool, seqs, lens), AllPages(pool, seqs, lens), AllLeft(pool, seqs, lens), Dues(pool, seqs, lens), j);
    assert Frees(pool, seqs, lens)[0] == |pool.available| && Frees(pool, seqs, lens)[j] == FreeAfter(pool, seqs, lens, j);
  }

  lemma {:induction false} SumToGrows(xs: seq<nat>, j: nat, n: nat)
    requires j <= n <= |xs|
    ensures SumTo(xs, j) <= SumTo(xs, n)
  {
    if j < n { SumToGrows(xs, j, n - 1); }
  }

  /** One free page for every page given up that others hold is enough. */
  lemma DuesCovered<S, P>(pool: Pool<S, P>, seqs: seq<S>, lens: seq<nat>)
    requires Valid(pool) && Listed(pool, seqs, lens) && SumTo(Dues(pool, seqs, lens), |seqs|) <= |pool.available|
    ensures CutsFit(pool, seqs, lens, |seqs|)
  {
    var dues := Dues(pool, seqs, lens);
    forall j | 0 <= j < |seqs| ensures FitsAt(pool, seqs, lens, j) {
      if CopiesAt(pool, seqs, lens, j) {
        FreeBound(pool, seqs, lens, j);
        TurnCost(pool, seqs, lens, j);
        assert dues[j] > 0;
        SumToGrows(dues, j + 1, |seqs|);
      }
    }
  }

  lemma {:induction false} NoneShared(refs: seq<nat>)
    requires forall i :: 0 <= i < |refs| ==> refs[i] == 1
    ensures Shared(refs) == 0
  {
    if refs != [] { NoneShared(refs[..|refs| - 1]); }
  }

  lemma PrivateOwesNothing<S, P>(pool: Pool<S, P>, s: S, n: nat)
    requires s in pool.sequences && PrivateFrom(pool, s, PageOf(n, pool.pageSize))
    ensures Due(pool, s, n) == 0
  {
    var given := GivenUp(pool, s, n);
    var c := PageOf(n, pool.pageSize);
    forall i | 0 <= i < |given| ensures RefCounts(pool.pages, given)[i] == 1 {
      assert given[i] == pool.sequences[s].pages[c + i];
    }
    NoneShared(RefCounts(pool.pages, given));
  }

  lemma BehindLastToken<S, P>(pool: Pool<S, P>, s: S, n: nat)
    requires Valid(pool) && s in pool.sequences && n + 1 == |History(pool, s)| == pool.sequences[s].allocLen
    ensures var c := PageOf(n, pool.pageSize);
            c < |pool.sequences[s].pages| && PrivateFrom(pool, s, c + 1)
  {
    var pages, size := pool.sequences[s].pages, pool.pageSize;
    HistoryFits(pool, s);
    NextPosition(n, size);
    PageArithmetic(n, size);
    PageArithmetic(n + 1, size);
    PagesForBounds(n + 1, size);
    forall i | PageOf(n, size) + 1 <= i < |pages| ensures pages[i] in pool.pages && pool.pages[pages[i]].refs == 1 {
      EmptyIsPrivate(pool, s, i);
    }
  }

  lemma OneOwed(refs: seq<nat>)
    requires refs != [] && forall i :: 1 <= i < |refs| ==> refs[i] == 1
    ensures Shared(refs) == Toll(refs[0] > 1)
  {
    NoneShared(refs[1..]);
    SharedOfCons(refs[0], refs[1..]);
    assert refs == [refs[0]] + refs[1..];
  }

  /** Cutting off the last reported position costs at most one page. */
  lemma LastTokenOwesOne<S, P>(pool: Pool<S, P>, s: S, n: nat)
    requires Valid(pool) && s in pool.sequences && n + 1 == |History(pool, s)| == pool.sequences[s].allocLen
    ensures Due(pool, s, n) <= 1
    ensures Due(pool, s, n) == 0 ==> PrivateFrom(pool, s, PageOf(n, pool.pageSize))
  {
    var pages, c := pool.sequences[s].pages, PageOf(n, pool.pageSize);
    BehindLastToken(pool, s, n);
    DueOfTail(pool, s, n);
    OneOwed(RefCounts(pool.pages, pages)[c..]);
    assert pages[c] in pages;
    HeldPageCounted(pool, s, pages[c]);
  }
}
