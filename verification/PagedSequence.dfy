/** The mutable page table: ref-counted pages shared between the sequences of one
    cache (src/paged_sequence.ts), with the appending and sharing steps of the
    cache around it (src/paged_kv.ts). */
module PagedSequence {
  import opened Wrappers
  import opened TokenChunks
  import opened PagePool
  import opened PageLaws
  import opened PageGrowth
  import opened PageStock
  import opened PageTally

  class Page {
    const id: nat
    var tokenIds: seq<int>
    var refs: nat

    constructor (id: nat, tokenIds: seq<int>, refs: nat)
      ensures View() == PageView(id, tokenIds, refs)
    {
      this.id, this.tokenIds, this.refs := id, tokenIds, refs;
    }

    function View(): PageView
      reads this
    {
      PageView(id, tokenIds, refs)
    }
  }

  class PageCache {
    const pageSize: Positive
    const maxPages: nat
    var availablePages: seq<nat>
    var kv: map<nat, int>                // physical contents, by page id
    ghost var sequences: set<Sequence>   // active and staged sequences
    ghost var pages: set<Page>           // page objects made for this cache

    ghost function View(): Pool<Sequence, Page>
      reads this, sequences, pages
    {
      Pool(pageSize, maxPages, map s | s in sequences :: s.View(), map p | p in pages :: p.View(), availablePages, kv)
    }

    /** Only sequence s changed its fields. */
    twostate lemma SequenceChanged(s: Sequence)
      requires s in sequences && unchanged(this) && unchanged(pages)
      requires forall t | t in sequences && t != s :: t.View() == old(t.View())
      ensures View() == old(View()).(sequences := old(View()).sequences[s := s.View()])
    {
    }

    /** Only page p, the free list and the physical contents changed. */
    twostate lemma PageChanged(p: Page)
      requires p in pages && sequences == old(sequences) && pages == old(pages) && unchanged(sequences)
      requires forall q | q in pages && q != p :: q.View() == old(q.View())
      ensures View() == old(View()).(pages := old(View()).pages[p := p.View()], available := availablePages, kv := kv)
    {
    }

    /** Take the first free id for a new page object. */
    method NewPage(tokenIds: seq<int>, refs: nat) returns (page: Page)
      requires availablePages != []
      modifies this`availablePages, this`pages
      ensures fresh(page) && page.View() == PageView(old(availablePages)[0], tokenIds, refs)
      ensures sequences == old(sequences) && pages == old(pages) + {page}
      ensures View() == old(View()).(available := old(availablePages)[1..], pages := old(View()).pages[page := page.View()])
    {
      page := new Page(availablePages[0], tokenIds, refs);
      availablePages := availablePages[1..];
      pages := pages + {page};
      assert View().pages == old(View()).pages[page := page.View()];
      assert View().sequences == old(View()).sequences;
    }

    /** Drop one reference; the last one returns the id to the front of the list. */
    method ReleasePage(page: Page)
      requires page in pages && page.refs > 0
      modifies this`availablePages, page
      ensures View() == Release(old(View()), page)
    {
      page.refs := page.refs - 1;
      if page.refs == 0 {
        availablePages := [page.id] + availablePages;
      }
      PageChanged(page);
    }

    /** A new sequence on the donor's first pages. */
    method SharePrefix(donor: Sequence, keepPages: nat, target: Option<int>) returns (s: Sequence)
      requires donor in sequences && donor.cache == this && Valid(View()) && HasPages(View(), donor, keepPages)
      modifies this`sequences, donor.pages
      ensures fresh(s) && s.cache == this && sequences == old(sequences) + {s}
      ensures View() == Share(old(View()), donor, s, keepPages, target)
      ensures OthersUntouched(old(View()), View(), s)
      ensures var h, n := old(History(View(), donor)), Times(keepPages, pageSize);
              && History(View(), s) == h[..Min(|h|, n)] && (Valid(View()) <==> n <= |h|)
    {
      ghost var before := View();
      s := new Sequence(this);
      PushShared(before, donor, s, keepPages);
      SharedSoFar(before, Create(before, s), donor, s, keepPages, keepPages);
      ShareExact(before, donor, s, keepPages, target);
      label Shared:
      s.targetToken := target;
      SequenceChanged@Shared(s);
    }

    /** The first i of the donor's pages are pushed. */
    ghost predicate Shared(before: Pool<Sequence, Page>, donor: Sequence, s: Sequence, i: nat)
      reads this, sequences, pages
    {
      && donor in before.sequences && donor in sequences && s in sequences && s.cache == this && donor != s
      && View() == SharePages(Create(before, s), donor, s, i)
    }

    /** The loop pushing the donor's pages. */
    method PushShared(ghost before: Pool<Sequence, Page>, donor: Sequence, s: Sequence, keepPages: nat)
      requires Valid(before) && s !in before.sequences && HasPages(before, donor, keepPages)
      requires Shared(before, donor, s, 0)
      modifies s`pages, s`allocLen, donor.pages
      ensures Shared(before, donor, s, keepPages)
    {
      var i := 0;
      while i < keepPages
        invariant 0 <= i <= keepPages
        invariant Shared(before, donor, s, i)
        invariant donor.pages == old(donor.pages)
      {
        PushOneShared(before, donor, s, keepPages, i);
        i := i + 1;
      }
    }

    method PushOneShared(ghost before: Pool<Sequence, Page>, donor: Sequence, s: Sequence, ghost keepPages: nat, i: nat)
      requires Valid(before) && s !in before.sequences && HasPages(before, donor, keepPages)
      requires Shared(before, donor, s, i) && i < keepPages
      modifies s`pages, s`allocLen, donor.pages
      ensures Shared(before, donor, s, i + 1) && donor.pages == old(donor.pages)
    {
      SharedSoFar(before, Create(before, s), donor, s, keepPages, i);
      assert View().sequences[donor] == donor.View();
      s.PushPage(donor.pages[i], pageSize);
    }

    /** Copy the physical contents of one page to another. */
    method CopyPage(srcPageId: nat, dstPageId: nat)
      modifies this`kv
      ensures kv == if srcPageId in old(kv) then old(kv)[dstPageId := old(kv)[srcPageId]] else old(kv)
    {
      if srcPageId in kv {
        kv := kv[dstPageId := kv[srcPageId]];
      }
    }
  }

  datatype TruncateStatus = Truncated | BadLength | NoPage

  class Sequence {
    const cache: PageCache
    var pages: seq<Page>
    var allocLen: nat
    var targetToken: Option<int>

    constructor (cache: PageCache)
      requires Valid(cache.View())
      modifies cache`sequences
      ensures this.cache == cache && pages == []
      ensures cache.sequences == old(cache.sequences) + {this}
      ensures cache.View() == Create(old(cache.View()), this) && Valid(cache.View())
    {
      this.cache := cache;
      pages, allocLen, targetToken := [], 0, None;
      new;
      cache.sequences := cache.sequences + {this};
      assert cache.View().sequences == Create(old(cache.View()), this).sequences;
      CreateFacts(old(cache.View()), this);
    }

    function View(): SequenceView<Page>
      reads this
    {
      SequenceView(pages, allocLen, targetToken)
    }

    /** The cache knows this sequence and its pages. */
    ghost predicate Known()
      reads this, cache
    {
      this in cache.sequences && forall i :: 0 <= i < |pages| ==> pages[i] in cache.pages
    }

    lemma IsKnown()
      requires this in cache.sequences && Conserved(cache.View())
      ensures Known() && forall i :: 0 <= i < |pages| ==> pages[i].refs > 0
    {
      forall i | 0 <= i < |pages| ensures pages[i] in cache.pages && pages[i].refs > 0 {
        assert pages[i] in cache.View().sequences[this].pages;
        HeldPageCounted(cache.View(), this, pages[i]);
      }
    }

    method ReportedTokenCount() returns (count: nat)
      requires Known()
      ensures count == |History(cache.View(), this)|
    {
      ghost var ts := Lists(cache.View().pages, pages);
      count := 0;
      var i := 0;
      while i < |pages|
        invariant 0 <= i <= |pages|
        invariant count + |Flat(ts[i..])| == |Flat(ts)|
      {
        assert ts[i..][1..] == ts[i + 1..];
        count := count + |pages[i].tokenIds|;
        i := i + 1;
      }
    }

    method GetTokenIds() returns (tokenIds: seq<int>)
      requires Known()
      ensures tokenIds == History(cache.View(), this)
    {
      ghost var ts := Lists(cache.View().pages, pages);
      tokenIds := [];
      var i := 0;
      while i < |pages|
        invariant 0 <= i <= |pages|
        invariant tokenIds + Flat(ts[i..]) == Flat(ts)
      {
        assert ts[i..][1..] == ts[i + 1..];
        tokenIds := tokenIds + pages[i].tokenIds;
        i := i + 1;
      }
    }

    method TokenAfter(length: nat) returns (token: Option<int>)
      requires Known()
      ensures token == PagePool.TokenAfter(cache.View(), this, length)
    {
      PageArithmetic(length, cache.pageSize);
      var pageIdx, offset := length / cache.pageSize, length % cache.pageSize;
      if pageIdx < |pages| && offset < |pages[pageIdx].tokenIds| {
        return Some(pages[pageIdx].tokenIds[offset]);
      }
      var reported := ReportedTokenCount();
      token := if length == reported then targetToken else None;
    }

    /** The first half of popPage: drop the last page and step the target back. */
    method DropLast() returns (page: Page)
      requires Known() && pages != []
      modifies this
      ensures page == old(pages[|pages| - 1])
      ensures cache.View() == Dropped(old(cache.View()), this, Min(old(allocLen), Times(old(|pages|) - 1, cache.pageSize)))
    {
      TimesIsProduct(|pages| - 1, cache.pageSize);
      var newLen := Min(allocLen, (|pages| - 1) * cache.pageSize);
      var token := TokenAfter(newLen);
      page := pages[|pages| - 1];
      pages := pages[..|pages| - 1];
      allocLen := newLen;
      targetToken := token;
      cache.SequenceChanged(this);
    }

    method PopPage()
      requires Known() && pages != [] && pages[|pages| - 1].refs > 0
      modifies this, cache`availablePages, pages[|pages| - 1]
      ensures cache.View() == PagePool.PopPage(old(cache.View()), this)
    {
      var page := DropLast();
      cache.ReleasePage(page);
    }

    predicate LastStartsAt(n: nat)
      reads this
    {
      pages != [] && n <= Times(|pages| - 1, cache.pageSize)
    }

    /** The guard of the source's loop. */
    lemma LastStart(n: nat)
      ensures LastStartsAt(n) <==> |pages| > 0 && n <= (|pages| - 1) * cache.pageSize
    {
      if pages != [] { TimesIsProduct(|pages| - 1, cache.pageSize); }
    }

    /** One round of popping down to n. */
    method PopToward(n: nat)
      requires this in cache.sequences && Conserved(cache.View()) && LastStartsAt(n)
      modifies this, cache`availablePages, pages[|pages| - 1]
      ensures Conserved(cache.View())
      ensures PopDown(cache.View(), this, n) == PopDown(old(cache.View()), this, n)
      ensures pages == old(pages[..|pages| - 1])
    {
      IsKnown();
      PopConserves(cache.View(), this);
      PopPage();
      PopDownStep(old(cache.View()), cache.View(), this, n);
      assert cache.View().sequences[this] == View();
    }

    lemma PopStops(n: nat)
      requires this in cache.sequences && !LastStartsAt(n)
      ensures PopDown(cache.View(), this, n) == cache.View()
    {
      assert cache.View().sequences[this] == View();
      PopDownStop(cache.View(), this, n);
    }

    /** Pop while the last page starts at or after position n. */
    method PopTo(n: nat)
      requires this in cache.sequences && Conserved(cache.View())
      modifies this, cache`availablePages, pages
      ensures cache.View() == PopDown(old(cache.View()), this, n)
      ensures |pages| <= |old(pages)| && pages == old(pages)[..|pages|]
    {
      ghost var all, goal := pages, PopDown(cache.View(), this, n);
      while LastStartsAt(n)
        invariant |pages| <= |all| && pages == all[..|pages|]
        invariant Conserved(cache.View())
        invariant PopDown(cache.View(), this, n) == goal
        decreases |pages|
      {
        PopToward(n);
      }
      PopStops(n);
    }

    /** The source's clear: pop every page, then drop the target. */
    method Clear()
      requires this in cache.sequences && Valid(cache.View())
      modifies this, cache`availablePages, pages
      ensures cache.View() == PagePool.Clear(old(cache.View()), this)
      ensures Valid(cache.View()) && OthersUntouched(old(cache.View()), cache.View(), this)
      ensures View() == SequenceView([], 0, None)
    {
      ClearExact(cache.View(), this);
      PopTo(0);
      label Popped:
      targetToken := None;
      cache.SequenceChanged@Popped(this);
    }

    /** The first half of truncate: set the length, pop pages, step the target back. */
    method ShortenTo(newLen: nat)
      requires this in cache.sequences && Valid(cache.View()) && newLen < allocLen
      modifies this, cache`availablePages, pages
      ensures cache.View() == Kept(old(cache.View()), this, newLen)
      ensures |pages| <= |old(pages)| && pages == old(pages)[..|pages|]
    {
      IsKnown();
      HistoryFits(cache.View(), this);
      var token := TokenAfter(newLen);
      RetargetConserves(cache.View(), this, newLen, targetToken);
      allocLen := newLen;
      cache.SequenceChanged(this);
      PopDownSequences(cache.View(), this, newLen);
      PopTo(newLen);
      label Popped:
      targetToken := token;
      cache.SequenceChanged@Popped(this);
    }

    /** Copy-on-write of the shared page at pageIdx. */
    method Detach(pageIdx: nat) returns (copy: Page)
      requires Known() && pageIdx < |pages| && pages[pageIdx].refs > 0 && cache.availablePages != []
      modifies this`pages, cache, pages[pageIdx]
      ensures fresh(copy) && pages == old(pages)[pageIdx := copy]
      ensures cache.sequences == old(cache.sequences) && cache.pages == old(cache.pages) + {copy}
      ensures cache.View() == PagePool.Detach(old(cache.View()), this, pageIdx, copy)
    {
      var page := pages[pageIdx];
      copy := cache.NewPage(page.tokenIds, 1);
      label Allocated:
      cache.CopyPage(page.id, copy.id);
      page.refs := page.refs - 1;
      cache.PageChanged@Allocated(page);
      label Released:
      pages := pages[pageIdx := copy];
      cache.SequenceChanged@Released(this);
      UpdatesCommute(old(cache.View()).pages, page, copy, page.View(), copy.View());
    }

    static lemma UpdatesCommute<K, V>(m: map<K, V>, a: K, b: K, x: V, y: V)
      requires a != b
      ensures m[a := x][b := y] == m[b := y][a := x]
    {
    }

    method CutPage(page: Page, length: nat)
      requires page in cache.pages
      modifies page
      ensures cache.View() == PagePool.CutPage(old(cache.View()), page, length)
    {
      page.tokenIds := page.tokenIds[..Min(|page.tokenIds|, length)];
      cache.PageChanged(page);
    }

    /** The second half of truncate: make the page the cut falls into private, and
        cut its tokens. */
    method CutTail(newLen: nat) returns (done: bool, ghost copy: Page)
      requires Known() && PageOf(newLen, cache.pageSize) < |pages|
      requires forall i :: 0 <= i < |pages| ==> pages[i].refs > 0
      modifies this`pages, cache, pages
      ensures cache.sequences == old(cache.sequences)
      ensures old(cache.pages) <= cache.pages && fresh(cache.pages - old(cache.pages))
      ensures fresh(copy) || old(pages[PageOf(newLen, cache.pageSize)].refs) <= 1 || !done
      ensures PagePool.CutTail(old(cache.View()), this, PageOf(newLen, cache.pageSize), OffsetOf(newLen, cache.pageSize), copy)
           == if done then Done(cache.View()) else PagePool.OutOfPages(cache.View())
    {
      PageArithmetic(newLen, cache.pageSize);
      var pageIdx := newLen / cache.pageSize;
      var page := pages[pageIdx];
      copy := page;
      if page.refs > 1 {
        if cache.availablePages == [] { return false, page; }
        page := Detach(pageIdx);
        copy := page;
      }
      CutPage(page, newLen % cache.pageSize);
      done := true;
    }

    /** After the first half, the page of an unaligned cut is there and has the
        holders it had before. */
    lemma ShortenedTail(before: Pool<Sequence, Page>, n: nat)
      requires Valid(before) && this in before.sequences && n < before.sequences[this].allocLen
      requires OffsetOf(n, before.pageSize) != 0 && before.pageSize == cache.pageSize
      requires this in cache.sequences && cache.View() == Kept(before, this, n)
      ensures Known() && (forall i :: 0 <= i < |pages| ==> pages[i].refs > 0)
      ensures var k := PageOf(n, cache.pageSize);
              k < |pages| && (pages[k].refs > 1 <==> Copies(before, this, n))
    {
      assert cache.View().sequences[this] == View();
      HistoryFits(before, this);
      KeptConserves(before, this, n);
      KeptLastPage(before, this, n);
      PageArithmetic(n, cache.pageSize);
      IsKnown();
      assert cache.View().pages[pages[PageOf(n, cache.pageSize)]] == pages[PageOf(n, cache.pageSize)].View();
    }

    /** Cut the sequence back to newLen tokens. `copy` is the page object made by a
        copy-on-write, when there is one. */
    method Truncate(newLen: int) returns (status: TruncateStatus, ghost copy: Page?)
      requires this in cache.sequences && Valid(cache.View())
      modifies this, cache, pages
      ensures cache.sequences == old(cache.sequences)
      ensures old(cache.pages) <= cache.pages && fresh(cache.pages - old(cache.pages))
      ensures status == BadLength <==> newLen < 0 || newLen > old(allocLen)
      ensures newLen < 0 || newLen >= old(allocLen) ==> cache.View() == old(cache.View()) && status != NoPage
      ensures 0 <= newLen < old(allocLen) ==>
                && copy != null
                && PagePool.Truncate(old(cache.View()), this, newLen, copy)
                == (if status == NoPage then OutOfPages(cache.View()) else Done(cache.View()))
                && (status == NoPage <==> RunsOut(old(cache.View()), this, newLen))
                && (status == NoPage ==>
                      Conserved(cache.View()) && OthersUntouched(old(cache.View()), cache.View(), this) && cache.availablePages == [])
                && (status == Truncated ==> Rewound(old(cache.View()), cache.View(), this, newLen))
      ensures |old(History(cache.View(), this))| <= newLen && status == Truncated ==>
                |cache.availablePages| + |pages| == old(|cache.availablePages| + |pages|)
      ensures status == Truncated ==> Recounted(old(cache.View()), cache.View(), this, newLen)
    {
      copy := null;
      if newLen < 0 || newLen > allocLen { return BadLength, copy; }
      if newLen == allocLen { return Truncated, copy; }
      status, copy := Rewind(newLen);
      TruncateExact(old(cache.View()), this, newLen, copy);
      if status == Truncated { TruncateRecounts(old(cache.View()), cache.View(), this, newLen, copy); }
      if |old(History(cache.View(), this))| <= newLen && status == Truncated {
        TruncateMoves(old(cache.View()), cache.View(), this, newLen, copy);
        assert old(cache.View()).sequences[this] == old(View()) && cache.View().sequences[this] == View();
      }
    }

    lemma HasPages()
      requires this in cache.sequences && Valid(cache.View()) && allocLen > 0
      ensures pages != []
    {
      HistoryFits(cache.View(), this);
      assert cache.View().sequences[this] == View();
    }

    /** Truncation proper, below the allocated length. */
    method Rewind(newLen: nat) returns (status: TruncateStatus, ghost copy: Page)
      requires this in cache.sequences && Valid(cache.View()) && newLen < allocLen
      modifies this, cache, pages
      ensures cache.sequences == old(cache.sequences)
      ensures old(cache.pages) <= cache.pages && fresh(cache.pages - old(cache.pages))
      ensures status != BadLength
      ensures PagePool.Truncate(old(cache.View()), this, newLen, copy)
           == if status == NoPage then OutOfPages(cache.View()) else Done(cache.View())
      ensures copy !in old(cache.pages) || status == NoPage || !Copies(old(cache.View()), this, newLen)
    {
      HasPages();
      copy := pages[0];
      ShortenTo(newLen);
      PageArithmetic(newLen, cache.pageSize);
      status := Truncated;
      if newLen % cache.pageSize != 0 {
        ShortenedTail(old(cache.View()), newLen);
        var done;
        done, copy := CutTail(newLen);
        if !done { status := NoPage; }
      }
    }

    /** Push one token onto the page the reported length falls into. */
    method WriteToken(pageIdx: nat, token: int)
      requires this in cache.sequences && Valid(cache.View()) && |History(cache.View(), this)| < allocLen
      requires pageIdx == PageOf(|History(cache.View(), this)|, cache.pageSize)
      modifies pages
      ensures cache.View() == PushToken(old(cache.View()), this, token)
      ensures Valid(cache.View()) && History(cache.View(), this) == old(History(cache.View(), this)) + [token]
    {
      assert cache.View().sequences[this] == View();
      PushPageIsPrivate(cache.View(), this);
      PushFacts(cache.View(), this, token);
      var page := pages[pageIdx];
      page.tokenIds := page.tokenIds + [token];
      cache.PageChanged(page);
    }

    /** Append committed inputs after the reported history, within reserved space. */
    method ReportTokens(tokenIds: seq<int>, target: Option<int>) returns (ok: bool)
      requires this in cache.sequences && Valid(cache.View())
      modifies this`targetToken, pages
      ensures ok <==> old(|History(cache.View(), this)|) + |tokenIds| <= old(allocLen)
      ensures !ok ==> cache.View() == old(cache.View())
      ensures ok ==>
                && Report(old(cache.View()), this, tokenIds, target) == Some(cache.View())
                && Extended(old(cache.View()), cache.View(), this, old(History(cache.View(), this)) + tokenIds, old(allocLen), target)
      ensures KeepsPrivate(old(cache.View()), cache.View())
    {
      IsKnown();
      var flattenLen := ReportedTokenCount();
      if flattenLen + |tokenIds| > allocLen { return false; }
      ReportExact(cache.View(), this, tokenIds, target);
      WriteAll(flattenLen, tokenIds);
      label Written:
      targetToken := target;
      cache.SequenceChanged@Written(this);
      GrowthKeepsPrivate(old(cache.View()), cache.View(), this, old(History(cache.View(), this)) + tokenIds, old(allocLen), target);
      ok := true;
    }

    method Locate(position: nat) returns (pageIdx: nat, offset: nat)
      ensures At(pageIdx, offset, position, cache.pageSize)
    {
      PageArithmetic(position, cache.pageSize);
      pageIdx, offset := position / cache.pageSize, position % cache.pageSize;
    }

    /** The loop of reportTokens. */
    method WriteAll(flattenLen: nat, tokenIds: seq<int>)
      requires this in cache.sequences && Valid(cache.View())
      requires flattenLen == |History(cache.View(), this)| && flattenLen + |tokenIds| <= allocLen
      modifies pages
      ensures cache.View() == PushTokens(old(cache.View()), this, tokenIds)
    {
      ghost var before := cache.View();
      var currentPageIndex, offset := Locate(flattenLen);
      ghost var position: nat := flattenLen;
      var i := 0;
      while i < |tokenIds|
        invariant 0 <= i <= |tokenIds| && position == flattenLen + i
        invariant Progress(before, flattenLen, tokenIds, i)
        invariant At(currentPageIndex, offset, position, cache.pageSize)
      {
        WriteNext(before, flattenLen, tokenIds, i, currentPageIndex, offset);
        Advance(currentPageIndex, offset, position, cache.pageSize);
        position := position + 1;
        offset := offset + 1;
        if offset == cache.pageSize {
          offset := 0;
          currentPageIndex := currentPageIndex + 1;
        }
        i := i + 1;
      }
      assert tokenIds[..i] == tokenIds;
    }

    /** The first i tokens are written. */
    ghost predicate Progress(before: Pool<Sequence, Page>, flattenLen: nat, tokenIds: seq<int>, i: nat)
      reads this, cache, cache.sequences, cache.pages
    {
      && this in before.sequences && this in cache.sequences && i <= |tokenIds|
      && cache.View() == PushTokens(before, this, tokenIds[..i])
      && Valid(cache.View()) && |History(cache.View(), this)| == flattenLen + i
    }

    method WriteNext(ghost before: Pool<Sequence, Page>, ghost flattenLen: nat, tokenIds: seq<int>, i: nat, pageIdx: nat, ghost offset: nat)
      requires i < |tokenIds| && Progress(before, flattenLen, tokenIds, i) && flattenLen + |tokenIds| <= allocLen
      requires At(pageIdx, offset, flattenLen + i, cache.pageSize)
      modifies pages
      ensures Progress(before, flattenLen, tokenIds, i + 1)
    {
      WriteToken(pageIdx, tokenIds[i]);
      PushTokensSnoc(before, this, tokenIds, i);
    }

    /** Attach a page, growing the length by pageLen. */
    method PushPage(page: Page, pageLen: nat)
      requires this in cache.sequences && page in cache.pages
      modifies this`pages, this`allocLen, page
      ensures pages == old(pages) + [page]
      ensures cache.View() == PagePool.PushPage(old(cache.View()), this, page, pageLen)
    {
      pages := pages + [page];
      allocLen := allocLen + pageLen;
      cache.SequenceChanged(this);
      label Attached:
      page.refs := page.refs + 1;
      cache.PageChanged@Attached(page);
    }

    /** A fresh empty page at the end. */
    method AttachPage()
      requires this in cache.sequences && cache.availablePages != []
      modifies this`pages, this`allocLen, cache`availablePages, cache`pages
      ensures |pages| == |old(pages)| + 1 && pages == old(pages) + [pages[|old(pages)|]]
      ensures cache.availablePages == old(cache.availablePages)[1..]
      ensures pages[|old(pages)|].id == old(cache.availablePages)[0]
      ensures cache.pages == old(cache.pages) + {pages[|pages| - 1]} && fresh(pages[|pages| - 1])
      ensures cache.View() == Attach(old(cache.View()), this, pages[|pages| - 1])
    {
      var page := cache.NewPage([], 0);
      PushPage(page, 0);
    }

    /** Reserve room for more tokens (the cache's allocAppendPages). */
    method AllocAppendPages(numNewTokens: nat) returns (ok: bool)
      requires this in cache.sequences && Valid(cache.View())
      modifies this`pages, this`allocLen, cache`availablePages, cache`pages
      ensures old(cache.pages) <= cache.pages && fresh(cache.pages - old(cache.pages))
      ensures ok <==> NewPages(old(cache.View()), this, numNewTokens) <= |old(cache.availablePages)|
      ensures !ok ==> cache.View() == old(cache.View())
      ensures ok ==>
                && cache.availablePages == old(cache.availablePages)[NewPages(old(cache.View()), this, numNewTokens)..]
                && |pages| == Max(|old(pages)|, PagesFor(old(allocLen) + numNewTokens, cache.pageSize))
                && Extended(old(cache.View()), cache.View(), this, old(History(cache.View(), this)),
                            old(allocLen) + numNewTokens, old(targetToken))
      ensures ok ==> forall j {:trigger pages[j]} :: |old(pages)| <= j < |pages| ==>
                       pages[j].id == old(cache.availablePages)[j - |old(pages)|]
      ensures KeepsPrivate(old(cache.View()), cache.View())
    {
      var numNewPages := CeilDiv(allocLen + numNewTokens, cache.pageSize) - |pages|;
      if numNewPages > |cache.availablePages| { return false; }
      AttachPages(numNewPages);
      SetLength(old(cache.View()), numNewTokens);
      AppendKeepsPrivate(old(cache.View()), old(History(cache.View(), this)), old(allocLen) + numNewTokens, old(targetToken));
      ok := true;
    }

    /** Set the reserved length without moving pages. */
    method Resize(newLen: nat)
      requires this in cache.sequences && Valid(cache.View())
      requires |History(cache.View(), this)| <= newLen <= allocLen
      modifies this`allocLen
      ensures Extended(old(cache.View()), cache.View(), this, old(History(cache.View(), this)), newLen, targetToken)
    {
      HistoryFits(cache.View(), this);
      assert cache.View().sequences[this] == View();
      RetargetFacts(cache.View(), this, newLen, targetToken);
      allocLen := newLen;
      cache.SequenceChanged(this);
    }

    method SetLength(ghost before: Pool<Sequence, Page>, n: nat)
      requires Valid(before) && this in before.sequences && this in cache.sequences
      requires var v := before.sequences[this];
               Extended(before, cache.View(), this, History(before, this), v.allocLen, v.targetToken)
      requires |pages| == |before.sequences[this].pages| + NewPages(before, this, n)
      modifies this`allocLen
      ensures var v := before.sequences[this];
              Extended(before, cache.View(), this, History(before, this), v.allocLen + n, v.targetToken)
    {
      FinishAppend(before, n);
      allocLen := allocLen + n;
      cache.SequenceChanged(this);
    }

    /** The loop of allocAppendPages: no rounds when nothing is missing. */
    method AttachPages(numNewPages: int)
      requires this in cache.sequences && Valid(cache.View()) && numNewPages <= |cache.availablePages|
      modifies this`pages, this`allocLen, cache`availablePages, cache`pages
      ensures |pages| == |old(pages)| + Max(0, numNewPages)
      ensures cache.availablePages == old(cache.availablePages)[Max(0, numNewPages)..]
      ensures forall j {:trigger pages[j]} :: |old(pages)| <= j < |pages| ==>
                pages[j].id == old(cache.availablePages)[j - |old(pages)|]
      ensures old(cache.pages) <= cache.pages && fresh(cache.pages - old(cache.pages))
      ensures forall j {:trigger pages[j]} :: |old(pages)| <= j < |pages| ==> fresh(pages[j])
      ensures Extended(old(cache.View()), cache.View(), this, old(History(cache.View(), this)), old(allocLen), old(targetToken))
    {
      ghost var h := History(cache.View(), this);
      ExtendedReflexive(cache.View(), this);
      var i := 0;
      while i < numNewPages
        invariant 0 <= i <= Max(0, numNewPages)
        invariant |pages| == |old(pages)| + i && cache.availablePages == old(cache.availablePages)[i..]
        invariant forall j {:trigger pages[j]} :: |old(pages)| <= j < |pages| ==>
                    pages[j].id == old(cache.availablePages)[j - |old(pages)|]
        invariant old(cache.pages) <= cache.pages && fresh(cache.pages - old(cache.pages))
        invariant forall j {:trigger pages[j]} :: |old(pages)| <= j < |pages| ==> fresh(pages[j])
        invariant Extended(old(cache.View()), cache.View(), this, h, old(allocLen), old(targetToken))
      {
        ghost var view := cache.View();
        AttachPage();
        ExtendAttach(old(cache.View()), view, this, h, old(allocLen), old(targetToken), pages[|pages| - 1]);
        i := i + 1;
      }
    }

    lemma AppendKeepsPrivate(before: Pool<Sequence, Page>, h: seq<int>, n: nat, t: Option<int>)
      requires Conserved(before) && this in before.sequences && this in cache.sequences
      requires Extended(before, cache.View(), this, h, n, t)
      requires forall j {:trigger pages[j]} :: |before.sequences[this].pages| <= j < |pages| ==> pages[j] !in before.pages
      ensures KeepsPrivate(before, cache.View())
    {
      assert cache.View().sequences[this] == View();
      GrowthKeepsPrivate(before, cache.View(), this, h, n, t);
    }

    lemma FinishAppend(before: Pool<Sequence, Page>, n: nat)
      requires Valid(before) && this in before.sequences && this in cache.sequences
      requires var v := before.sequences[this];
               Extended(before, cache.View(), this, History(before, this), v.allocLen, v.targetToken)
      requires |pages| == |before.sequences[this].pages| + NewPages(before, this, n)
      ensures var v := before.sequences[this];
              && allocLen == v.allocLen && targetToken == v.targetToken
              && Extended(before, Retarget(cache.View(), this, v.allocLen + n, v.targetToken), this,
                          History(before, this), v.allocLen + n, v.targetToken)
    {
      var v := before.sequences[this];
      HistoryFits(before, this);
      assert cache.View().sequences[this] == View();
      GrownHasRoom(before, cache.View(), this, n);
      ExtendRetarget(before, cache.View(), this, History(before, this), v.allocLen, v.targetToken, v.allocLen + n, v.targetToken);
    }
  }
}
