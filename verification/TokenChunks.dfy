/** Token lists split over fixed-size pages: the correspondence between a position
    in the flat history and its page and offset (src/paged_sequence.ts).

    Products and quotients by the page size are defined by recursion, and related
    to `*`, `/` and `%` once, in `PageArithmetic`. */
module TokenChunks {
  function Min(a: int, b: int): int { if a <= b then a else b }

  function Max(a: int, b: int): int { if a <= b then b else a }

  type Positive = n: nat | n > 0 witness 1

  /** k * size */
  function Times(k: nat, size: nat): nat {
    if k == 0 then 0 else size + Times(k - 1, size)
  }

  /** floor(n / size) */
  function PageOf(n: nat, size: nat): nat
    requires size > 0
  {
    if n < size then 0 else 1 + PageOf(n - size, size)
  }

  /** n mod size */
  function OffsetOf(n: nat, size: nat): nat
    requires size > 0
  {
    if n < size then n else OffsetOf(n - size, size)
  }

  /** ceil(n / size): the pages needed for n tokens. */
  function PagesFor(n: nat, size: nat): nat
    requires size > 0
  {
    if n == 0 then 0 else if n < size then 1 else 1 + PagesFor(n - size, size)
  }

  lemma {:induction false} TimesIsProduct(k: nat, size: nat)
    ensures Times(k, size) == k * size
  {
    if k > 0 {
      TimesIsProduct(k - 1, size);
      assert k * size == (k - 1) * size + size;
    }
  }

  lemma {:induction false} QuotientStep(n: nat, size: nat)
    requires size > 0 && n >= size
    ensures n / size == (n - size) / size + 1 && n % size == (n - size) % size
  {
    var m := n - size;
    assert m == m / size * size + m % size;
    assert n == (m / size + 1) * size + m % size;
    QuotientUnique(n, size, m / size + 1, m % size);
  }

  lemma ScaleBound(d: int, size: nat)
    ensures d >= 1 ==> d * size >= size
    ensures d <= -1 ==> d * size <= 0 - size
  {
  }

  lemma QuotientUnique(n: nat, size: nat, q: nat, r: nat)
    requires size > 0 && r < size && n == q * size + r
    ensures n / size == q && n % size == r
  {
    var d := n / size - q;
    assert n == n / size * size + n % size;
    assert d * size == r - n % size;
    ScaleBound(d, size);
  }

  /** The recursive forms are the source's floor, remainder and ceiling. */
  lemma {:induction false} PageArithmetic(n: nat, size: nat)
    requires size > 0
    ensures PageOf(n, size) == n / size && OffsetOf(n, size) == n % size
    ensures PagesFor(n, size) == PageOf(n, size) + (if OffsetOf(n, size) == 0 then 0 else 1)
    ensures n == Times(PageOf(n, size), size) + OffsetOf(n, size) && OffsetOf(n, size) < size
  {
    if n >= size {
      PageArithmetic(n - size, size);
      QuotientStep(n, size);
    } else {
      QuotientUnique(n, size, 0, n);
    }
  }

  /** Math.ceil(n / size) */
  function CeilDiv(n: nat, size: nat): (k: nat)
    requires size > 0
    ensures k == PagesFor(n, size)
  {
    PageArithmetic(n, size);
    n / size + (if n % size == 0 then 0 else 1)
  }

  /** The page and offset of the next position. */
  lemma {:induction false} NextPosition(n: nat, size: nat)
    requires size > 0
    ensures OffsetOf(n, size) < size
    ensures OffsetOf(n, size) + 1 < size ==>
              PageOf(n + 1, size) == PageOf(n, size) && OffsetOf(n + 1, size) == OffsetOf(n, size) + 1
    ensures OffsetOf(n, size) + 1 == size ==>
              PageOf(n + 1, size) == PageOf(n, size) + 1 && OffsetOf(n + 1, size) == 0
  {
    if n >= size { NextPosition(n - size, size); }
  }

  /** Page index and offset of a position in the flat history. */
  ghost predicate At(page: nat, offset: nat, position: nat, size: nat)
    requires size > 0
  {
    page == PageOf(position, size) && offset == OffsetOf(position, size)
  }

  lemma Advance(page: nat, offset: nat, position: nat, size: nat)
    requires size > 0 && At(page, offset, position, size)
    ensures if offset + 1 == size then At(page + 1, 0, position + 1, size) else At(page, offset + 1, position + 1, size)
  {
    NextPosition(position, size);
  }

  lemma {:induction false} TimesMono(j: nat, k: nat, size: nat)
    requires j <= k
    ensures Times(j, size) <= Times(k, size)
    ensures j < k ==> Times(j, size) + size <= Times(k, size)
  {
    if k > j { TimesMono(j, k - 1, size); }
  }

  /** PagesFor(n) is the k with Times(k - 1) < n <= Times(k). */
  lemma {:induction false} PagesForBounds(n: nat, size: nat)
    requires size > 0
    ensures n <= Times(PagesFor(n, size), size) < n + size
    ensures forall k: nat :: n <= Times(k, size) ==> PagesFor(n, size) <= k
  {
    if n >= size {
      PagesForBounds(n - size, size);
      forall k: nat | n <= Times(k, size) ensures PagesFor(n, size) <= k {
        assert n - size <= Times(k - 1, size);
      }
    } else if n > 0 {
      assert Times(1, size) == size + Times(0, size);
    }
  }

  function Flat(ts: seq<seq<int>>): seq<int> {
    if ts == [] then [] else ts[0] + Flat(ts[1..])
  }

  /** Only full pages are followed by tokens. */
  ghost predicate Shaped(ts: seq<seq<int>>, size: nat) {
    && (forall i :: 0 <= i < |ts| ==> |ts[i]| <= size)
    && (forall i, j :: 0 <= i < j < |ts| && ts[j] != [] ==> |ts[i]| == size)
  }

  lemma {:induction false} PartOfFlat(ts: seq<seq<int>>, k: nat)
    requires k < |ts|
    ensures |ts[k]| <= |Flat(ts)|
  {
    if k > 0 { PartOfFlat(ts[1..], k - 1); }
  }

  lemma {:induction false} FlatOfEmpty(ts: seq<seq<int>>)
    requires forall j :: 0 <= j < |ts| ==> ts[j] == []
    ensures Flat(ts) == []
  {
    if ts != [] { FlatOfEmpty(ts[1..]); }
  }

  lemma ShapedTail(ts: seq<seq<int>>, size: nat)
    requires ts != [] && Shaped(ts, size)
    ensures Shaped(ts[1..], size)
    ensures Flat(ts[1..]) != [] ==> |ts[0]| == size
    ensures ts == [ts[0]] + ts[1..]
  {
    var rest := ts[1..];
    assert forall j :: 0 <= j < |rest| ==> rest[j] == ts[j + 1];
    if forall j :: 0 <= j < |rest| ==> rest[j] == [] {
      FlatOfEmpty(rest);
    }
  }

  lemma ShapedCons(t: seq<int>, rest: seq<seq<int>>, size: nat)
    requires Shaped(rest, size) && |t| <= size && (|t| == size || Flat(rest) == [])
    ensures Shaped([t] + rest, size)
    ensures Flat([t] + rest) == t + Flat(rest)
  {
    var ts := [t] + rest;
    assert ts[1..] == rest;
    forall i, j | 0 <= i < j < |ts| && ts[j] != [] ensures |ts[i]| == size {
      assert ts[j] == rest[j - 1];
      if i > 0 { assert ts[i] == rest[i - 1]; } else { PartOfFlat(rest, j - 1); }
    }
  }

  lemma {:induction false} FlatBound(ts: seq<seq<int>>, size: nat)
    requires Shaped(ts, size)
    ensures |Flat(ts)| <= Times(|ts|, size)
  {
    if ts != [] {
      ShapedTail(ts, size);
      FlatBound(ts[1..], size);
    }
  }

  /** Position n of the history is offset n mod size of page n / size. */
  lemma {:induction false} FlatIndex(ts: seq<seq<int>>, size: nat, n: nat)
    requires size > 0 && Shaped(ts, size)
    ensures n < |Flat(ts)| <==> PageOf(n, size) < |ts| && OffsetOf(n, size) < |ts[PageOf(n, size)]|
    ensures n < |Flat(ts)| ==> Flat(ts)[n] == ts[PageOf(n, size)][OffsetOf(n, size)]
  {
    if ts != [] {
      ShapedTail(ts, size);
      if n >= size {
        var k := PageOf(n, size);
        FlatIndex(ts[1..], size, n - size);
        if k < |ts| {
          assert ts[1..][k - 1] == ts[k];
          if ts[k] != [] { PartOfFlat(ts[1..], k - 1); }
        }
      } else {
        assert PageOf(n, size) == 0 && OffsetOf(n, size) == n;
        assert Flat(ts) == ts[0] + Flat(ts[1..]);
      }
    }
  }

  /** Taking p + size tokens of t + f, when t is full or all there is. */
  lemma TakeCons(t: seq<int>, f: seq<int>, p: nat, size: nat)
    requires |t| <= size && (|t| == size || f == [])
    ensures t + f[..Min(|f|, p)] == (t + f)[..Min(|t + f|, p + size)]
  {
  }

  /** Keeping k whole pages keeps the first k * size tokens. */
  lemma {:induction false} FlatTake(ts: seq<seq<int>>, size: nat, k: nat)
    requires Shaped(ts, size) && k <= |ts|
    ensures Shaped(ts[..k], size)
    ensures Flat(ts[..k]) == Flat(ts)[..Min(|Flat(ts)|, Times(k, size))]
  {
    if k > 0 {
      ShapedTail(ts, size);
      FlatTake(ts[1..], size, k - 1);
      assert ts[..k] == [ts[0]] + ts[1..][..k - 1];
      ShapedCons(ts[0], ts[1..][..k - 1], size);
      TakeCons(ts[0], Flat(ts[1..]), Times(k - 1, size), size);
    }
  }

  lemma CutCons(ts: seq<seq<int>>, k: nat, last: seq<int>)
    requires 0 < k < |ts|
    ensures ts[..k] + [last] == [ts[0]] + (ts[1..][..k - 1] + [last])
    ensures ts[1..][k - 1] == ts[k]
  {
  }

  lemma FlatHead(ts: seq<seq<int>>, m: nat, size: nat)
    requires ts != [] && Shaped(ts, size) && m <= size
    ensures Shaped([ts[0][..Min(|ts[0]|, m)]], size)
    ensures Flat([ts[0][..Min(|ts[0]|, m)]]) == Flat(ts)[..Min(|Flat(ts)|, m)]
  {
    var last := ts[0][..Min(|ts[0]|, m)];
    ShapedTail(ts, size);
    assert Flat([last]) == last + Flat([]) == last;
    assert Flat(ts) == ts[0] + Flat(ts[1..]);
  }

  /** Keeping k whole pages and m tokens of the next keeps k * size + m tokens. */
  lemma {:induction false} FlatCut(ts: seq<seq<int>>, size: nat, k: nat, m: nat)
    requires Shaped(ts, size) && k < |ts| && m <= size
    ensures Shaped(ts[..k] + [ts[k][..Min(|ts[k]|, m)]], size)
    ensures Flat(ts[..k] + [ts[k][..Min(|ts[k]|, m)]]) == Flat(ts)[..Min(|Flat(ts)|, Times(k, size) + m)]
  {
    if k == 0 {
      assert ts[..k] + [ts[k][..Min(|ts[k]|, m)]] == [ts[0][..Min(|ts[0]|, m)]];
      FlatHead(ts, m, size);
    } else {
      FlatCut(ts[1..], size, k - 1, m);
      FlatCutCons(ts, size, k, m);
    }
  }

  lemma FlatCutCons(ts: seq<seq<int>>, size: nat, k: nat, m: nat)
    requires Shaped(ts, size) && 0 < k < |ts| && m <= size
    requires var rest, last := ts[1..], ts[1..][k - 1][..Min(|ts[1..][k - 1]|, m)];
             && Shaped(rest[..k - 1] + [last], size)
             && Flat(rest[..k - 1] + [last]) == Flat(rest)[..Min(|Flat(rest)|, Times(k - 1, size) + m)]
    ensures Shaped(ts[..k] + [ts[k][..Min(|ts[k]|, m)]], size)
    ensures Flat(ts[..k] + [ts[k][..Min(|ts[k]|, m)]]) == Flat(ts)[..Min(|Flat(ts)|, Times(k, size) + m)]
  {
    var last := ts[k][..Min(|ts[k]|, m)];
    ShapedTail(ts, size);
    CutCons(ts, k, last);
    ShapedCons(ts[0], ts[1..][..k - 1] + [last], size);
    TakeCons(ts[0], Flat(ts[1..]), Times(k - 1, size) + m, size);
  }

  lemma UpdateCons(ts: seq<seq<int>>, k: nat, t: seq<int>)
    requires k + 1 < |ts|
    ensures [ts[0]] + ts[1..][k := t] == ts[k + 1 := t]
  {
  }

  /** Pushing onto the page that position |history| falls into appends to it. */
  lemma {:induction false} FlatPush(ts: seq<seq<int>>, size: nat, x: int)
    requires size > 0 && Shaped(ts, size) && |Flat(ts)| < Times(|ts|, size)
    ensures var k := PageOf(|Flat(ts)|, size);
            && k < |ts| && |ts[k]| == OffsetOf(|Flat(ts)|, size)
            && Shaped(ts[k := ts[k] + [x]], size)
            && Flat(ts[k := ts[k] + [x]]) == Flat(ts) + [x]
  {
    ShapedTail(ts, size);
    var rest := ts[1..];
    if |ts[0]| < size {
      ShapedCons(ts[0] + [x], rest, size);
      assert [ts[0] + [x]] + rest == ts[0 := ts[0] + [x]];
    } else {
      FlatPush(rest, size, x);
      var k := PageOf(|Flat(rest)|, size);
      ShapedCons(ts[0], rest[k := rest[k] + [x]], size);
      UpdateCons(ts, k, rest[k] + [x]);
    }
  }
}
