/** Skip/limit windows over a sequence, the page count `ceil(total / limit)`, and the list
    of consecutive fixed-size pages. The query service pages its sorted matches with these,
    and the importer's flushed batches are the pages of size 1000 of the decoded rows. */
module Paging {

  function Min(a: int, b: int): int {
    if a <= b then a else b
  }

  /** How many elements the pages before page `page` (counted from 1) hold when every page
      holds `size`: `(page - 1) * size`, built up by repeated addition. */
  function Offset(page: nat, size: nat): nat {
    if page <= 1 then 0 else Offset(page - 1, size) + size
  }

  /** The offset of page `page` is the product `(page - 1) * size`. */
  lemma {:induction false} OffsetIsProduct(page: nat, size: nat)
    requires page >= 1
    ensures Offset(page, size) == (page - 1) * size
  {
    if page > 1 {
      OffsetIsProduct(page - 1, size);
      assert (page - 1) * size == (page - 2) * size + size;
    }
  }

  /** Later pages start no earlier. */
  lemma {:induction false} OffsetMonotone(a: nat, b: nat, size: nat)
    requires a <= b
    ensures Offset(a, size) <= Offset(b, size)
    decreases b
  {
    if a < b {
      OffsetMonotone(a, b - 1, size);
    }
  }

  /** The fewest pages of `size` that hold `total` elements. */
  function CeilDiv(total: nat, size: nat): (pages: nat)
    requires size >= 1
    ensures pages == 0 <==> total == 0
    ensures total <= Offset(pages + 1, size)
    ensures pages > 0 ==> Offset(pages, size) < total
    decreases total
  {
    if total == 0 then 0
    else if total <= size then 1
    else CeilDiv(total - size, size) + 1
  }

  /** The page count is the one page number whose page holds the last element. */
  lemma CeilDivUnique(total: nat, size: nat, p: nat)
    requires size >= 1 && p >= 1
    requires Offset(p, size) < total <= Offset(p + 1, size)
    ensures CeilDiv(total, size) == p
  {
    var c := CeilDiv(total, size);
    if c < p {
      OffsetMonotone(c + 1, p, size);
    } else if c > p {
      OffsetMonotone(p + 1, c, size);
    }
  }

  /** Multiplying by a natural number keeps the order of natural numbers. */
  lemma MulMonotone(a: nat, b: nat, d: nat)
    requires a <= b
    ensures a * d <= b * d
  {
    assert b * d == a * d + (b - a) * d;
  }

  /** A quotient is determined by the interval the dividend falls in. */
  lemma DivisionUnique(n: nat, d: nat, q: nat)
    requires d >= 1 && q * d <= n < q * d + d
    ensures n / d == q
  {
    var a := n / d;
    assert n == a * d + n % d;
    if a < q {
      MulMonotone(a + 1, q, d);
    } else if a > q {
      MulMonotone(q + 1, a, d);
    }
  }

  /** The page count is `Math.ceil(total / size)`, written for whole numbers as the quotient
      `(total + size - 1) / size`. */
  lemma CeilDivIsCeiling(total: nat, size: nat)
    requires size >= 1
    ensures CeilDiv(total, size) == (total + size - 1) / size
    ensures CeilDiv(total, size) * size >= total
    ensures CeilDiv(total, size) > 0 ==> (CeilDiv(total, size) - 1) * size < total
  {
    var p := CeilDiv(total, size);
    OffsetIsProduct(p + 1, size);
    if p > 0 {
      OffsetIsProduct(p, size);
      assert (p - 1) * size + size == p * size;
      DivisionUnique(total + size - 1, size, p);
    } else {
      DivisionUnique(size - 1, size, 0);
    }
  }

  /** `.skip(skip).limit(take)`: at most `take` elements starting at position `skip`,
      nothing once `skip` is at or past the end. */
  function Window<T>(xs: seq<T>, skip: nat, take: nat): (w: seq<T>)
    ensures |w| == (if skip >= |xs| then 0 else Min(take, |xs| - skip))
    ensures forall k :: 0 <= k < |w| ==> w[k] == xs[skip + k]
  {
    if skip >= |xs| then [] else xs[skip..Min(skip + take, |xs|)]
  }

  /** A window that starts inside `xs` is the slice from its start to its end. */
  lemma WindowIsSlice<T>(xs: seq<T>, skip: nat, take: nat)
    requires skip < |xs|
    ensures Window(xs, skip, take) == xs[skip..Min(skip + take, |xs|)]
  {
  }

  /** Page number `page`, counted from 1, of `xs` cut into pages of `size`. */
  function PageOf<T>(xs: seq<T>, page: nat, size: nat): seq<T>
    requires page >= 1
  {
    Window(xs, Offset(page, size), size)
  }

  /** The first `k` pages of `xs`. */
  function Pages<T>(xs: seq<T>, size: nat, k: nat): (ps: seq<seq<T>>)
    ensures |ps| == k
    ensures forall j :: 0 <= j < k ==> ps[j] == PageOf(xs, j + 1, size)
  {
    if k == 0 then [] else Pages(xs, size, k - 1) + [PageOf(xs, k, size)]
  }

  /** All non-empty pages of `xs`, in order. */
  function PageList<T>(xs: seq<T>, size: nat): seq<seq<T>>
    requires size >= 1
  {
    Pages(xs, size, CeilDiv(|xs|, size))
  }

  /** The concatenation of a sequence of sequences. */
  function Flatten<T>(xss: seq<seq<T>>): seq<T>
  {
    if |xss| == 0 then [] else Flatten(xss[..|xss| - 1]) + xss[|xss| - 1]
  }

  lemma FlattenAppend<T>(xss: seq<seq<T>>, ys: seq<T>)
    ensures Flatten(xss + [ys]) == Flatten(xss) + ys
  {
    assert (xss + [ys])[..|xss|] == xss;
  }

  /** The elements before `start` followed by the window at `start` are the elements before
      the window's end. */
  lemma PrefixThenWindow<T>(xs: seq<T>, start: nat, size: nat)
    ensures xs[..Min(start, |xs|)] + Window(xs, start, size) == xs[..Min(start + size, |xs|)]
  {
    if start < |xs| {
      var end := Min(start + size, |xs|);
      assert Window(xs, start, size) == xs[start..end];
      assert xs[..start] + xs[start..end] == xs[..end];
    }
  }

  /** The first `k` pages, laid end to end, are the elements before page `k + 1`. */
  lemma {:induction false} PagesFlatten<T>(xs: seq<T>, size: nat, k: nat)
    ensures Flatten(Pages(xs, size, k)) == xs[..Min(Offset(k + 1, size), |xs|)]
  {
    if k > 0 {
      var prev := Pages(xs, size, k - 1);
      var page := PageOf(xs, k, size);
      assert Pages(xs, size, k) == prev + [page];
      PagesFlatten(xs, size, k - 1);
      FlattenAppend(prev, page);
      assert Offset(k + 1, size) == Offset(k, size) + size;
      PrefixThenWindow(xs, Offset(k, size), size);
    }
  }

  /** Pages 1 to `ceil(|xs| / size)`, laid end to end, reproduce `xs` exactly: the pages are
      disjoint, in order and leave nothing out. */
  lemma PageListFlatten<T>(xs: seq<T>, size: nat)
    requires size >= 1
    ensures Flatten(PageList(xs, size)) == xs
  {
    PagesFlatten(xs, size, CeilDiv(|xs|, size));
  }

  /** Page `page` holds the elements from position `(page - 1) * size` on: `size` of them,
      or the fewer that remain there, and none once that position is at or past the end. */
  lemma PageAtSkip<T>(xs: seq<T>, page: nat, size: nat)
    requires page >= 1
    ensures |PageOf(xs, page, size)| ==
              (if (page - 1) * size >= |xs| then 0 else Min(size, |xs| - (page - 1) * size))
    ensures forall k :: 0 <= k < |PageOf(xs, page, size)| ==>
              PageOf(xs, page, size)[k] == xs[(page - 1) * size + k]
  {
    OffsetIsProduct(page, size);
  }

  /** Every page of the list holds between 1 and `size` elements, and all but the last
      hold exactly `size`. */
  lemma PageListShape<T>(xs: seq<T>, size: nat)
    requires size >= 1
    ensures forall j :: 0 <= j < |PageList(xs, size)| ==> 1 <= |PageList(xs, size)[j]| <= size
    ensures forall j :: 0 <= j < |PageList(xs, size)| - 1 ==> |PageList(xs, size)[j]| == size
  {
    var c := CeilDiv(|xs|, size);
    var ps := PageList(xs, size);
    forall j | 0 <= j < c
      ensures 1 <= |ps[j]| <= size
      ensures j < c - 1 ==> |ps[j]| == size
    {
      assert ps[j] == PageOf(xs, j + 1, size);
      OffsetMonotone(j + 1, c, size);
      if j < c - 1 {
        OffsetMonotone(j + 2, c, size);
        assert Offset(j + 2, size) == Offset(j + 1, size) + size;
      }
    }
  }

  /** The first `n` pages, for `n` up to the page count, each hold between 1 and `size`
      elements, and all but the last of them hold exactly `size`. */
  lemma PagesShape<T>(xs: seq<T>, size: nat, n: nat)
    requires size >= 1 && n <= CeilDiv(|xs|, size)
    ensures forall j :: 0 <= j < n ==> 1 <= |Pages(xs, size, n)[j]| <= size
    ensures forall j :: 0 <= j < n - 1 ==> |Pages(xs, size, n)[j]| == size
  {
    var ps := Pages(xs, size, n);
    var all := PageList(xs, size);
    PageListShape(xs, size);
    forall j | 0 <= j < n
      ensures 1 <= |ps[j]| <= size
      ensures j < n - 1 ==> |ps[j]| == size
    {
      assert ps[j] == all[j];
    }
  }

  /** A page past the last one is empty: asking for it is not an error. */
  lemma PageBeyondEnd<T>(xs: seq<T>, page: nat, size: nat)
    requires size >= 1 && page > CeilDiv(|xs|, size)
    ensures PageOf(xs, page, size) == []
  {
    OffsetMonotone(CeilDiv(|xs|, size) + 1, page, size);
  }

  /** A page within range is the corresponding entry of the page list. */
  lemma PageInRange<T>(xs: seq<T>, page: nat, size: nat)
    requires size >= 1 && 1 <= page <= CeilDiv(|xs|, size)
    ensures PageOf(xs, page, size) == PageList(xs, size)[page - 1]
    ensures PageOf(xs, page, size) != []
  {
    PageListShape(xs, size);
  }

  /** A full window at the offset of page `|pages| + 1`, following its first `|pages|` pages,
      is that next page. */
  lemma NextFullPage<T>(xs: seq<T>, pages: seq<seq<T>>, size: nat, count: nat, page: seq<T>)
    requires size >= 1
    requires pages == Pages(xs, size, |pages|)
    requires count == Offset(|pages| + 1, size)
    requires |page| == size && count + size <= |xs| && page == xs[count..count + size]
    ensures page == PageOf(xs, |pages| + 1, size)
    ensures pages + [page] == Pages(xs, size, |pages| + 1)
    ensures count + |page| == Offset(|pages| + 2, size)
    ensures xs[..count] + page == xs[..count + |page|]
  {
    WindowIsSlice(xs, count, size);
  }

  /** A non-empty remainder shorter than a page, following the first `|pages|` pages, is the
      last page. */
  lemma LastShortPage<T>(xs: seq<T>, pages: seq<seq<T>>, size: nat, count: nat, page: seq<T>)
    requires size >= 1
    requires pages == Pages(xs, size, |pages|)
    requires count == Offset(|pages| + 1, size)
    requires 0 < |page| < size && count + |page| == |xs| && page == xs[count..]
    ensures page == PageOf(xs, |pages| + 1, size)
    ensures pages + [page] == Pages(xs, size, |pages| + 1)
    ensures CeilDiv(|xs|, size) == |pages| + 1
    ensures xs[..count] + page == xs
  {
    ShortTailIsPage(xs, |pages| + 1, size, page);
    assert CeilDiv(|xs|, size) == |pages| + 1 by {
      ShortTailCount(|xs|, size, |pages| + 1);
    }
    assert Pages(xs, size, |pages| + 1) == pages + [PageOf(xs, |pages| + 1, size)];
    assert xs[..count] + page == xs by {
      assert xs[..count] + xs[count..] == xs;
    }
  }

  /** The elements from the start of page `p` on, when fewer than a page, are page `p`. */
  lemma ShortTailIsPage<T>(xs: seq<T>, p: nat, size: nat, tail: seq<T>)
    requires p >= 1
    requires Offset(p, size) < |xs| && |xs| - Offset(p, size) < size
    requires tail == xs[Offset(p, size)..]
    ensures PageOf(xs, p, size) == tail
  {
    WindowIsSlice(xs, Offset(p, size), size);
  }

  /** When page `p` starts before the end and less than a page remains, there are `p` pages. */
  lemma ShortTailCount(total: nat, size: nat, p: nat)
    requires size >= 1 && p >= 1
    requires Offset(p, size) < total < Offset(p, size) + size
    ensures CeilDiv(total, size) == p
  {
    assert Offset(p + 1, size) == Offset(p, size) + size;
    CeilDivUnique(total, size, p);
  }
}
