/** Page/limit normalisation shared by the product and category listings: a page or limit
    that is missing or not positive falls back to 1 and 10 respectively, and the listing
    skips the rows of all earlier pages. */
module Pagination {
  import opened Outcomes

  const DefaultPage: int := 1
  const DefaultLimit: int := 10

  /** The page actually served and the window handed to the store. */
  datatype Window = Window(page: int, limit: int, skip: int)

  /** A positive query value, or the fallback when it is missing, zero (falsy) or negative. */
  function PositiveOr(q: Option<int>, fallback: int): (r: int)
    ensures q.Some? && q.value > 0 ==> r == q.value
    ensures !(q.Some? && q.value > 0) ==> r == fallback
  {
    if q.Some? && q.value != 0 && q.value > 0 then q.value else fallback
  }

  /** The window for a listing request. */
  function Paginate(page: Option<int>, limit: Option<int>): (w: Window)
    ensures w.page >= 1 && w.limit >= 1 && w.skip >= 0
    ensures w.page == (if page.Some? && page.value > 0 then page.value else DefaultPage)
    ensures w.limit == (if limit.Some? && limit.value > 0 then limit.value else DefaultLimit)
    ensures w.skip % w.limit == 0 && w.skip / w.limit == w.page - 1
  {
    var p := PositiveOr(page, DefaultPage);
    var l := PositiveOr(limit, DefaultLimit);
    SkipIsPageOffset(p, l);
    Window(p, l, (p - 1) * l)
  }

  lemma SkipIsPageOffset(p: int, l: int)
    requires p >= 1 && l >= 1
    ensures (p - 1) * l >= 0
    ensures ((p - 1) * l) % l == 0 && ((p - 1) * l) / l == p - 1
  {
    MulMono(0, p - 1, l);
    DivOfMultiple(p - 1, l);
  }

  /** Euclidean division of an exact multiple gives back the factor. */
  lemma DivOfMultiple(q: int, l: int)
    requires l >= 1
    ensures (q * l) / l == q && (q * l) % l == 0
  {
    var x := q * l;
    var d := x / l;
    assert x == d * l + x % l && 0 <= x % l < l;
    assert (q - d) * l == x % l;
    if q - d >= 1 {
      MulMono(1, q - d, l);
    } else if q - d <= -1 {
      MulMono(q - d, -1, l);
    }
  }

  /** Page p + 1 starts exactly where page p ends: consecutive pages leave no gap and no overlap. */
  lemma ConsecutivePagesAdjoin(p: int, l: int)
    requires p >= 1 && l >= 1
    ensures Paginate(Some(p + 1), Some(l)).skip == Paginate(Some(p), Some(l)).skip + l
  {
  }

  /** Every row offset lies on exactly one page: page `n / limit + 1`. */
  lemma {:induction false} OffsetOnUniquePage(n: int, l: int, p: int)
    requires n >= 0 && l >= 1 && p >= 1
    ensures var w := Paginate(Some(p), Some(l));
            (w.skip <= n < w.skip + w.limit) <==> p == n / l + 1
  {
    var w := Paginate(Some(p), Some(l));
    assert w.skip == (p - 1) * l && w.limit == l;
    BlockContains(n, l, p - 1);
  }

  /** Offset `n` lies in the block of `l` rows starting at `k * l` exactly when `k` is `n / l`. */
  lemma BlockContains(n: int, l: int, k: int)
    requires n >= 0 && l >= 1 && k >= 0
    ensures (k * l <= n < k * l + l) <==> k == n / l
  {
    var q := n / l;
    assert n == q * l + n % l && 0 <= n % l < l;
    if k < q {
      MulMono(k + 1, q, l);
      MulSucc(k, l);
    } else if k > q {
      MulMono(q + 1, k, l);
      MulSucc(q, l);
    }
  }

  lemma MulSucc(a: int, l: int)
    ensures (a + 1) * l == a * l + l
  {
  }

  lemma MulMono(a: int, b: int, l: int)
    requires a <= b && l >= 0
    ensures a * l <= b * l
  {
  }
}
