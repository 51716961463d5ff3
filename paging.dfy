/**
 * The paging both listings use: `.limit(limit).skip((page - 1) * limit)` on a
 * query, and `Math.ceil(total / limit)` for the page count. The store rejects
 * a negative skip; a limit of 0 means "no limit"; a negative limit returns at
 * most its absolute value of documents, in a single batch; and a page count
 * divided by 0 is `Infinity` or `NaN`, both of which reach the client as `null`.
 */
module Paging {
  import opened Wrappers

  /** How many documents the store returns at most for `limit` (0: all of them). */
  function Abs(limit: int): (n: nat)
    ensures n == limit || n == -limit
  {
    if limit < 0 then -limit else limit
  }

  /** How many listed documents `(page - 1) * limit` skips. */
  function Skip(page: int, limit: int): int {
    (page - 1) * limit
  }

  /**
   * The skip is negative exactly when the page is below 1 with a positive
   * limit, or above 1 with a negative one.
   */
  lemma SkipSign(page: int, limit: int)
    ensures Skip(page, limit) < 0 <==> (page < 1 && limit > 0) || (page > 1 && limit < 0)
  {
    if page < 1 && limit > 0 {
      MulMonotone(page - 1, -1, limit);
    } else if page > 1 && limit < 0 {
      MulMonotone(limit, -1, page - 1);
    } else if page >= 1 && limit >= 0 {
      MulMonotone(0, page - 1, limit);
    } else if page <= 1 && limit <= 0 {
      MulMonotone(limit, 0, 1 - page);
    }
  }

  /** The documents after the first `skip`, at most `limit` of them (all of them for 0). */
  function Window<T>(xs: seq<T>, skip: nat, limit: nat): (w: seq<T>)
    ensures limit > 0 ==> |w| <= limit
    ensures forall k :: 0 <= k < |w| ==> skip + k < |xs| && w[k] == xs[skip + k]
    ensures limit == 0 && skip == 0 ==> w == xs
    ensures skip >= |xs| ==> w == []
    ensures skip < |xs| ==> |w| == if limit == 0 || skip + limit > |xs| then |xs| - skip else limit
  {
    if skip >= |xs| then []
    else if limit == 0 || skip + limit > |xs| then xs[skip..]
    else xs[skip..skip + limit]
  }

  /** One page of `xs`, or nothing when the skip is negative (the store's error). */
  function Page<T>(xs: seq<T>, page: int, limit: int): (r: Option<seq<T>>)
    ensures r.None? <==> (page < 1 && limit > 0) || (page > 1 && limit < 0)
    ensures r.Some? ==> Skip(page, limit) >= 0 && r.value == Window(xs, Skip(page, limit), Abs(limit))
  {
    var skip := Skip(page, limit);
    SkipSign(page, limit);
    if skip < 0 then None else Some(Window(xs, skip, Abs(limit)))
  }

  /**
   * `Math.ceil(total / limit)`: the integer n with n - 1 < total / limit <= n;
   * `None` stands for the `null` of a division by zero. A negative limit
   * gives a page count of 0 or below.
   */
  function TotalPages(total: nat, limit: int): (r: Option<int>)
    ensures r.None? <==> limit == 0
    ensures r.Some? && limit > 0 ==> (r.value - 1) * limit < total <= r.value * limit
    ensures r.Some? && limit < 0 ==> r.value * limit <= total < (r.value - 1) * limit
    ensures r.Some? && limit > 0 ==> (r.value == 0 <==> total == 0)
    ensures r.Some? && limit < 0 ==> r.value <= 0 && (r.value == 0 <==> total < -limit)
  {
    if limit == 0 then None
    else if limit > 0 then Some((total + limit - 1) / limit)
    else Some(-(total / -limit))
  }

  /**
   * A negative limit mirrors the pages of its absolute value: page `p` up to
   * 1 is page `2 - p` of the positive limit, so page 1 holds the first
   * documents and page 0 the next ones.
   */
  lemma NegativeLimitMirrors<T>(xs: seq<T>, page: int, limit: int)
    requires limit < 0 && page <= 1
    ensures Page(xs, page, limit) == Page(xs, 2 - page, -limit)
  {
    assert Skip(page, limit) == Skip(2 - page, -limit);
  }

  /**
   * With a positive limit, a page number in range has a non-empty page, and
   * exactly the pages 1 to `TotalPages` are non-empty.
   */
  lemma PageNonEmptyIffInRange<T>(xs: seq<T>, page: int, limit: int)
    requires limit > 0 && page >= 1
    ensures Page(xs, page, limit).Some?
    ensures Page(xs, page, limit).value != [] <==> page <= TotalPages(|xs|, limit).value
  {
    var n := TotalPages(|xs|, limit).value;
    SkipSign(page, limit);
    if page <= n {
      MulMonotone(page - 1, n - 1, limit);
    } else {
      MulMonotone(n, page - 1, limit);
    }
  }

  lemma MulMonotone(a: int, b: int, c: int)
    requires c >= 0
    requires a <= b
    ensures a * c <= b * c
  {
  }

  /** Element `k` of the listing sits on page `k / limit + 1` at position `k % limit`. */
  lemma ElementOnItsPage<T>(xs: seq<T>, k: nat, limit: int)
    requires k < |xs| && limit > 0
    ensures var p := Page(xs, k / limit + 1, limit);
            p.Some? && k % limit < |p.value| && p.value[k % limit] == xs[k]
  {
    var skip := Skip(k / limit + 1, limit);
    assert skip + k % limit == k;
    var p := Page(xs, k / limit + 1, limit);
    assert p.Some?;
    if skip + limit <= |xs| {
      assert p.value == xs[skip..skip + limit];
    } else {
      assert p.value == xs[skip..];
    }
  }
}
