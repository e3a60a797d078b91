/** Offset pagination as the handlers compute it: `skip = (page - 1) * limit`, a slice of
    `limit` items from there, and `Math.ceil(total / limit)` pages. */
module Paging {
  import opened Wrappers
  import opened JsSemantics
  import RankOrder

  /** Page `page` of `limit` items: `all.slice(skip, skip + limit)` with `skip = (page - 1) * limit`. */
  function Page<T>(all: seq<T>, page: int, limit: int): seq<T> {
    var skip := (page - 1) * limit;
    Slice(all, skip, skip + limit)
  }

  /** `Math.ceil(total / limit)`; dividing by zero gives `Infinity` or `NaN`, which a JSON
      reply carries as `null`, here `None`. */
  function TotalPages(total: nat, limit: int): Option<int> {
    if limit == 0 then None else Some(Ceil(total as real / limit as real))
  }

  /** The page bounds: with a positive `limit` and `page >= 1`, page `page` is the positions
      `[(page - 1) * limit, page * limit)` that exist. */
  lemma PageBounds<T>(all: seq<T>, page: int, limit: int)
    requires limit > 0 && page >= 1
    ensures var lo := (page - 1) * limit;
            var hi := if page * limit < |all| then page * limit else |all|;
            Page(all, page, limit) == if lo < hi then all[lo..hi] else []
  {
    var lo := (page - 1) * limit;
    assert lo >= 0 by { MulNonNeg(page - 1, limit); }
    assert lo + limit == page * limit;
  }

  lemma MulNonNeg(a: int, b: int)
    requires a >= 0 && b >= 0
    ensures a * b >= 0
  {
  }

  /** Different pages of a repetition-free sequence share no item. */
  lemma PagesDisjoint<T>(all: seq<T>, limit: int, p: int, q: int, x: T)
    requires RankOrder.Distinct(all)
    requires limit > 0 && 1 <= p < q
    requires x in Page(all, p, limit)
    ensures x !in Page(all, q, limit)
  {
    MulMono(p, q - 1, limit);
    var a := PagePosition(all, p, limit, x);
    var endP, startQ := p * limit, (q - 1) * limit;
    assert a < endP <= startQ;
    PageBounds(all, q, limit);
    forall j | startQ <= j < |all| ensures all[j] != x {
      assert j != a;
    }
  }

  lemma MulMono(a: int, b: int, c: int)
    requires a <= b && c >= 0
    ensures a * c <= b * c
  {
    MulNonNeg(b - a, c);
  }

  /** Every item appears, on page `k / limit + 1`, and that page is within `totalPages`. */
  lemma EveryItemListed<T>(all: seq<T>, limit: int, k: nat)
    requires limit > 0 && k < |all|
    ensures all[k] in Page(all, k / limit + 1, limit)
    ensures TotalPages(|all|, limit).Some? && k / limit + 1 <= TotalPages(|all|, limit).value
  {
    var page := k / limit + 1;
    DivBounds(k, limit);
    PageBounds(all, page, limit);
    var lo := (page - 1) * limit;
    var hi := if page * limit < |all| then page * limit else |all|;
    assert all[lo..hi][k - lo] == all[k];
    TotalPagesBounds(|all|, limit);
    var tp := TotalPages(|all|, limit).value;
    if tp < page {
      MulMono(tp, page - 1, limit);
      assert false;
    }
  }

  /** `k` lies on the page that starts at `(k / limit) * limit`. */
  lemma DivBounds(k: nat, limit: int)
    requires limit > 0
    ensures (k / limit) * limit <= k < (k / limit + 1) * limit
  {
    var q := k / limit;
    var r := k % limit;
    assert k == q * limit + r && 0 <= r < limit;
    assert (q + 1) * limit == q * limit + limit;
  }

  /** `totalPages` is the least number of pages of `limit` items that holds them all. */
  lemma TotalPagesBounds(n: nat, limit: int)
    requires limit > 0
    ensures TotalPages(n, limit).Some?
    ensures var tp := TotalPages(n, limit).value;
            (tp - 1) * limit < n <= tp * limit
  {
    var tp := TotalPages(n, limit).value;
    CeilBounds(n, limit, tp);
  }

  /** The integer reading of `tp - 1 < n / limit <= tp`. */
  lemma CeilBounds(n: int, limit: int, tp: int)
    requires limit > 0
    requires (tp - 1) as real < n as real / limit as real <= tp as real
    ensures (tp - 1) * limit < n <= tp * limit
  {
    var l := limit as real;
    var x := n as real / l;
    DivMul(n as real, l);
    Sandwich((tp - 1) as real, x, tp as real, l, n as real);
    CastProduct(tp - 1, limit);
    CastProduct(tp, limit);
  }

  lemma DivMul(n: real, l: real)
    requires l > 0.0
    ensures (n / l) * l == n
  {
  }

  lemma Sandwich(a: real, x: real, b: real, l: real, n: real)
    requires l > 0.0 && a < x <= b && x * l == n
    ensures a * l < n <= b * l
  {
    RealScale(a, x, l);
    RealScale(x, b, l);
  }

  lemma CastProduct(a: int, b: int)
    ensures (a * b) as real == a as real * b as real
  {
  }

  lemma RealScale(a: real, b: real, c: real)
    requires c > 0.0
    ensures a < b ==> a * c < b * c
    ensures a <= b ==> a * c <= b * c
  {
  }

  /** Pages of a sequence sorted by descending key: an item on an earlier page has a key no
      smaller than any item on a later page. */
  lemma SortedPagesOrdered<T>(all: seq<T>, key: T -> int, limit: int, p: int, q: int, x: T, y: T)
    requires RankOrder.SortedDesc(all, key)
    requires limit > 0 && 1 <= p < q
    requires x in Page(all, p, limit) && y in Page(all, q, limit)
    ensures key(x) >= key(y)
  {
    MulMono(p, q - 1, limit);
    var a := PagePosition(all, p, limit, x);
    var b := PagePosition(all, q, limit, y);
    var endP, startQ := p * limit, (q - 1) * limit;
    assert a < endP <= startQ <= b;
  }

  /** Where an element of a page sits in the whole sequence. */
  lemma PagePosition<T>(all: seq<T>, page: int, limit: int, x: T) returns (i: nat)
    requires limit > 0 && page >= 1 && x in Page(all, page, limit)
    ensures (page - 1) * limit <= i < page * limit && i < |all| && all[i] == x
  {
    PageBounds(all, page, limit);
    var lo := (page - 1) * limit;
    var hi := if page * limit < |all| then page * limit else |all|;
    var j :| 0 <= j < hi - lo && all[lo..hi][j] == x;
    i := lo + j;
  }
}
