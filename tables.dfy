/** Query-set helpers shared by the ORM models: `filter(...)` over a table kept as a sequence
    of rows, and slicing. */
module Tables {

  /** `queryset.filter(cond)`: the rows satisfying `keep`, in table order. */
  function Filter<T(==,!new)>(xs: seq<T>, keep: T -> bool): (r: seq<T>)
    ensures |r| <= |xs|
    ensures forall x :: x in r <==> x in xs && keep(x)
    ensures forall k :: 0 <= k < |r| ==> keep(r[k])
  {
    if |xs| == 0 then []
    else
      var rest := Filter(xs[1..], keep);
      assert forall x :: x in xs <==> x == xs[0] || x in xs[1..];
      if keep(xs[0]) then [xs[0]] + rest else rest
  }

  /** Filtering twice is filtering by the conjunction. */
  lemma {:induction false} FilterFilter<T(!new)>(xs: seq<T>, p: T -> bool, q: T -> bool, both: T -> bool)
    requires forall x :: both(x) == (p(x) && q(x))
    ensures Filter(Filter(xs, p), q) == Filter(xs, both)
  {
    if |xs| > 0 {
      FilterFilter(xs[1..], p, q, both);
      if p(xs[0]) {
        assert ([xs[0]] + Filter(xs[1..], p))[1..] == Filter(xs[1..], p);
      }
    }
  }

  /** A row kept by a stronger condition is kept by a weaker one: the filter's count is
      monotone. */
  lemma {:induction false} FilterMonotone<T(!new)>(xs: seq<T>, p: T -> bool, q: T -> bool)
    requires forall x :: p(x) ==> q(x)
    ensures |Filter(xs, p)| <= |Filter(xs, q)|
  {
    if |xs| > 0 {
      FilterMonotone(xs[1..], p, q);
    }
  }

  function Min(a: nat, b: nat): nat { if a <= b then a else b }

  /** `queryset[:limit]` */
  function Take<T>(xs: seq<T>, limit: nat): (r: seq<T>)
    ensures |r| == Min(limit, |xs|)
    ensures forall k :: 0 <= k < |r| ==> r[k] == xs[k]
  {
    xs[..Min(limit, |xs|)]
  }
}
