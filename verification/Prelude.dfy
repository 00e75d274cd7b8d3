/** Small shared vocabulary: optional values, results, and folds over sequences. */
module Prelude {

  datatype Option<+T> = None | Some(value: T) {
    function GetOr(default: T): T {
      match this
      case Some(v) => v
      case None => default
    }
  }

  datatype Result<+T, +E> = Ok(value: T) | Err(error: E)

  function Min(a: int, b: int): int { if a <= b then a else b }

  function Max(a: int, b: int): int { if a >= b then a else b }

  /** The elements of xs that satisfy keep, in order. */
  function Filter<T>(xs: seq<T>, keep: T -> bool): seq<T> {
    if xs == [] then []
    else
      Filter(xs[..|xs| - 1], keep) + (if keep(xs[|xs| - 1]) then [xs[|xs| - 1]] else [])
  }

  lemma {:induction false} FilterMembers<T(!new)>(xs: seq<T>, keep: T -> bool)
    ensures forall x :: x in Filter(xs, keep) <==> x in xs && keep(x)
    ensures |Filter(xs, keep)| <= |xs|
  {
    if xs != [] {
      FilterMembers(xs[..|xs| - 1], keep);
      assert xs == xs[..|xs| - 1] + [xs[|xs| - 1]];
    }
  }

  lemma {:induction false} FilterAppend<T(!new)>(xs: seq<T>, ys: seq<T>, keep: T -> bool)
    ensures Filter(xs + ys, keep) == Filter(xs, keep) + Filter(ys, keep)
    decreases |ys|
  {
    if ys == [] {
      assert xs + ys == xs;
    } else {
      var init := ys[..|ys| - 1];
      assert (xs + ys)[..|xs + ys| - 1] == xs + init;
      FilterAppend(xs, init, keep);
    }
  }

  lemma {:induction false} FilterAgree<T(!new)>(xs: seq<T>, p: T -> bool, q: T -> bool)
    requires forall x :: x in xs ==> p(x) == q(x)
    ensures Filter(xs, p) == Filter(xs, q)
  {
    if xs != [] {
      FilterAgree(xs[..|xs| - 1], p, q);
    }
  }

  /** Filtering twice keeps what satisfies both conditions. */
  lemma {:induction false} FilterTwice<T(!new)>(xs: seq<T>, p: T -> bool, q: T -> bool, both: T -> bool)
    requires forall x :: x in xs ==> both(x) == (p(x) && q(x))
    ensures Filter(Filter(xs, p), q) == Filter(xs, both)
  {
    if xs != [] {
      var init, last := xs[..|xs| - 1], xs[|xs| - 1];
      FilterTwice(init, p, q, both);
      FilterAppend(Filter(init, p), if p(last) then [last] else [], q);
      assert Filter([last], q) == if q(last) then [last] else [] by {
        assert [last][..0] == [];
      }
    }
  }

  lemma FilterSingle<T(!new)>(x: T, keep: T -> bool)
    ensures Filter([x], keep) == if keep(x) then [x] else []
  {
    assert [x][..0] == [];
  }

  /** The sum of f over the elements of xs. */
  function Sum<T>(xs: seq<T>, f: T -> int): int {
    if xs == [] then 0 else Sum(xs[..|xs| - 1], f) + f(xs[|xs| - 1])
  }

  lemma {:induction false} SumAppend<T>(xs: seq<T>, ys: seq<T>, f: T -> int)
    ensures Sum(xs + ys, f) == Sum(xs, f) + Sum(ys, f)
    decreases |ys|
  {
    if ys == [] {
      assert xs + ys == xs;
    } else {
      assert (xs + ys)[..|xs + ys| - 1] == xs + ys[..|ys| - 1];
      SumAppend(xs, ys[..|ys| - 1], f);
    }
  }

  lemma SumSingle<T>(x: T, f: T -> int)
    ensures Sum([x], f) == f(x)
  {
    assert [x][..0] == [];
  }

  lemma {:induction false} SumAgree<T>(xs: seq<T>, f: T -> int, g: T -> int)
    requires forall x :: x in xs ==> f(x) == g(x)
    ensures Sum(xs, f) == Sum(xs, g)
  {
    if xs != [] {
      SumAgree(xs[..|xs| - 1], f, g);
    }
  }

  lemma {:induction false} SumMonotone<T>(xs: seq<T>, f: T -> int, g: T -> int)
    requires forall x :: x in xs ==> f(x) <= g(x)
    ensures Sum(xs, f) <= Sum(xs, g)
  {
    if xs != [] {
      SumMonotone(xs[..|xs| - 1], f, g);
    }
  }

  lemma {:induction false} SumNonnegative<T>(xs: seq<T>, f: T -> int)
    requires forall x :: x in xs ==> 0 <= f(x)
    ensures 0 <= Sum(xs, f)
  {
    if xs != [] {
      SumNonnegative(xs[..|xs| - 1], f);
    }
  }

  /** Splitting a sum by a condition loses nothing. */
  lemma {:induction false} SumSplit<T(!new)>(xs: seq<T>, f: T -> int, p: T -> bool, notP: T -> bool)
    requires forall x :: x in xs ==> notP(x) == !p(x)
    ensures Sum(xs, f) == Sum(Filter(xs, p), f) + Sum(Filter(xs, notP), f)
  {
    if xs != [] {
      var init, last := xs[..|xs| - 1], xs[|xs| - 1];
      SumSplit(init, f, p, notP);
      SumSingle(last, f);
      SumAppend(Filter(init, p), if p(last) then [last] else [], f);
      SumAppend(Filter(init, notP), if notP(last) then [last] else [], f);
    }
  }

  /** A sum over more elements, each worth something, is no smaller. */
  lemma {:induction false} SumOfSubset<T(!new)>(xs: seq<T>, f: T -> int, few: T -> bool, many: T -> bool)
    requires forall x :: x in xs ==> (few(x) ==> many(x)) && 0 <= f(x)
    ensures Sum(Filter(xs, few), f) <= Sum(Filter(xs, many), f)
  {
    if xs != [] {
      var init, last := xs[..|xs| - 1], xs[|xs| - 1];
      SumOfSubset(init, f, few, many);
      FilteredSumLast(xs, f, few);
      FilteredSumLast(xs, f, many);
    }
  }

  lemma FilteredSumLast<T(!new)>(xs: seq<T>, f: T -> int, keep: T -> bool)
    requires xs != []
    ensures var init, last := xs[..|xs| - 1], xs[|xs| - 1];
            Sum(Filter(xs, keep), f) == Sum(Filter(init, keep), f) + (if keep(last) then f(last) else 0)
  {
    var init, last := xs[..|xs| - 1], xs[|xs| - 1];
    SumAppend(Filter(init, keep), if keep(last) then [last] else [], f);
    SumSingle(last, f);
  }

  /** Replacing elements one by one, without changing which are kept and without raising any, lowers the sum. */
  lemma {:induction false} SumPointwise<T(!new)>(xs: seq<T>, ys: seq<T>, keep: T -> bool, f: T -> int, g: T -> int)
    requires |xs| == |ys|
    requires forall i :: 0 <= i < |xs| ==> keep(xs[i]) == keep(ys[i]) && g(ys[i]) <= f(xs[i])
    ensures Sum(Filter(ys, keep), g) <= Sum(Filter(xs, keep), f)
    ensures |Filter(ys, keep)| == |Filter(xs, keep)|
  {
    if xs != [] {
      var n := |xs| - 1;
      SumPointwise(xs[..n], ys[..n], keep, f, g);
      FilteredSumLast(xs, f, keep);
      FilteredSumLast(ys, g, keep);
    }
  }

  ghost predicate NoDuplicates<T(!new)>(xs: seq<T>) {
    forall i, j :: 0 <= i < j < |xs| ==> xs[i] != xs[j]
  }

  /** Changing the value of one element changes the sum by exactly that much. */
  lemma {:induction false} SumChangeOne<T(!new)>(xs: seq<T>, x: T, f: T -> int, g: T -> int)
    requires NoDuplicates(xs) && x in xs
    requires forall y :: y in xs && y != x ==> f(y) == g(y)
    ensures Sum(xs, g) == Sum(xs, f) - f(x) + g(x)
  {
    var init, last := xs[..|xs| - 1], xs[|xs| - 1];
    if last == x {
      assert forall y :: y in init ==> y != x;
      SumAgree(init, f, g);
    } else {
      assert x in init;
      SumChangeOne(init, x, f, g);
    }
  }

  lemma HasMember<T>(xs: seq<T>)
    requires xs != []
    ensures exists x :: x in xs
  {
    assert xs[0] in xs;
  }

  // ---------------------------------------------------------------- sorting

  /** A comparison that sorts: asymmetric, and incomparability is transitive. */
  ghost predicate WeakOrder<T(!new)>(before: (T, T) -> bool) {
    && (forall a, b :: before(a, b) ==> !before(b, a))
    && (forall a, b, c :: before(a, c) ==> before(a, b) || before(b, c))
  }

  ghost predicate SortedBy<T>(before: (T, T) -> bool, xs: seq<T>) {
    forall i, j :: 0 <= i < j < |xs| ==> !before(xs[j], xs[i])
  }

  /** Insert x after every element that does not come after it. */
  function InsertBy<T>(before: (T, T) -> bool, xs: seq<T>, x: T): seq<T> {
    if xs == [] then [x]
    else if before(x, xs[|xs| - 1]) then InsertBy(before, xs[..|xs| - 1], x) + [xs[|xs| - 1]]
    else xs + [x]
  }

  /** The stable sort that the runtime's array sort performs with a comparison. */
  function SortBy<T>(before: (T, T) -> bool, xs: seq<T>): seq<T> {
    if xs == [] then [] else InsertBy(before, SortBy(before, xs[..|xs| - 1]), xs[|xs| - 1])
  }

  lemma {:induction false} InsertKeepsMembers<T>(before: (T, T) -> bool, xs: seq<T>, x: T)
    ensures multiset(InsertBy(before, xs, x)) == multiset(xs) + multiset{x}
  {
    if xs != [] {
      InsertKeepsMembers(before, xs[..|xs| - 1], x);
      assert xs == xs[..|xs| - 1] + [xs[|xs| - 1]];
    }
  }

  lemma {:induction false} InsertSorts<T(!new)>(before: (T, T) -> bool, xs: seq<T>, x: T)
    requires WeakOrder(before) && SortedBy(before, xs)
    ensures SortedBy(before, InsertBy(before, xs, x))
  {
    if xs != [] {
      var init, last := xs[..|xs| - 1], xs[|xs| - 1];
      if before(x, last) {
        InsertSorts(before, init, x);
        InsertKeepsMembers(before, init, x);
        var r := InsertBy(before, init, x);
        forall i | 0 <= i < |r| ensures !before(last, r[i]) {
          assert r[i] in multiset(r);
          assert r[i] in init || r[i] == x;
        }
      } else {
        forall i | 0 <= i < |xs| ensures !before(x, xs[i]) {
          assert i < |xs| - 1 ==> !before(last, xs[i]);
        }
      }
    }
  }

  /** The sort is a sort: ordered, with the same elements the same number of times. */
  lemma {:induction false} SortSorts<T(!new)>(before: (T, T) -> bool, xs: seq<T>)
    requires WeakOrder(before)
    ensures SortedBy(before, SortBy(before, xs)) && multiset(SortBy(before, xs)) == multiset(xs)
    ensures |SortBy(before, xs)| == |xs|
  {
    if xs != [] {
      var init := xs[..|xs| - 1];
      assert xs == init + [xs[|xs| - 1]];
      SortSorts(before, init);
      InsertSorts(before, SortBy(before, init), xs[|xs| - 1]);
      InsertKeepsMembers(before, SortBy(before, init), xs[|xs| - 1]);
    }
    assert |multiset(SortBy(before, xs))| == |SortBy(before, xs)| && |multiset(xs)| == |xs|;
  }
}
