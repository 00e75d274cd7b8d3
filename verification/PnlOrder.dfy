/** A report depends on which facts are known, not on their order or on how often they arrive. */
module PnlOrder {
  import opened Prelude
  import opened PnlModel
  import opened PnlReport

  /** Equal identifiers are equal facts, and different facts have different positions on chain. */
  ghost predicate Consistent(facts: seq<Fact>) {
    forall a, b :: a in facts && b in facts ==>
      (a.id == b.id ==> a == b) && (a.id != b.id ==> Precedes(a, b) || Precedes(b, a))
  }

  ghost predicate SameFacts(xs: seq<Fact>, ys: seq<Fact>) {
    forall f :: f in xs <==> f in ys
  }

  ghost predicate StrictlySorted(s: seq<Fact>) {
    forall i, j :: 0 <= i < j < |s| ==> Precedes(s[i], s[j])
  }

  /** Where a fact stands on chain. */
  function Position(f: Fact): seq<nat> { [f.block, f.transactionIndex, f.logIndex, f.factIndex] }

  /** Lexicographic order: the first difference decides. */
  predicate Below(a: seq<nat>, b: seq<nat>)
    requires |a| == |b|
  {
    exists i :: 0 <= i < |a| && a[i] < b[i] && forall j :: 0 <= j < i ==> a[j] == b[j]
  }

  /** Facts are ordered by block, then transaction, then log, then their place within the log. */
  lemma OrderIsLexicographic(a: Fact, b: Fact)
    ensures Precedes(a, b) <==> Below(Position(a), Position(b))
  {
    var p, q := Position(a), Position(b);
    assert p[0] < q[0] ==> Below(p, q);
    assert p[0] == q[0] && p[1] < q[1] ==> Below(p, q);
    assert p[0] == q[0] && p[1] == q[1] && p[2] < q[2] ==> Below(p, q);
    assert p[0] == q[0] && p[1] == q[1] && p[2] == q[2] && p[3] < q[3] ==> Below(p, q);
  }

  lemma SortIsSort(xs: seq<Fact>)
    ensures SortedBy(Precedes, Sort(xs)) && multiset(Sort(xs)) == multiset(xs)
  {
    SortSorts(Precedes, xs);
  }

  lemma SortKeepsFacts(xs: seq<Fact>)
    ensures SameFacts(Sort(xs), xs)
  {
    SortIsSort(xs);
    assert forall f :: f in Sort(xs) <==> f in multiset(Sort(xs));
    assert forall f :: f in xs <==> f in multiset(xs);
  }

  lemma {:induction false} DistinctKeepsFacts(s: seq<Fact>)
    requires Consistent(s)
    ensures SameFacts(Distinct(s), s)
  {
    if s != [] {
      var init, last := s[..|s| - 1], s[|s| - 1];
      assert s == init + [last];
      DistinctKeepsFacts(init);
      if Seen(init, last.id) {
        var i :| 0 <= i < |init| && init[i].id == last.id;
        assert init[i] in s && last in s;
        assert init[i] == last;
      }
    }
  }

  lemma UnseenIsLatest(s: seq<Fact>, d: Fact)
    requires s != [] && Consistent(s) && SortedBy(Precedes, s)
    requires d in s[..|s| - 1] && !Seen(s[..|s| - 1], s[|s| - 1].id)
    ensures Precedes(d, s[|s| - 1])
  {
    hide Precedes;
    var j :| 0 <= j < |s| - 1 && s[j] == d;
    assert s[..|s| - 1][j].id != s[|s| - 1].id;
    assert !Precedes(s[|s| - 1], s[j]);
  }

  lemma {:induction false} DistinctIsStrict(s: seq<Fact>)
    requires Consistent(s) && SortedBy(Precedes, s)
    ensures StrictlySorted(Distinct(s))
  {
    if s != [] {
      var init, last := s[..|s| - 1], s[|s| - 1];
      assert s == init + [last];
      DistinctIsStrict(init);
      DistinctKeepsFacts(init);
      if !Seen(init, last.id) {
        forall d | d in Distinct(init) ensures Precedes(d, last) { UnseenIsLatest(s, d); }
      }
    }
  }

  /** Two strictly sorted sequences of the same facts are equal. */
  lemma {:induction false} StrictlySortedIsUnique(a: seq<Fact>, b: seq<Fact>)
    requires StrictlySorted(a) && StrictlySorted(b) && SameFacts(a, b)
    ensures a == b
    decreases |a|
  {
    if a == [] {
      if b != [] { HasMember(b); }
    } else {
      assert a[|a| - 1] in b;
      LastIsLatest(a, b);
      var x, y := a[..|a| - 1], b[..|b| - 1];
      assert a == x + [a[|a| - 1]] && b == y + [b[|b| - 1]];
      WithoutLast(a);
      WithoutLast(b);
      forall f ensures f in x <==> f in y {
        assert f in x <==> f in a && f != a[|a| - 1];
        assert f in y <==> f in b && f != b[|b| - 1];
      }
      StrictlySortedIsUnique(x, y);
    }
  }

  lemma LastIsLatest(a: seq<Fact>, b: seq<Fact>)
    requires a != [] && b != [] && StrictlySorted(a) && StrictlySorted(b) && SameFacts(a, b)
    ensures a[|a| - 1] == b[|b| - 1]
  {
    var p, q := a[|a| - 1], b[|b| - 1];
    assert p in b && q in a;
    var i :| 0 <= i < |b| && b[i] == p;
    var j :| 0 <= j < |a| && a[j] == q;
    assert i < |b| - 1 ==> Precedes(p, q);
    assert j < |a| - 1 ==> Precedes(q, p);
  }

  lemma WithoutLast(a: seq<Fact>)
    requires a != [] && StrictlySorted(a)
    ensures forall f :: f in a[..|a| - 1] <==> f in a && f != a[|a| - 1]
  {
    forall i | 0 <= i < |a| - 1 ensures a[i] != a[|a| - 1] {
      assert Precedes(a[i], a[|a| - 1]);
    }
  }

  lemma DistinctSorted(xs: seq<Fact>)
    requires Consistent(xs)
    ensures StrictlySorted(Distinct(Sort(xs))) && SameFacts(Distinct(Sort(xs)), xs)
  {
    SortIsSort(xs);
    SortKeepsFacts(xs);
    DistinctIsStrict(Sort(xs));
    DistinctKeepsFacts(Sort(xs));
  }

  /** Order and duplication independence of the whole report. */
  lemma ReportIgnoresOrderAndRepeats(o: Options, xs: seq<Fact>, ys: seq<Fact>)
    requires Consistent(xs) && SameFacts(xs, ys)
    ensures ReportOf(o, xs) == ReportOf(o, ys)
  {
    DistinctSorted(xs);
    DistinctSorted(ys);
    StrictlySortedIsUnique(Distinct(Sort(xs)), Distinct(Sort(ys)));
  }

  /** Replaying a history on top of itself, in any interleaving given by ys, changes nothing. */
  lemma ReplayIsIdempotent(o: Options, xs: seq<Fact>, ys: seq<Fact>)
    requires Consistent(xs) && multiset(ys) == multiset(xs + xs)
    ensures ReportOf(o, ys) == ReportOf(o, xs)
  {
    assert forall f :: f in ys <==> f in multiset(ys);
    assert forall f :: f in xs + xs <==> f in multiset(xs + xs);
    ReportIgnoresOrderAndRepeats(o, xs, ys);
  }
}
