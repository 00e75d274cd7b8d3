/** Reports over adjacent windows and over disjoint markets add up. */
module PnlWindows {
  import opened Prelude
  import opened PnlModel
  import opened PnlReport
  import opened PnlConservation

  // ---------------------------------------------------------------- time

  ghost predicate TimeOrdered(facts: seq<Fact>) {
    forall i, j :: 0 <= i < j < |facts| ==> facts[i].timestamp <= facts[j].timestamp
  }

  /** Every booking carries the time and the market of the fact that caused it. */
  ghost predicate Stamped(es: seq<Entry>, f: Fact) {
    forall e :: e in es ==> e.timestamp == f.timestamp && f.market == Some(e.market)
  }

  lemma {:induction false} SettlementsStamped(c: Core, f: Fact, market: Address, winner: nat, n: nat)
    requires c.Valid() && n <= |c.order|
    ensures Stamped(SettleLosers(c, f, market, winner, n).1, f)
  {
    if n != 0 { SettlementsStamped(c, f, market, winner, n - 1); }
  }

  lemma AcquisitionStamped(c: Core, f: Fact, units: nat, cost: Option<nat>)
    requires f.HasLot() && f.Key() in c.lots
    ensures Stamped(Acquire(c, f, f.Key(), units, cost).bookings, f)
  {
  }

  lemma LotStepStamped(who: Address, c: Core, f: Fact)
    requires f.HasLot() && f.Key() in c.lots
    ensures Stamped(LotStep(who, c, f).bookings, f)
  {
    hide DisposeLot, Acquire, SetLot;
    AcquisitionStamped(c, f, f.Units(), Some(f.Value()));
    AcquisitionStamped(c, f, f.Units(), None);
  }

  lemma BurnFactStamped(c: Core, f: Fact)
    requires f.market.Some?
    ensures Stamped(BurnFact(c, f).bookings, f)
  {
    hide BurnParts;
  }

  lemma ResolveStamped(c: Core, f: Fact)
    requires c.Valid() && f.HasLot()
    ensures Stamped(Resolve(c, f).bookings, f)
  {
    SettlementsStamped(c.(resolved := c.resolved[f.market.value := f.outcome.value]), f,
                       f.market.value, f.outcome.value, |c.order|);
  }

  lemma OtherStepStamped(who: Address, c: Core, f: Fact)
    ensures Stamped(OtherStep(who, c, f).bookings, f)
  {
  }

  lemma NothingStamped(f: Fact)
    ensures Stamped([], f)
  {
  }

  lemma StepStamped(who: Address, c: Core, f: Fact)
    requires c.Valid()
    ensures Stamped(Step(who, c, f).bookings, f)
  {
    hide LotStep, BurnFact, Resolve, OtherStep, Mention, Stamped;
    MentionCost(c, f);
    NothingStamped(f);
    var m := Mention(c, f);
    if MovesShares(f.kind) {
      if f.HasLot() { LotStepStamped(who, m, f); }
    } else if f.kind == MarketResolved {
      if f.HasLot() { ResolveStamped(m, f); }
    } else if IsBurn(f.kind) {
      if f.market.Some? { BurnFactStamped(m, f); }
    } else {
      OtherStepStamped(who, m, f);
    }
  }

  /** The bookings that further facts add. */
  function Later(who: Address, facts: seq<Fact>, more: seq<Fact>): seq<Entry> {
    if more == [] then []
    else
      var init := more[..|more| - 1];
      Later(who, facts, init) + Step(who, Run(who, facts + init).core, more[|more| - 1]).bookings
  }

  lemma {:induction false} RunInTwo(who: Address, facts: seq<Fact>, more: seq<Fact>)
    ensures Run(who, facts + more).bookings == Run(who, facts).bookings + Later(who, facts, more)
    decreases |more|
  {
    hide Step;
    if more == [] {
      assert facts + more == facts;
    } else {
      assert (facts + more)[..|facts + more| - 1] == facts + more[..|more| - 1];
      RunInTwo(who, facts, more[..|more| - 1]);
    }
  }

  lemma {:induction false} LaterStamped(who: Address, facts: seq<Fact>, more: seq<Fact>, e: Entry) returns (f: Fact)
    requires e in Later(who, facts, more)
    ensures f in more && e.timestamp == f.timestamp
  {
    hide Step;
    var init, last := more[..|more| - 1], more[|more| - 1];
    if e in Later(who, facts, init) {
      f := LaterStamped(who, facts, init, e);
    } else {
      f := last;
      StepStamped(who, Run(who, facts + init).core, last);
    }
  }

  /** In time order, the facts before b are a prefix of those before c. */
  lemma {:induction false} PrefixBefore(s: seq<Fact>, o: Options, b: int, c: int) returns (more: seq<Fact>)
    requires TimeOrdered(s) && b <= c
    ensures var early, late := o.(until := Some(b)), o.(until := Some(c));
            && Filter(s, late.Processes) == Filter(s, early.Processes) + more
            && (forall f :: f in Filter(s, early.Processes) ==> f.timestamp < b)
            && (forall f :: f in more ==> f.timestamp >= b)
  {
    var early, late := o.(until := Some(b)), o.(until := Some(c));
    if s == [] {
      more := [];
    } else {
      var init, last := s[..|s| - 1], s[|s| - 1];
      if last.timestamp < b {
        more := [];
        FilterAgree(init, early.Processes, late.Processes);
        FilterMembers(init, early.Processes);
      } else {
        more := PrefixBefore(init, o, b, c);
        if last.timestamp < c { more := more + [last]; }
      }
    }
  }

  lemma EarlyBookings(who: Address, first: seq<Fact>, b: int, e: Entry)
    requires (forall f :: f in first ==> f.timestamp < b) && e in Run(who, first).bookings
    ensures e.timestamp < b
  {
    hide Step;
    RunInTwo(who, [], first);
    assert [] + first == first;
    EmptyRun(who);
    var f := LaterStamped(who, [], first, e);
  }

  /** Bookings before b followed by bookings from b on, seen through the three windows. */
  lemma WindowsAdjoin(o: Options, x: seq<Entry>, y: seq<Entry>, a: int, b: int, c: int)
    requires a <= b <= c
    requires (forall e :: e in x ==> e.timestamp < b) && (forall e :: e in y ==> e.timestamp >= b)
    ensures Reported(o.(from := Some(a), until := Some(c)), x + y) ==
            Reported(o.(from := Some(a), until := Some(b)), x) + Reported(o.(from := Some(b), until := Some(c)), x + y)
  {
    var early, late := o.(from := Some(a), until := Some(b)), o.(from := Some(b), until := Some(c));
    var whole := o.(from := Some(a), until := Some(c));
    FilterAppend(x, y, whole.Reports);
    FilterAppend(x, y, late.Reports);
    FilterAgree(x, whole.Reports, early.Reports);
    FilterAgree(y, whole.Reports, late.Reports);
    FilterNone(x, late.Reports);
  }

  /** The entries of [a,c) are those of [a,b) followed by those of [b,c). */
  lemma EntriesAdjoin(o: Options, sorted: seq<Fact>, a: int, b: int, c: int)
    requires TimeOrdered(Distinct(sorted)) && a <= b <= c
    ensures var early := o.(from := Some(a), until := Some(b));
            var late := o.(from := Some(b), until := Some(c));
            var whole := o.(from := Some(a), until := Some(c));
            Report(whole, Processed(whole, sorted)).entries ==
            Report(early, Processed(early, sorted)).entries + Report(late, Processed(late, sorted)).entries
  {
    hide Run, Later, BooksAfter, Tallies, Distinct, Reported;
    var early, late := o.(from := Some(a), until := Some(b)), o.(from := Some(b), until := Some(c));
    var whole := o.(from := Some(a), until := Some(c));
    var s := Distinct(sorted);
    var more := PrefixBefore(s, o, b, c);
    SameProcessing(s, early, o.(until := Some(b)));
    SameProcessing(s, late, o.(until := Some(c)));
    SameProcessing(s, whole, o.(until := Some(c)));
    var first := Processed(early, sorted);
    RunInTwo(o.who, first, more);
    forall e | e in Run(o.who, first).bookings ensures e.timestamp < b {
      EarlyBookings(o.who, first, b, e);
    }
    forall e | e in Later(o.who, first, more) ensures e.timestamp >= b {
      var f := LaterStamped(o.who, first, more, e);
    }
    WindowsAdjoin(o, Run(o.who, first).bookings, Later(o.who, first, more), a, b, c);
  }

  lemma EmptyRun(who: Address)
    ensures Run(who, []).bookings == []
  {
  }

  lemma SameProcessing(s: seq<Fact>, p: Options, q: Options)
    requires p.until == q.until
    ensures Filter(s, p.Processes) == Filter(s, q.Processes)
  {
    FilterAgree(s, p.Processes, q.Processes);
  }

  lemma {:induction false} FilterNone<T(!new)>(xs: seq<T>, keep: T -> bool)
    requires forall x :: x in xs ==> !keep(x)
    ensures Filter(xs, keep) == []
  {
    if xs != [] { FilterNone(xs[..|xs| - 1], keep); }
  }

  /** So the known results of adjacent windows add up. */
  lemma KnownNetIsAdditiveInTime(o: Options, input: seq<Fact>, a: int, b: int, c: int)
    requires TimeOrdered(Distinct(Sort(input))) && a <= b <= c
    ensures ReportOf(o.(from := Some(a), until := Some(c)), input).knownRealizedNet ==
            ReportOf(o.(from := Some(a), until := Some(b)), input).knownRealizedNet +
            ReportOf(o.(from := Some(b), until := Some(c)), input).knownRealizedNet
  {
    hide Step, Run, BooksAfter, Tallies, Sort, Processed;
    var sorted := Sort(input);
    EntriesAdjoin(o, sorted, a, b, c);
    var early, late := o.(from := Some(a), until := Some(b)), o.(from := Some(b), until := Some(c));
    SumAppend(Report(early, Processed(early, sorted)).entries, Report(late, Processed(late, sorted)).entries,
              KnownAmountOf);
  }

  // ---------------------------------------------------------------- markets

  /** An entry is reported for two separate selections together exactly if for one of them, and never for both. */
  lemma SplitOne(o: Options, m: set<Address>, n: set<Address>, e: Entry)
    requires m !! n
    ensures o.(markets := Some(m + n)).Reports(e) <==> o.(markets := Some(m)).Reports(e) || o.(markets := Some(n)).Reports(e)
    ensures !(o.(markets := Some(m)).Reports(e) && o.(markets := Some(n)).Reports(e))
  {
  }

  lemma NothingKnown(o: Options)
    ensures Known(Reported(o, [])) == 0
  {
  }

  lemma {:induction false} SplitMarkets(o: Options, m: set<Address>, n: set<Address>, es: seq<Entry>)
    requires m !! n
    ensures Known(Reported(o.(markets := Some(m + n)), es)) ==
            Known(Reported(o.(markets := Some(m)), es)) + Known(Reported(o.(markets := Some(n)), es))
  {
    hide Known, Reported, Options.Reports, KnownAmountOf;
    if es == [] {
      NothingKnown(o.(markets := Some(m + n)));
      NothingKnown(o.(markets := Some(m)));
      NothingKnown(o.(markets := Some(n)));
    } else {
      var init, last := es[..|es| - 1], es[|es| - 1];
      SplitMarkets(o, m, n, init);
      SplitOne(o, m, n, last);
      KnownNext(o.(markets := Some(m + n)), init, last);
      KnownNext(o.(markets := Some(m)), init, last);
      KnownNext(o.(markets := Some(n)), init, last);
      assert es == init + [last];
    }
  }

  lemma KnownNext(o: Options, es: seq<Entry>, e: Entry)
    ensures Known(Reported(o, es + [e])) ==
            Known(Reported(o, es)) + if o.Reports(e) then KnownAmountOf(e) else 0
  {
    FilterAppend(es, [e], o.Reports);
    FilterSingle(e, o.Reports);
    if o.Reports(e) {
      SumAppend(Reported(o, es), [e], KnownAmountOf);
      SumSingle(e, KnownAmountOf);
    } else {
      assert Reported(o, es) + [] == Reported(o, es);
    }
  }

  function Members(markets: seq<Address>): set<Address> { set i | 0 <= i < |markets| :: markets[i] }

  function NetOfEach(o: Options, markets: seq<Address>, facts: seq<Fact>): int {
    if markets == [] then 0
    else
      NetOfEach(o, markets[..|markets| - 1], facts)
      + Report(o.(markets := Some({markets[|markets| - 1]})), facts).knownRealizedNet
  }

  /** The known result over a set of markets is the sum over its members. */
  lemma {:induction false} KnownNetIsAdditiveInMarkets(o: Options, markets: seq<Address>, facts: seq<Fact>)
    requires NoDuplicates(markets)
    ensures Report(o.(markets := Some(Members(markets))), facts).knownRealizedNet == NetOfEach(o, markets, facts)
  {
    hide Step, BooksAfter, Tallies, Run;
    var es := Run(o.who, facts).bookings;
    if markets == [] {
      assert Members(markets) == {};
      FilterNone(es, o.(markets := Some({})).Reports);
    } else {
      var init, last := markets[..|markets| - 1], markets[|markets| - 1];
      KnownNetIsAdditiveInMarkets(o, init, facts);
      assert Members(markets) == Members(init) + {last};
      SplitMarkets(o, Members(init), {last}, es);
    }
  }

  /** And with no selection at all, the result is the sum over every market that realized anything. */
  lemma UnselectedIsEverything(o: Options, markets: seq<Address>, facts: seq<Fact>)
    requires NoDuplicates(markets) && o.markets.None?
    requires forall e :: e in Run(o.who, facts).bookings ==> e.market in Members(markets)
    ensures Report(o, facts).knownRealizedNet == NetOfEach(o, markets, facts)
  {
    hide Step, BooksAfter, Tallies, Run;
    KnownNetIsAdditiveInMarkets(o, markets, facts);
    FilterAgree(Run(o.who, facts).bookings, o.Reports, o.(markets := Some(Members(markets))).Reports);
  }
}
