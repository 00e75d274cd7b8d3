/** What a history pays its owner, read off the facts alone, and where the entries of a report come from. */
module PnlIncome {
  import opened Prelude
  import opened PnlModel
  import opened PnlReport

  function ProceedsOf(e: Entry): int { e.proceeds }

  /** The facts that a report shows: of a selected market, not before its start and before its end. */
  predicate Shown(o: Options, f: Fact) {
    && f.market.Some?
    && (o.from.Some? ==> o.from.value <= f.timestamp)
    && (o.until.Some? ==> f.timestamp < o.until.value)
    && (o.markets.Some? ==> f.market.value in o.markets.value)
  }

  /** A seller receives the net of a fill, an owner the amount of a claim, a refund or a bonus; nothing else pays. */
  function Paid(who: Address, f: Fact): nat {
    match f.kind
    case ListingFilled => if f.counterparty == Some(who) && f.outcome.Some? then f.extra.sellerProceeds.GetOr(0) else 0
    case WinnerClaimed => PaidToOwner(who, f)
    case Refunded => PaidToOwner(who, f)
    case EarlyBirdClaimed => PaidToOwner(who, f)
    case TimeoutClaimed => PaidToOwner(who, f)
    case _ => 0
  }

  function PaidToOwner(who: Address, f: Fact): nat {
    if f.owner == Some(who) then f.amount.GetOr(0) else 0
  }

  datatype Income = Income(o: Options) {
    function Of(f: Fact): int { if Shown(o, f) then Paid(o.who, f) else 0 }
  }

  /** An entry repeats the identity, market, kind and time of its fact, and its outcome unless it is a loss at a resolution. */
  predicate From(e: Entry, f: Fact) {
    && f.market == Some(e.market) && e.factId == f.id && e.kind == f.kind && e.timestamp == f.timestamp
    && (f.kind == MarketResolved || e.outcome == f.outcome)
  }

  ghost predicate AllFrom(es: seq<Entry>, f: Fact) { forall e :: e in es ==> From(e, f) }

  lemma BookingPays(f: Fact, outcome: Option<nat>, proceeds: nat, d: Disposal)
    requires f.kind == MarketResolved || outcome == f.outcome
    ensures AllFrom(Booking(f, outcome, proceeds, d), f)
    ensures Sum(Booking(f, outcome, proceeds, d), ProceedsOf) == if f.market.Some? then proceeds else 0
  {
    var es := Booking(f, outcome, proceeds, d);
    if es != [] { SumSingle(es[0], ProceedsOf); }
  }

  lemma AcquiringPaysNothing(c: Core, f: Fact, k: LotKey, units: nat, cost: Option<nat>)
    requires f.HasLot() && k == f.Key() && k in c.lots
    ensures AllFrom(Acquire(c, f, k, units, cost).bookings, f)
    ensures Sum(Acquire(c, f, k, units, cost).bookings, ProceedsOf) == 0
  {
    var lot := c.lots[k];
    BookingPays(f, Some(k.outcome), 0,
                LossOf(Lot(lot.units + units, lot.escrow, lot.cost + cost.GetOr(0), lot.complete && cost.Some?, false)));
  }

  lemma {:induction false} SettlingPaysNothing(c: Core, f: Fact, market: Address, winner: nat, n: nat)
    requires n <= |c.order| && (forall k :: k in c.order ==> k in c.lots) && f.kind == MarketResolved
    ensures AllFrom(SettleLosers(c, f, market, winner, n).1, f)
    ensures Sum(SettleLosers(c, f, market, winner, n).1, ProceedsOf) == 0
  {
    if n != 0 {
      SettlingPaysNothing(c, f, market, winner, n - 1);
      var (done, booked) := SettleLosers(c, f, market, winner, n - 1);
      var k := c.order[n - 1];
      BookingPays(f, Some(k.outcome), 0, LossOf(done.lots[k]));
      SumAppend(booked, SettleOne(done, f, k, market, winner).1, ProceedsOf);
    }
  }

  lemma LotStepPays(who: Address, c: Core, f: Fact)
    requires f.HasLot() && f.Key() in c.lots && MovesShares(f.kind)
    ensures AllFrom(LotStep(who, c, f).bookings, f)
    ensures Sum(LotStep(who, c, f).bookings, ProceedsOf) == Paid(who, f)
  {
    hide DisposeLot, Acquire, Booking, LossOf;
    AcquiringPaysNothing(c, f, f.Key(), f.Units(), Some(f.Value()));
    AcquiringPaysNothing(c, f, f.Key(), f.Units(), None);
    if f.kind == ListingFilled && f.Other(who) {
      var proceeds, d := f.extra.sellerProceeds, DisposeLot(c.lots[f.Key()], f.Units(), f.extra.escrowed).1;
      BookingPays(f, f.outcome, proceeds.GetOr(0),
                  Disposal(f.Value(), proceeds.Some?, if proceeds.None? then Some(SellerNetMissing) else None));
      BookingPays(f, f.outcome, proceeds.GetOr(0),
                  Disposal(d.cost, d.complete && proceeds.Some?, if proceeds.None? then Some(SellerNetMissing) else d.reason));
    }
  }

  lemma OtherStepPays(who: Address, c: Core, f: Fact)
    requires !MovesShares(f.kind) && !IsBurn(f.kind)
    ensures AllFrom(OtherStep(who, c, f).bookings, f)
    ensures Sum(OtherStep(who, c, f).bookings, ProceedsOf) == if f.market.Some? then Paid(who, f) else 0
  {
    BookingPays(f, f.outcome, f.Value(), Disposal(0, true, None));
    hide Booking, AllFrom;
    assert AllFrom([], f) by { NothingFrom(f); }
  }

  lemma NothingFrom(f: Fact)
    ensures AllFrom([], f)
  {
  }

  lemma BurnPays(who: Address, c: Core, f: Fact)
    requires IsBurn(f.kind) && f.Mine(who) && f.market.Some?
    ensures AllFrom(BurnFact(c, f).bookings, f)
    ensures Sum(BurnFact(c, f).bookings, ProceedsOf) == Paid(who, f)
  {
    hide BurnParts;
    BookingPays(f, f.outcome, f.Value(), BurnTotal(BurnParts(c, f.market.value, Consumed(f)).sum, f));
  }

  /** A fact books entries of its own, and together they pay what the fact pays. */
  lemma StepPays(who: Address, before: Core, f: Fact)
    requires before.Valid()
    ensures AllFrom(Step(who, before, f).bookings, f)
    ensures Sum(Step(who, before, f).bookings, ProceedsOf) == if f.market.Some? then Paid(who, f) else 0
  {
    hide LotStep, BurnFact, OtherStep, SettleLosers;
    var c := Mention(before, f);
    if MovesShares(f.kind) {
      if f.HasLot() { LotStepPays(who, c, f); }
    } else if f.kind == MarketResolved {
      if f.HasLot() {
        var announced := c.(resolved := c.resolved[f.market.value := f.outcome.value]);
        SettlingPaysNothing(announced, f, f.market.value, f.outcome.value, |announced.order|);
      }
    } else if IsBurn(f.kind) {
      if f.Mine(who) && f.market.Some? { BurnPays(who, c, f); }
    } else {
      OtherStepPays(who, c, f);
    }
  }

  /** The report shows all entries of a fact that it shows, and none of another. */
  lemma {:induction false} ReportedFrom(o: Options, f: Fact, es: seq<Entry>)
    requires AllFrom(es, f)
    ensures Reported(o, es) == if Shown(o, f) then es else []
  {
    if es != [] {
      var init, last := es[..|es| - 1], es[|es| - 1];
      assert es == init + [last];
      ReportedFrom(o, f, init);
      assert From(last, f);
    }
  }

  lemma {:induction false} BookingsPay(o: Options, facts: seq<Fact>)
    ensures Sum(Reported(o, Run(o.who, facts).bookings), ProceedsOf) == Sum(facts, Income(o).Of)
  {
    if facts != [] {
      hide Step, Paid, Shown;
      var init, f := facts[..|facts| - 1], facts[|facts| - 1];
      var before, out := Run(o.who, init), Step(o.who, Run(o.who, init).core, f);
      BookingsPay(o, init);
      StepPays(o.who, before.core, f);
      ReportedFrom(o, f, out.bookings);
      FilterAppend(before.bookings, out.bookings, o.Reports);
      SumAppend(Reported(o, before.bookings), Reported(o, out.bookings), ProceedsOf);
      ShownHasMarket(o, f);
    }
  }

  lemma ShownHasMarket(o: Options, f: Fact)
    ensures Shown(o, f) ==> f.market.Some?
  {
  }

  /** The proceeds of a report are what the facts in its window and markets pay. */
  lemma ProceedsAreIncome(o: Options, facts: seq<Fact>)
    ensures Sum(Report(o, facts).entries, ProceedsOf) == Sum(facts, Income(o).Of)
  {
    hide Run, BooksAfter, Tallies;
    BookingsPay(o, facts);
  }

  lemma {:induction false} BookingsHaveOrigin(who: Address, facts: seq<Fact>, e: Entry)
    requires e in Run(who, facts).bookings
    ensures exists f :: f in facts && From(e, f)
  {
    hide Step, From;
    var init, f := facts[..|facts| - 1], facts[|facts| - 1];
    assert facts == init + [f];
    if e in Run(who, init).bookings {
      BookingsHaveOrigin(who, init, e);
    } else {
      StepPays(who, Run(who, init).core, f);
      assert f in facts;
    }
  }

  /** Every entry of a report belongs to one of the facts that it shows. */
  lemma EntriesHaveOrigin(o: Options, facts: seq<Fact>, e: Entry)
    requires e in Report(o, facts).entries
    ensures exists f :: f in facts && From(e, f) && Shown(o, f)
  {
    hide Run, BooksAfter, Tallies;
    FilterMembers(Run(o.who, facts).bookings, o.Reports);
    BookingsHaveOrigin(o.who, facts, e);
    var f :| f in facts && From(e, f);
    assert Shown(o, f);
  }
}
