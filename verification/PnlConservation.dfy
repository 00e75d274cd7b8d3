/**
  No unit of acquisition cost is charged twice or lost to rounding: whatever came in
  is still in a lot, was charged to a realization, left with transferred shares, or was
  dropped by a housekeeping burn of losing shares.
 */
module PnlConservation {
  import opened Prelude
  import opened PnlModel
  import opened PnlReport

  /** The known cost that a fact brings into the account. */
  function AcquiredCost(who: Address, f: Fact): nat {
    if f.HasLot() && f.Mine(who) && (f.kind == PrimaryBuy || (f.kind == ListingFilled && !f.Other(who)))
    then f.Value() else 0
  }

  /** A self-fill charges its payment to a realization without touching any lot's cost. */
  function SelfFillCharge(who: Address, f: Fact): nat {
    if f.HasLot() && f.kind == ListingFilled && f.Mine(who) && f.Other(who) then f.Value() else 0
  }

  /** The cost basis that leaves with transferred shares. */
  function CarriedOut(who: Address, before: Core, f: Fact): nat
    requires before.Valid()
  {
    if f.kind == ShareTransfer && f.HasLot() && f.Mine(who) && !f.Other(who)
    then DisposeLot(before.LotAt(f.Key()), f.Units(), false).1.cost else 0
  }

  /** The cost that a losing burn removes without a realization. */
  function Discarded(who: Address, before: Core, f: Fact): nat
    requires before.Valid()
  {
    if f.kind == LosingBurned && f.Mine(who) && f.market.Some?
    then BurnParts(Mention(before, f), f.market.value, Consumed(f)).sum.cost else 0
  }

  function TotalCost(c: Core): int { Sum(c.order, c.CostAt) }

  function ChargeOf(e: Entry): int { e.allocatedCost }

  function Charged(es: seq<Entry>): int { Sum(es, ChargeOf) }

  function CostIn(who: Address, facts: seq<Fact>): int {
    if facts == [] then 0
    else
      var last := facts[|facts| - 1];
      CostIn(who, facts[..|facts| - 1]) + AcquiredCost(who, last) + SelfFillCharge(who, last)
  }

  function CostOut(who: Address, facts: seq<Fact>): nat {
    if facts == [] then 0
    else
      var init, last := facts[..|facts| - 1], facts[|facts| - 1];
      var c := Run(who, init).core;
      CostOut(who, init) + CarriedOut(who, c, last) + Discarded(who, c, last)
  }

  // ---------------------------------------------------------------- how single changes move the total

  lemma SetLotCost(c: Core, k: LotKey, lot: Lot)
    requires c.Valid() && k in c.lots
    ensures SetLot(c, k, lot).Valid()
    ensures TotalCost(SetLot(c, k, lot)) == TotalCost(c) - c.lots[k].cost + lot.cost
  {
    var d := SetLot(c, k, lot);
    SumChangeOne(c.order, k, c.CostAt, d.CostAt);
  }

  lemma TouchCost(c: Core, k: LotKey)
    requires c.Valid()
    ensures TotalCost(Touch(c, k)) == TotalCost(c)
  {
    if k !in c.lots {
      var d := Touch(c, k);
      assert k !in c.order;
      SumAgree(c.order, c.CostAt, d.CostAt);
      SumAppend(c.order, [k], d.CostAt);
      SumSingle(k, d.CostAt);
    }
  }

  lemma MentionCost(c: Core, f: Fact)
    requires c.Valid()
    ensures Mention(c, f).Valid() && TotalCost(Mention(c, f)) == TotalCost(c)
    ensures f.HasLot() ==> f.Key() in Mention(c, f).lots && Mention(c, f).lots[f.Key()] == c.LotAt(f.Key())
  {
    if f.HasLot() {
      TouchValid(c, f.Key());
      TouchCost(c, f.Key());
    }
  }

  /** Mentioning a lot changes nothing but that it is there. */
  lemma MentionedLot(before: Core, f: Fact, key: LotKey)
    requires before.Valid()
    ensures var c := Mention(before, f);
            && c.Valid() && c.LotAt(key) == before.LotAt(key) && c.resolved == before.resolved
            && (f.HasLot() ==> f.Key() in c.lots && c.lots[f.Key()] == c.LotAt(f.Key()))
  {
    MentionCost(before, f);
  }

  lemma ChargedBooking(f: Fact, outcome: Option<nat>, proceeds: nat, d: Disposal)
    ensures Charged(Booking(f, outcome, proceeds, d)) == if f.market.Some? then d.cost else 0
  {
    if f.market.Some? {
      SumSingle(Booking(f, outcome, proceeds, d)[0], ChargeOf);
    }
  }

  lemma AcquireConserves(c: Core, f: Fact, units: nat, cost: Option<nat>)
    requires c.Valid() && f.HasLot() && f.Key() in c.lots
    ensures var out := Acquire(c, f, f.Key(), units, cost);
            TotalCost(c) + cost.GetOr(0) == TotalCost(out.core) + Charged(out.bookings)
  {
    hide TotalCost;
    var lot := c.lots[f.Key()];
    var grown := Lot(lot.units + units, lot.escrow, lot.cost + cost.GetOr(0), lot.complete && cost.Some?, false);
    SetLotCost(c, f.Key(), grown);
    SetLotCost(c, f.Key(), Settled(grown));
    ChargedBooking(f, Some(f.Key().outcome), 0, LossOf(grown));
  }

  lemma TransferConserves(who: Address, c: Core, f: Fact)
    requires c.Valid() && f.HasLot() && f.Key() in c.lots && f.kind == ShareTransfer
    ensures var out := Transfer(who, c, f);
            TotalCost(c) == TotalCost(out.core) + Charged(out.bookings) + CarriedOut(who, c, f)
  {
    hide Acquire, TotalCost;
    AcquireConserves(c, f, f.Units(), None);
    SetLotCost(c, f.Key(), DisposeLot(c.lots[f.Key()], f.Units(), false).0);
  }

  lemma LotStepConserves(who: Address, c: Core, f: Fact)
    requires c.Valid() && f.HasLot() && f.Key() in c.lots && MovesShares(f.kind)
    ensures var out := LotStep(who, c, f);
            TotalCost(c) + AcquiredCost(who, f) + SelfFillCharge(who, f) ==
            TotalCost(out.core) + Charged(out.bookings) + CarriedOut(who, c, f)
  {
    hide Fill, Acquire, Transfer, TotalCost, DisposeLot;
    var k := f.Key();
    if f.kind == ListingFilled {
      FillConserves(who, c, f);
    } else if f.kind == ShareTransfer {
      TransferConserves(who, c, f);
    } else if f.kind == PrimaryBuy {
      AcquireConserves(c, f, f.Units(), Some(f.Value()));
    } else {
      SetLotCost(c, k, List(c, f).core.lots[k]);
      SetLotCost(c, k, Unlist(c, f).core.lots[k]);
    }
  }

  lemma FillConserves(who: Address, c: Core, f: Fact)
    requires c.Valid() && f.HasLot() && f.Key() in c.lots && f.kind == ListingFilled
    ensures var out := Fill(who, c, f);
            TotalCost(c) + AcquiredCost(who, f) + SelfFillCharge(who, f) == TotalCost(out.core) + Charged(out.bookings)
  {
    hide Acquire, DisposeLot, TotalCost;
    var k, lot, proceeds := f.Key(), c.lots[f.Key()], f.extra.sellerProceeds;
    if f.Mine(who) && f.Other(who) {
      SetLotCost(c, k, SelfFill(c, f).core.lots[k]);
      ChargedBooking(f, f.outcome, proceeds.GetOr(0),
                     Disposal(f.Value(), proceeds.Some?, if proceeds.None? then Some(SellerNetMissing) else None));
    } else if f.Other(who) {
      SellConserves(c, f);
    } else {
      AcquireConserves(c, f, f.Units(), Some(f.Value()));
    }
  }

  lemma SellConserves(c: Core, f: Fact)
    requires c.Valid() && f.HasLot() && f.Key() in c.lots
    ensures TotalCost(c) == TotalCost(Sell(c, f).core) + Charged(Sell(c, f).bookings)
  {
    hide TotalCost;
    var (after, d) := DisposeLot(c.lots[f.Key()], f.Units(), f.extra.escrowed);
    var proceeds := f.extra.sellerProceeds;
    SetLotCost(c, f.Key(), after);
    ChargedBooking(f, f.outcome, proceeds.GetOr(0),
                   Disposal(d.cost, d.complete && proceeds.Some?,
                            if proceeds.None? then Some(SellerNetMissing) else d.reason));
  }

  lemma {:induction false} SettleConserves(c: Core, f: Fact, market: Address, winner: nat, n: nat)
    requires c.Valid() && n <= |c.order| && f.market.Some?
    ensures var (after, booked) := SettleLosers(c, f, market, winner, n);
            after.Valid() && TotalCost(c) == TotalCost(after) + Charged(booked)
  {
    if n != 0 {
      SettleConserves(c, f, market, winner, n - 1);
      var (done, booked) := SettleLosers(c, f, market, winner, n - 1);
      var k := c.order[n - 1];
      assert k in done.order;
      SetLotCost(done, k, Settled(done.lots[k]));
      ChargedBooking(f, Some(k.outcome), 0, LossOf(done.lots[k]));
      SumAppend(booked, SettleOne(done, f, k, market, winner).1, ChargeOf);
    }
  }

  lemma {:induction false} BurnConserves(c: Core, market: Address, parts: seq<Part>)
    requires c.Valid()
    ensures var b := BurnParts(c, market, parts);
            b.core.Valid() && TotalCost(c) == TotalCost(b.core) + b.sum.cost
  {
    if parts != [] {
      BurnConserves(c, market, parts[..|parts| - 1]);
      var b, last := BurnParts(c, market, parts[..|parts| - 1]), parts[|parts| - 1];
      if last.Part? {
        var k := LotKey(market, last.outcome);
        TouchValid(b.core, k);
        TouchCost(b.core, k);
        var touched := Touch(b.core, k);
        SetLotCost(touched, k, DisposeLot(touched.lots[k], last.units, false).0);
      }
    }
  }

  lemma ResolveConserves(c: Core, f: Fact)
    requires c.Valid() && f.HasLot()
    ensures var out := Resolve(c, f); TotalCost(c) == TotalCost(out.core) + Charged(out.bookings)
  {
    var announced := c.(resolved := c.resolved[f.market.value := f.outcome.value]);
    SumAgree(c.order, c.CostAt, announced.CostAt);
    SettleConserves(announced, f, f.market.value, f.outcome.value, |announced.order|);
  }

  lemma BurnFactConserves(who: Address, c: Core, f: Fact)
    requires c.Valid() && f.market.Some? && IsBurn(f.kind)
    ensures var out := BurnFact(c, f);
            TotalCost(c) == TotalCost(out.core) + Charged(out.bookings)
              + (if f.kind == LosingBurned then BurnParts(c, f.market.value, Consumed(f)).sum.cost else 0)
  {
    BurnConserves(c, f.market.value, Consumed(f));
    ChargedBooking(f, f.outcome, f.Value(), BurnTotal(BurnParts(c, f.market.value, Consumed(f)).sum, f));
  }

  lemma OtherStepConserves(who: Address, c: Core, f: Fact)
    ensures OtherStep(who, c, f).core == c && Charged(OtherStep(who, c, f).bookings) == 0
  {
    ChargedBooking(f, f.outcome, f.Value(), Disposal(0, true, None));
  }

  /** What one outcome has to satisfy. */
  ghost predicate Balanced(who: Address, before: Core, f: Fact, out: Outcome)
    requires before.Valid()
  {
    TotalCost(before) + AcquiredCost(who, f) + SelfFillCharge(who, f) ==
    TotalCost(out.core) + Charged(out.bookings) + CarriedOut(who, before, f) + Discarded(who, before, f)
  }

  lemma ShareStepConserves(who: Address, before: Core, f: Fact)
    requires before.Valid() && MovesShares(f.kind)
    ensures Balanced(who, before, f, Step(who, before, f))
  {
    hide LotStep, Resolve, BurnFact, TotalCost, DisposeLot;
    MentionCost(before, f);
    if f.HasLot() {
      LotStepConserves(who, Mention(before, f), f);
      assert CarriedOut(who, Mention(before, f), f) == CarriedOut(who, before, f);
    }
  }

  lemma BurnStepConserves(who: Address, before: Core, f: Fact)
    requires before.Valid() && IsBurn(f.kind)
    ensures Balanced(who, before, f, Step(who, before, f))
  {
    hide LotStep, Resolve, BurnFact, BurnParts, TotalCost;
    MentionCost(before, f);
    if f.market.Some? { BurnFactConserves(who, Mention(before, f), f); }
  }

  lemma StepConserves(who: Address, before: Core, f: Fact)
    requires before.Valid()
    ensures Balanced(who, before, f, Step(who, before, f))
  {
    hide LotStep, Resolve, BurnFact, TotalCost, DisposeLot;
    if MovesShares(f.kind) {
      ShareStepConserves(who, before, f);
    } else if IsBurn(f.kind) {
      BurnStepConserves(who, before, f);
    } else {
      MentionCost(before, f);
      OtherStepConserves(who, Mention(before, f), f);
      if f.HasLot() { ResolveConserves(Mention(before, f), f); }
    }
  }

  // ---------------------------------------------------------------- whole histories

  /** Cost conservation over every history. */
  lemma {:induction false} CostConserved(who: Address, facts: seq<Fact>)
    ensures CostIn(who, facts) ==
            TotalCost(Run(who, facts).core) + Charged(Run(who, facts).bookings) + CostOut(who, facts)
  {
    if facts != [] {
      var init, last := facts[..|facts| - 1], facts[|facts| - 1];
      CostConserved(who, init);
      StepConserves(who, Run(who, init).core, last);
      SumAppend(Run(who, init).bookings, Step(who, Run(who, init).core, last).bookings, ChargeOf);
    }
  }

  /** The same for a report: realizations outside its window account for the rest. */
  lemma ReportConservesCost(o: Options, facts: seq<Fact>)
    ensures CostIn(o.who, facts) ==
            TotalCost(Run(o.who, facts).core) + Charged(Report(o, facts).entries)
            + Charged(Filter(Run(o.who, facts).bookings, o.Omits))
            + CostOut(o.who, facts)
  {
    CostConserved(o.who, facts);
    SumSplit(Run(o.who, facts).bookings, ChargeOf,
             o.Reports, o.Omits);
  }

  // ---------------------------------------------------------------- what the report shows

  function KnownCostOf(l: LotView): int { l.knownCost }

  function ShownCost(lots: seq<LotView>): int { Sum(lots, KnownCostOf) }

  /** Every acquisition that brings cost brings shares. */
  ghost predicate AcquisitionsHaveUnits(who: Address, facts: seq<Fact>) {
    forall f :: f in facts && AcquiredCost(who, f) > 0 ==> f.Units() > 0
  }

  predicate Free(lot: Lot) { lot.units == 0 ==> lot.cost == 0 }

  ghost predicate EmptyLotsAreFree(c: Core) {
    forall k :: k in c.lots ==> Free(c.lots[k])
  }

  lemma {:induction false} SettleKeepsFree(c: Core, f: Fact, market: Address, winner: nat, n: nat)
    requires c.Valid() && n <= |c.order| && EmptyLotsAreFree(c)
    ensures EmptyLotsAreFree(SettleLosers(c, f, market, winner, n).0)
  {
    if n != 0 { SettleKeepsFree(c, f, market, winner, n - 1); }
  }

  lemma {:induction false} BurnKeepsFree(c: Core, market: Address, parts: seq<Part>)
    requires c.Valid() && EmptyLotsAreFree(c)
    ensures EmptyLotsAreFree(BurnParts(c, market, parts).core)
  {
    if parts != [] { BurnKeepsFree(c, market, parts[..|parts| - 1]); }
  }

  /**
    The one fact that puts cost where the report does not show it: a paid purchase of no shares, into a lot
    without shares, of an outcome that has not already lost.
   */
  predicate BuysNothing(who: Address, before: Core, f: Fact) {
    && f.HasLot() && AcquiredCost(who, f) > 0 && f.Units() == 0 && before.LotAt(f.Key()).units == 0
    && !(f.market.value in before.resolved && before.resolved[f.market.value] != f.outcome.value)
  }

  lemma LotStepKeepsFree(who: Address, c: Core, f: Fact)
    requires f.HasLot() && f.Key() in c.lots && EmptyLotsAreFree(c) && MovesShares(f.kind)
    ensures EmptyLotsAreFree(LotStep(who, c, f).core) <==> !BuysNothing(who, c, f)
  {
    hide LotStep, BuysNothing;
    var k, d := f.Key(), LotStep(who, c, f).core;
    LotStepRewritesOneLot(who, c, f);
    MovedLotIsFree(who, c, f);
  }

  lemma DisposalIsFree(lot: Lot, units: nat, escrow: bool)
    requires Free(lot)
    ensures Free(DisposeLot(lot, units, escrow).0)
  {
  }

  lemma AcquisitionIsFree(c: Core, f: Fact, units: nat, cost: Option<nat>)
    requires f.HasLot() && f.Key() in c.lots && Free(c.lots[f.Key()])
    ensures var k := f.Key();
            Free(Acquire(c, f, k, units, cost).core.LotAt(k))
            <==> !(cost.GetOr(0) > 0 && units == 0 && c.lots[k].units == 0
                   && !(k.market in c.resolved && c.resolved[k.market] != k.outcome))
  {
  }

  lemma MovedLotIsFree(who: Address, c: Core, f: Fact)
    requires f.HasLot() && f.Key() in c.lots && Free(c.lots[f.Key()]) && MovesShares(f.kind)
    ensures Free(LotStep(who, c, f).core.LotAt(f.Key())) <==> !BuysNothing(who, c, f)
  {
    hide DisposeLot, Acquire;
    var lot := c.lots[f.Key()];
    DisposalIsFree(lot, f.Units(), f.kind == ListingFilled && f.extra.escrowed);
    AcquisitionIsFree(c, f, f.Units(), if f.kind == ShareTransfer then None else Some(f.Value()));
  }

  lemma ResolveKeepsFree(c: Core, f: Fact)
    requires c.Valid() && EmptyLotsAreFree(c) && f.HasLot()
    ensures EmptyLotsAreFree(Resolve(c, f).core)
  {
    SettleKeepsFree(c.(resolved := c.resolved[f.market.value := f.outcome.value]), f,
                    f.market.value, f.outcome.value, |c.order|);
  }

  lemma BurnFactKeepsFree(c: Core, f: Fact)
    requires c.Valid() && EmptyLotsAreFree(c) && f.market.Some?
    ensures EmptyLotsAreFree(BurnFact(c, f).core)
  {
    BurnKeepsFree(c, f.market.value, Consumed(f));
  }

  /** Lots without shares stay free of cost exactly unless the fact buys nothing. */
  lemma StepKeepsFree(who: Address, before: Core, f: Fact)
    requires before.Valid() && EmptyLotsAreFree(before)
    ensures EmptyLotsAreFree(Step(who, before, f).core) <==> !BuysNothing(who, before, f)
  {
    MentionKeepsFreeLots(who, before, f);
    var c := Mention(before, f);
    if MovesShares(f.kind) && f.HasLot() {
      hide LotStep, EmptyLotsAreFree, BuysNothing, Mention;
      LotStepKeepsFree(who, c, f);
    } else {
      hide LotStep, EmptyLotsAreFree, Resolve, BurnFact, Mention;
      if f.kind == MarketResolved {
        if f.HasLot() { ResolveKeepsFree(c, f); }
      } else if IsBurn(f.kind) {
        if f.market.Some? { BurnFactKeepsFree(c, f); }
      }
    }
  }

  lemma TouchKeepsFree(c: Core, k: LotKey)
    requires EmptyLotsAreFree(c)
    ensures EmptyLotsAreFree(Touch(c, k))
  {
  }

  lemma MentionKeepsFreeLots(who: Address, before: Core, f: Fact)
    requires before.Valid() && EmptyLotsAreFree(before)
    ensures var c := Mention(before, f);
            && c.Valid() && EmptyLotsAreFree(c) && (f.HasLot() ==> f.Key() in c.lots)
            && (BuysNothing(who, c, f) <==> BuysNothing(who, before, f))
  {
    hide EmptyLotsAreFree, AcquiredCost, Core.Valid;
    if f.HasLot() {
      TouchKeepsFree(before, f.Key());
      TouchValid(before, f.Key());
    }
  }

  lemma {:induction false} RunKeepsFree(who: Address, facts: seq<Fact>)
    requires AcquisitionsHaveUnits(who, facts)
    ensures EmptyLotsAreFree(Run(who, facts).core)
  {
    if facts != [] {
      hide Step, AcquiredCost, EmptyLotsAreFree;
      var init, last := facts[..|facts| - 1], facts[|facts| - 1];
      RunKeepsFree(who, init);
      assert last in facts;
      StepKeepsFree(who, Run(who, init).core, last);
    }
    NoLotsAreFree();
  }

  lemma NoLotsAreFree()
    ensures EmptyLotsAreFree(EMPTY_CORE)
  {
  }

  lemma {:induction false} ShownIsSum(c: Core, keys: seq<LotKey>)
    ensures ShownCost(View(c, keys)) == Sum(keys, c.CostAt)
  {
    if keys != [] {
      var init := keys[..|keys| - 1];
      assert View(c, keys)[..|keys| - 1] == View(c, init);
      ShownIsSum(c, init);
    }
  }

  /** Lots without units contribute nothing to a sum of costs. */
  lemma {:induction false} HeldLotsHoldTheCost(c: Core, keys: seq<LotKey>)
    requires EmptyLotsAreFree(c)
    ensures Sum(Filter(keys, c.Holds), c.CostAt) == Sum(keys, c.CostAt)
  {
    if keys != [] {
      var init, last := keys[..|keys| - 1], keys[|keys| - 1];
      HeldLotsHoldTheCost(c, init);
      SumAppend(Filter(init, c.Holds), if c.Holds(last) then [last] else [], c.CostAt);
      SumSingle(last, c.CostAt);
    }
  }

  /** A report without window leaves nothing out. */
  predicate Unrestricted(o: Options) { o.from.None? && o.until.None? && o.markets.None? }

  lemma {:induction false} NothingOmitted(o: Options, es: seq<Entry>)
    requires Unrestricted(o)
    ensures Filter(es, o.Omits) == []
  {
    if es != [] { NothingOmitted(o, es[..|es| - 1]); }
  }

  lemma {:induction false} AllSelected(o: Options, keys: seq<LotKey>)
    requires o.markets.None?
    ensures Filter(keys, o.Selects) == keys
  {
    if keys != [] {
      AllSelected(o, keys[..|keys| - 1]);
      assert keys == keys[..|keys| - 1] + [keys[|keys| - 1]];
    }
  }

  /**
    In a report without window, the visible lots, the entries and the cost that left
    add up to everything acquired, when acquisitions come with shares.
   */
  lemma VisibleCostConserved(o: Options, facts: seq<Fact>)
    requires Unrestricted(o) && AcquisitionsHaveUnits(o.who, facts)
    ensures CostIn(o.who, facts) ==
            ShownCost(Report(o, facts).lots) + Charged(Report(o, facts).entries) + CostOut(o.who, facts)
  {
    ReportConservesCost(o, facts);
    NothingOmitted(o, Run(o.who, facts).bookings);
    RunKeepsFree(o.who, facts);
    var c := Run(o.who, facts).core;
    AllSelected(o, c.order);
    HeldLotsHoldTheCost(c, c.order);
    ShownIsSum(c, HeldLots(o, c));
  }

  /** What a report without window shows, charges and has let go adds up to everything acquired. */
  ghost predicate VisiblyConserved(o: Options, facts: seq<Fact>) {
    CostIn(o.who, facts) ==
    ShownCost(Report(o, facts).lots) + Charged(Report(o, facts).entries) + CostOut(o.who, facts)
  }

  /** The cost in lots that hold no shares. */
  function HiddenCost(c: Core): int { Sum(Filter(c.order, c.Lacks), c.CostAt) }

  lemma HiddenCostIsTheGap(o: Options, facts: seq<Fact>)
    requires Unrestricted(o)
    ensures VisiblyConserved(o, facts) <==> HiddenCost(Run(o.who, facts).core) == 0
  {
    ReportConservesCost(o, facts);
    NothingOmitted(o, Run(o.who, facts).bookings);
    var c := Run(o.who, facts).core;
    AllSelected(o, c.order);
    SumSplit(c.order, c.CostAt, c.Holds, c.Lacks);
    ShownIsSum(c, HeldLots(o, c));
  }

  lemma {:induction false} SumIsZero(keys: seq<LotKey>, c: Core)
    ensures 0 <= Sum(keys, c.CostAt)
    ensures Sum(keys, c.CostAt) == 0 <==> forall k :: k in keys ==> c.CostAt(k) == 0
  {
    if keys != [] {
      var init, last := keys[..|keys| - 1], keys[|keys| - 1];
      SumIsZero(init, c);
      assert keys == init + [last];
    }
  }

  lemma NothingHidden(c: Core)
    requires c.Valid()
    ensures HiddenCost(c) == 0 <==> EmptyLotsAreFree(c)
  {
    SumIsZero(Filter(c.order, c.Lacks), c);
    FilterMembers(c.order, c.Lacks);
    forall k | k in c.lots ensures k in c.order {}
  }

  /** The whole history so far, and every beginning of it, is visibly conserved exactly if no fact bought nothing. */
  lemma VisibleCostConservedExactly(o: Options, facts: seq<Fact>)
    requires Unrestricted(o)
    ensures (forall n :: 0 <= n <= |facts| ==> VisiblyConserved(o, facts[..n]))
            <==> forall n :: 0 <= n < |facts| ==> !BuysNothing(o.who, Run(o.who, facts[..n]).core, facts[n])
  {
    hide VisiblyConserved, BuysNothing, EmptyLotsAreFree, Run;
    forall n | 0 <= n <= |facts|
      ensures VisiblyConserved(o, facts[..n]) <==> EmptyLotsAreFree(Run(o.who, facts[..n]).core)
    {
      HiddenCostIsTheGap(o, facts[..n]);
      NothingHidden(Run(o.who, facts[..n]).core);
    }
    if forall n :: 0 <= n <= |facts| ==> VisiblyConserved(o, facts[..n]) {
      forall n | 0 <= n < |facts| ensures !BuysNothing(o.who, Run(o.who, facts[..n]).core, facts[n]) {
        assert VisiblyConserved(o, facts[..n]) && VisiblyConserved(o, facts[..n + 1]);
        NextIsFree(o.who, facts, n);
      }
    }
    if forall n :: 0 <= n < |facts| ==> !BuysNothing(o.who, Run(o.who, facts[..n]).core, facts[n]) {
      forall n | 0 <= n <= |facts| ensures VisiblyConserved(o, facts[..n]) { FreeSoFar(o.who, facts, n); }
    }
  }

  lemma NextIsFree(who: Address, facts: seq<Fact>, n: nat)
    requires n < |facts| && EmptyLotsAreFree(Run(who, facts[..n]).core)
    ensures EmptyLotsAreFree(Run(who, facts[..n + 1]).core) <==> !BuysNothing(who, Run(who, facts[..n]).core, facts[n])
  {
    hide Step, EmptyLotsAreFree, BuysNothing;
    assert facts[..n + 1][..n] == facts[..n];
    StepKeepsFree(who, Run(who, facts[..n]).core, facts[n]);
  }

  lemma {:induction false} FreeSoFar(who: Address, facts: seq<Fact>, n: nat)
    requires n <= |facts|
    requires forall i :: 0 <= i < n ==> !BuysNothing(who, Run(who, facts[..i]).core, facts[i])
    ensures EmptyLotsAreFree(Run(who, facts[..n]).core)
  {
    hide Step, EmptyLotsAreFree, BuysNothing;
    if n == 0 {
      NoLotsAreFree();
    } else {
      FreeSoFar(who, facts, n - 1);
      NextIsFree(who, facts, n - 1);
    }
  }

  /** A purchase of no shares for a positive payment. */
  function EmptyPurchase(): Fact {
    Fact(0, PrimaryBuy, 0, 0, 0, 0, 0, Some(7), Some(1), None, Some(0), Some(0), Some(5),
         Extra(None, true, None, false, None))
  }

  lemma EmptyPurchaseHistory()
    ensures var c := Run(1, [EmptyPurchase()]).core;
            c.order == [EmptyPurchase().Key()] && c.LotAt(EmptyPurchase().Key()) == Lot(0, 0, 5, true, false)
    ensures Run(1, [EmptyPurchase()]).bookings == []
  {
    hide Fill, Transfer, Resolve, BurnFact;
    var f := EmptyPurchase();
    assert [f][..0] == [];
    assert Step(1, EMPTY_CORE, f) == Acquire(Touch(EMPTY_CORE, f.Key()), f, f.Key(), 0, Some(5));
    assert [] + [f.Key()] == [f.Key()];
  }

  /** Such a purchase hides its cost in a lot that the report does not show. */
  lemma CostCanHideInAnEmptyLot()
    ensures var o, facts := Options(1, true, None, None, None), [EmptyPurchase()];
            && CostIn(o.who, facts) == 5 && CostOut(o.who, facts) == 0
            && ShownCost(Report(o, facts).lots) == 0 && Charged(Report(o, facts).entries) == 0
  {
    hide Step, Absorb, TallyStep;
    var o, f := Options(1, true, None, None, None), EmptyPurchase();
    EmptyPurchaseHistory();
    assert [f][..0] == [];
    var c := Run(1, [f]).core;
    AllSelected(o, c.order);
    FilterSingle(f.Key(), c.Holds);
  }
}
