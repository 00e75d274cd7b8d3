/**
  The in-place reducer: one pass over the sorted facts that updates lots, entries,
  reasons and totals, and filters by the reporting window as it goes.
 */
module PnlReducer {
  import opened Prelude
  import opened PnlModel
  import opened PnlReport

  class Reducer {
    const o: Options
    var lots: map<LotKey, Lot>
    var order: seq<LotKey>
    var resolved: map<Address, nat>
    var entries: seq<Entry>
    var reasons: set<Reason>
    var tally: Tally

    ghost function CoreView(): Core reads this { Core(lots, order, resolved) }

    ghost function BooksView(): Books reads this { Books(entries, reasons) }

    ghost predicate Valid() reads this { CoreView().Valid() }

    constructor (options: Options)
      ensures o == options && Valid()
      ensures CoreView() == EMPTY_CORE && BooksView() == OpeningBooks(options) && tally == EMPTY_TALLY
    {
      o := options;
      lots, order, resolved := map[], [], map[];
      entries, tally := [], EMPTY_TALLY;
      reasons := if options.coverageComplete then {} else {HistoryCoverageIncomplete};
    }

    method GetLot(k: LotKey)
      requires Valid()
      modifies this`lots, this`order
      ensures Valid() && CoreView() == Touch(old(CoreView()), k)
    {
      if k !in lots {
        TouchValid(CoreView(), k);
        lots, order := lots[k := EMPTY_LOT], order + [k];
      }
    }

    method MarkMissing(f: Fact, code: Code)
      modifies this`reasons
      ensures BooksView() == Note(o, old(BooksView()), f, [code])
    {
      assert [code][..0] == [];
      if o.Relevant(f.market) {
        reasons := reasons + {Missing(code, f.market)};
      }
    }

    method Record(f: Fact, proceeds: nat, d: Disposal, outcome: Option<nat>)
      modifies this`entries, this`reasons
      ensures BooksView() == Post(o, old(BooksView()), Booking(f, outcome, proceeds, d))
    {
      if f.market.None? || !o.Included(f) {
        return;
      }
      if !d.complete {
        MarkMissing(f, d.reason.GetOr(UnknownCost));
      }
      entries := entries +
        [Entry(f.id, f.market.value, outcome, f.kind, f.timestamp, proceeds, d.cost, d.complete, d.reason)];
    }

    method Dispose(f: Fact, k: LotKey, units: nat, escrow: bool) returns (d: Disposal)
      requires k in lots
      modifies this`lots, this`reasons
      ensures d == DisposeLot(old(lots)[k], units, escrow).1
      ensures CoreView() == SetLot(old(CoreView()), k, DisposeLot(old(lots)[k], units, escrow).0)
      ensures BooksView() == Note(o, old(BooksView()), f, DisposalGaps(d))
    {
      var lot := lots[k];
      var sufficient := units <= lot.units && units <= (if escrow then lot.escrow else lot.units - lot.escrow);
      var available: nat := if units < lot.units then units else lot.units;
      var cost := AllocatedCost(lot, available);
      var complete := sufficient && lot.complete;
      lot := lot.(units := lot.units - available, cost := lot.cost - cost);
      if escrow {
        lot := lot.(escrow := if lot.escrow > available then lot.escrow - available else 0);
      }
      if lot.escrow > lot.units { lot := lot.(escrow := lot.units); }
      if !sufficient { MarkMissing(f, ShareBalanceGap); }
      if lot.units == 0 { lot := lot.(complete := true, lossSettled := false); }
      lots := lots[k := lot];
      d := Disposal(cost, complete,
                    if complete then None
                    else if sufficient then Some(UnknownAcquisitionCost)
                    else Some(ShareBalanceGap));
    }

    method AcquireLot(f: Fact, k: LotKey, units: nat, cost: Option<nat>)
      requires k in lots && f.market == Some(k.market)
      modifies this`lots, this`entries, this`reasons
      ensures CoreView() == Acquire(old(CoreView()), f, k, units, cost).core
      ensures BooksView() == Absorb(o, old(BooksView()), f, Acquire(old(CoreView()), f, k, units, cost))
    {
      var lot := lots[k];
      lot := lot.(units := lot.units + units, cost := lot.cost + cost.GetOr(0));
      lot := lot.(complete := lot.complete && cost.Some?, lossSettled := false);
      if k.market in resolved && resolved[k.market] != k.outcome {
        Record(f, 0, LossOf(lot), Some(k.outcome));
        lot := Settled(lot);
      }
      lots := lots[k := lot];
    }

    method SettleHolding(f: Fact, k: LotKey, winner: nat)
      requires k in lots && f.market.Some?
      modifies this`lots, this`entries, this`reasons
      ensures CoreView() == SettleOne(old(CoreView()), f, k, f.market.value, winner).0
      ensures BooksView() == Post(o, old(BooksView()), SettleOne(old(CoreView()), f, k, f.market.value, winner).1)
    {
      var holding := lots[k];
      if k.market == f.market.value && k.outcome != winner && holding.units > 0 && !holding.lossSettled {
        Record(f, 0, LossOf(holding), Some(k.outcome));
        lots := lots[k := Settled(holding)];
      }
    }

    method SettleHoldings(f: Fact, winner: nat)
      requires Valid() && f.market.Some?
      modifies this`lots, this`entries, this`reasons
      ensures var (after, booked) := SettleLosers(old(CoreView()), f, f.market.value, winner, |order|);
              && CoreView() == after
              && BooksView() == Post(o, old(BooksView()), booked)
    {
      ghost var c, booked := CoreView(), [];
      for i := 0 to |order|
        invariant order == c.order && lots.Keys == c.lots.Keys
        invariant SettleLosers(c, f, f.market.value, winner, i) == (CoreView(), booked)
        invariant BooksView() == Post(o, old(BooksView()), booked)
      {
        var k := order[i];
        assert k in c.order;
        ghost var more := SettleOne(CoreView(), f, k, f.market.value, winner).1;
        SettleHolding(f, k, winner);
        PostInTurn(o, old(BooksView()), booked, more);
        booked := booked + more;
      }
    }

    method SettleMarket(f: Fact)
      requires Valid() && f.HasLot()
      modifies this`lots, this`resolved, this`entries, this`reasons
      ensures CoreView() == Resolve(old(CoreView()), f).core
      ensures BooksView() == Absorb(o, old(BooksView()), f, Resolve(old(CoreView()), f))
    {
      resolved := resolved[f.market.value := f.outcome.value];
      SettleHoldings(f, f.outcome.value);
    }

    method DisposePart(f: Fact, k: LotKey, units: nat) returns (d: Disposal)
      requires Valid()
      modifies this`lots, this`order, this`reasons
      ensures var touched := Touch(old(CoreView()), k);
              && Valid() && d == DisposeLot(touched.lots[k], units, false).1
              && CoreView() == SetLot(touched, k, DisposeLot(touched.lots[k], units, false).0)
      ensures BooksView() == Note(o, old(BooksView()), f, DisposalGaps(d))
    {
      GetLot(k);
      d := Dispose(f, k, units, false);
    }

    method BurnPart(f: Fact, part: Part, sum: BurnSum, ghost gaps: seq<Code>) returns (after: BurnSum, ghost more: seq<Code>)
      requires Valid() && f.market.Some?
      modifies this`lots, this`order, this`reasons
      ensures Valid()
      ensures BurnOne(Burn(old(CoreView()), sum, gaps), f.market.value, part) == Burn(CoreView(), after, gaps + more)
      ensures BooksView() == Note(o, old(BooksView()), f, more)
    {
      match part {
        case Malformed =>
          after, more := sum.(complete := false), [];
          assert gaps + [] == gaps;
        case Part(outcome, quantity) =>
          var d := DisposePart(f, LotKey(f.market.value, outcome), quantity);
          after := sum.(burned := sum.burned + quantity, cost := sum.cost + d.cost);
          after := after.(complete := after.complete && d.complete);
          after := after.(reason := if after.reason.Some? then after.reason else d.reason);
          more := DisposalGaps(d);
      }
    }

    method BurnConsumed(f: Fact) returns (sum: BurnSum, ghost gaps: seq<Code>)
      requires Valid() && f.market.Some?
      modifies this`lots, this`order, this`reasons
      ensures BurnParts(old(CoreView()), f.market.value, Consumed(f)) == Burn(CoreView(), sum, gaps)
      ensures BooksView() == Note(o, old(BooksView()), f, gaps)
    {
      var parts := Consumed(f);
      sum, gaps := BurnSum(0, 0, true, None), [];
      ghost var c := CoreView();
      for i := 0 to |parts|
        invariant Valid()
        invariant BurnParts(c, f.market.value, parts[..i]) == Burn(CoreView(), sum, gaps)
        invariant BooksView() == Note(o, old(BooksView()), f, gaps)
      {
        assert parts[..i + 1][..i] == parts[..i];
        ghost var more;
        sum, more := BurnPart(f, parts[i], sum, gaps);
        NoteInTurn(o, old(BooksView()), f, gaps, more);
        gaps := gaps + more;
      }
      assert parts[..|parts|] == parts;
    }

    method BurnShares(f: Fact)
      requires Valid() && f.market.Some?
      modifies this`lots, this`order, this`entries, this`reasons
      ensures CoreView() == BurnFact(old(CoreView()), f).core
      ensures BooksView() == Absorb(o, old(BooksView()), f, BurnFact(old(CoreView()), f))
    {
      var sum, gaps := BurnConsumed(f);
      var cost, complete, reason := sum.cost, sum.complete, sum.reason;
      if sum.burned != f.Units() {
        complete, reason := false, Some(BurnMovementMissing);
      }
      if f.kind != LosingBurned {
        Record(f, f.Value(), Disposal(cost, complete, reason), f.outcome);
      } else {
        NoteInTurn(o, old(BooksView()), f, gaps, if cost > 0 || !complete then [TerminalLossHistoryMissing] else []);
        if cost > 0 || !complete {
          MarkMissing(f, TerminalLossHistoryMissing);
        }
      }
    }

    method FillOwnListing(f: Fact)
      requires f.HasLot() && f.Key() in lots
      modifies this`lots, this`entries, this`reasons
      ensures CoreView() == SelfFill(old(CoreView()), f).core
      ensures BooksView() == Absorb(o, old(BooksView()), f, SelfFill(old(CoreView()), f))
    {
      var lot, proceeds := lots[f.Key()], f.extra.sellerProceeds;
      if lot.escrow < f.Units() { MarkMissing(f, EscrowBalanceGap); }
      lots := lots[f.Key() := lot.(escrow := if lot.escrow >= f.Units() then lot.escrow - f.Units() else 0)];
      Record(f, proceeds.GetOr(0),
             Disposal(f.Value(), proceeds.Some?, if proceeds.None? then Some(SellerNetMissing) else None), f.outcome);
    }

    method SellLot(f: Fact)
      requires f.HasLot() && f.Key() in lots
      modifies this`lots, this`entries, this`reasons
      ensures CoreView() == Sell(old(CoreView()), f).core
      ensures BooksView() == Absorb(o, old(BooksView()), f, Sell(old(CoreView()), f))
    {
      var proceeds := f.extra.sellerProceeds;
      var d := Dispose(f, f.Key(), f.Units(), f.extra.escrowed);
      Record(f, proceeds.GetOr(0),
             Disposal(d.cost, d.complete && proceeds.Some?,
                      if proceeds.None? then Some(SellerNetMissing) else d.reason), f.outcome);
    }

    method FillListing(f: Fact)
      requires f.HasLot() && f.Key() in lots
      modifies this`lots, this`entries, this`reasons
      ensures CoreView() == Fill(o.who, old(CoreView()), f).core
      ensures BooksView() == Absorb(o, old(BooksView()), f, Fill(o.who, old(CoreView()), f))
    {
      var mine, other := f.Mine(o.who), f.Other(o.who);
      if mine && other {
        FillOwnListing(f);
      } else {
        if other { SellLot(f); }
        if mine { AcquireLot(f, f.Key(), f.Units(), Some(f.Value())); }
      }
    }

    method ListShares(f: Fact)
      requires f.HasLot() && f.Key() in lots
      modifies this`lots, this`reasons
      ensures CoreView() == List(old(CoreView()), f).core
      ensures BooksView() == Absorb(o, old(BooksView()), f, List(old(CoreView()), f))
    {
      var lot := lots[f.Key()];
      lot := lot.(escrow := lot.escrow + f.Units());
      if lot.escrow > lot.units {
        lot := lot.(complete := false);
        MarkMissing(f, EscrowBalanceGap);
      }
      lots := lots[f.Key() := lot];
    }

    method UnlistShares(f: Fact)
      requires f.HasLot() && f.Key() in lots
      modifies this`lots, this`reasons
      ensures CoreView() == Unlist(old(CoreView()), f).core
      ensures BooksView() == Absorb(o, old(BooksView()), f, Unlist(old(CoreView()), f))
    {
      var lot := lots[f.Key()];
      if lot.escrow < f.Units() {
        lot := lot.(complete := false);
        MarkMissing(f, EscrowBalanceGap);
      }
      lots := lots[f.Key() := lot.(escrow := if lot.escrow >= f.Units() then lot.escrow - f.Units() else 0)];
    }

    /** One turn of the main loop for a fact about shares of one outcome. */
    method MoveShares(f: Fact)
      requires f.HasLot() && f.Key() in lots
      modifies this`lots, this`entries, this`reasons
      ensures CoreView() == LotStep(o.who, old(CoreView()), f).core
      ensures BooksView() == Absorb(o, old(BooksView()), f, LotStep(o.who, old(CoreView()), f))
    {
      hide Acquire, Fill, DisposeLot, List, Unlist;
      var k, mine, other := f.Key(), f.Mine(o.who), f.Other(o.who);
      if f.kind == PrimaryBuy && mine { AcquireLot(f, k, f.Units(), Some(f.Value())); }
      if f.kind == ListingCreated && mine { ListShares(f); }
      if IsUnlisting(f.kind) && mine { UnlistShares(f); }
      if f.kind == ListingFilled { FillListing(f); }
      if f.kind == ShareTransfer && !(mine && other) {
        if mine { var _ := Dispose(f, k, f.Units(), false); }
        if other { AcquireLot(f, k, f.Units(), None); }
      }
    }

    /** Bonds, fees, payments and gas. */
    method Account(f: Fact)
      modifies this`tally
      ensures tally == TallyStep(o, old(tally), f)
    {
      var mine, other, value := f.Mine(o.who), f.Other(o.who), f.Value();
      if mine && f.kind == BondLocked && f.market.Some? {
        tally := tally.(bonds := tally.bonds[f.market.value := Bond(value, false)]);
        tally := tally.(bondLocked := tally.bondLocked + value);
      }
      if f.kind == BondCredited && mine && f.market.Some? {
        var known := f.market.value in tally.bonds;
        if !known || !tally.bonds[f.market.value].settled {
          tally := tally.(bondCredited := tally.bondCredited + value);
          if known { Settle(f.market.value); }
        }
      }
      if f.kind == BondTimeoutFunded && f.market.Some? {
        if f.market.value in tally.bonds && !tally.bonds[f.market.value].settled {
          Settle(f.market.value);
          tally := tally.(bondSlashed := tally.bondSlashed + value);
        }
      }
      if mine && f.kind == BondClaimed { tally := tally.(bondClaimed := tally.bondClaimed + value); }
      if mine && f.kind == FeeAccrued && o.Included(f) && f.extra.creatorFee {
        tally := tally.(creatorIncome := tally.creatorIncome + value);
      }
      if mine && f.kind == FeeClaimed && o.Included(f) {
        tally := tally.(creatorClaimed := tally.creatorClaimed + value);
      }
      if f.kind == PaymentTransfer && o.Included(f) {
        if mine && !other { tally := tally.(paymentOut := tally.paymentOut + value); }
        if other && !mine { tally := tally.(paymentIn := tally.paymentIn + value); }
      }
      if mine && f.kind == UserOperation && o.Included(f) {
        tally := tally.(gasCost := tally.gasCost + value);
      }
    }

    method Settle(market: Address)
      requires market in tally.bonds
      modifies this`tally
      ensures tally == Release(old(tally), market)
    {
      var bond := tally.bonds[market];
      tally := tally.(bonds := tally.bonds[market := bond.(settled := true)]);
      tally := tally.(bondLocked := tally.bondLocked - bond.amount);
    }

    /** The share-moving half of the main loop's body. */
    method ApplyToLots(f: Fact)
      requires Valid()
      modifies this`lots, this`order, this`resolved, this`entries, this`reasons
      ensures CoreView() == Step(o.who, old(CoreView()), f).core
      ensures BooksView() == Absorb(o, old(BooksView()), f, Step(o.who, old(CoreView()), f))
    {
      if f.HasLot() { GetLot(f.Key()); }
      if MovesShares(f.kind) {
        if f.HasLot() { MoveShares(f); }
      } else if f.kind == MarketResolved {
        if f.HasLot() { SettleMarket(f); }
      } else if IsBurn(f.kind) {
        if f.Mine(o.who) && f.market.Some? { BurnShares(f); }
      } else {
        ApplyOther(f);
      }
    }

    method ApplyOther(f: Fact)
      modifies this`entries, this`reasons
      ensures CoreView() == OtherStep(o.who, old(CoreView()), f).core
      ensures BooksView() == Absorb(o, old(BooksView()), f, OtherStep(o.who, old(CoreView()), f))
    {
      if IsBonus(f.kind) && f.Mine(o.who) {
        Record(f, f.Value(), Disposal(0, true, None), f.outcome);
      }
      if f.kind == CoverageGap && (f.Mine(o.who) || f.Other(o.who)) {
        MarkMissing(f, EventGap(f.extra.gapReason.GetOr("event_gap")));
      }
    }

    /** The body of the main loop for a fact that was neither seen before nor past the window. */
    method Apply(f: Fact)
      requires Valid()
      modifies this
      ensures Valid() && CoreView() == Step(o.who, old(CoreView()), f).core
      ensures BooksView() == Absorb(o, old(BooksView()), f, Step(o.who, old(CoreView()), f))
      ensures tally == TallyStep(o, old(tally), f)
    {
      StepValid(o.who, CoreView(), f);
      ApplyToLots(f);
      Account(f);
    }
  }

  /** The reducer's state after the processed facts. */
  ghost predicate Agrees(r: Reducer, facts: seq<Fact>) reads r {
    && r.CoreView() == Run(r.o.who, facts).core
    && r.BooksView() == BooksAfter(r.o, facts)
    && r.tally == Tallies(r.o, facts)
  }

  method ApplyNext(r: Reducer, f: Fact, ghost facts: seq<Fact>)
    requires Agrees(r, facts)
    modifies r
    ensures Agrees(r, facts + [f])
  {
    assert (facts + [f])[..|facts|] == facts;
    r.Apply(f);
  }

  /** One turn of the main loop: skip a repeated fact or one past the end, else apply it. */
  method Turn(r: Reducer, f: Fact, seen: set<nat>, ghost sorted: seq<Fact>) returns (now: set<nat>)
    requires Agrees(r, Processed(r.o, sorted)) && forall id :: id in seen <==> Seen(sorted, id)
    modifies r
    ensures Agrees(r, Processed(r.o, sorted + [f])) && forall id :: id in now <==> Seen(sorted + [f], id)
  {
    ProcessedNext(r.o, sorted, f);
    SeenNext(sorted, f);
    now := seen;
    if f.id in seen { return; }
    now := seen + {f.id};
    if !r.o.BeforeEnd(f.timestamp) { return; }
    ApplyNext(r, f, Processed(r.o, sorted));
  }

  /** Sort, drop repeats and facts past the end, fold the rest, then report. */
  method ComputePnl(o: Options, input: seq<Fact>) returns (pnl: Pnl)
    ensures pnl == ReportOf(o, input)
  {
    hide Report, Step, TallyStep, Absorb, Sort, Reported;
    var r := new Reducer(o);
    var sorted, seen := Sort(input), {};
    for i := 0 to |sorted|
      invariant r.o == o && Agrees(r, Processed(o, sorted[..i]))
      invariant forall id :: id in seen <==> Seen(sorted[..i], id)
    {
      assert sorted[..i + 1] == sorted[..i] + [sorted[i]];
      seen := Turn(r, sorted[i], seen, sorted[..i]);
    }
    assert sorted[..|sorted|] == sorted;
    WindowSelectsBookings(o, Processed(o, sorted));
    pnl := Finish(r, Processed(o, sorted));
  }

  method Finish(r: Reducer, ghost facts: seq<Fact>) returns (pnl: Pnl)
    requires Agrees(r, facts)
    requires r.entries == Reported(r.o, Run(r.o.who, facts).bookings)
    ensures pnl == Report(r.o, facts)
  {
    var c := Core(r.lots, r.order, r.resolved);
    var held := HeldLots(r.o, c);
    var reasons := r.reasons;
    for i := 0 to |held|
      invariant reasons == r.reasons + LotReasons(c, held[..i])
    {
      assert held[..i + 1][..i] == held[..i];
      if !c.LotAt(held[i]).complete {
        reasons := reasons + {Missing(UnknownAcquisitionCost, Some(held[i].market))};
      }
    }
    assert held[..|held|] == held;
    var known := Known(r.entries);
    pnl := Pnl(if reasons == {} then Some(known) else None, known, reasons == {}, reasons,
               View(c, held), r.entries, r.tally);
  }
}
