/**
  How far rounding can move a lot away from its average cost: each disposal rounds its cost
  down, so the lot keeps at least its share and at most one unit per disposal more, and the
  last disposal takes exactly what is left.
 */
module PnlDrift {
  import opened Prelude
  import opened PnlModel
  import opened PnlReport
  import opened PnlConservation
  import opened PnlCompleteness

  /**
    A lot that started with `units` at `cost` now has u units and remaining cost r after k roundings:
    r/u lies between cost/units and cost/units + k/u.
   */
  predicate Within(units: nat, cost: nat, u: nat, r: nat, k: nat) {
    cost * u <= r * units <= cost * u + k * units
  }

  lemma FloorBounds(n: nat, d: nat)
    requires d > 0
    ensures n / d * d <= n < n / d * d + d
  {
  }

  /** What is left of `cost` after charging the rounded-down share of `moved` out of `units`. */
  lemma RemainderBounds(cost: nat, moved: nat, units: nat)
    requires 0 < units && moved < units
    ensures var left := cost - cost * moved / units;
            cost * (units - moved) <= left * units <= cost * (units - moved) + units
  {
    var share := cost * moved / units;
    FloorBounds(cost * moved, units);
    assert (cost - share) * units == cost * units - share * units;
    assert cost * (units - moved) == cost * units - cost * moved;
  }

  lemma CancelFactor(u: nat, a: int, b: int)
    requires 0 < u && a * u <= b * u
    ensures a <= b
  {
    assert (b - a) * u >= 0;
  }

  lemma Scale(a: int, b: int, c: int)
    requires a <= b && 0 <= c
    ensures a * c <= b * c
  {
  }

  lemma Swap(a: int, b: int, c: int)
    ensures (a * b) * c == (a * c) * b
  {
  }

  lemma Distribute(a: int, b: int, c: int)
    ensures (a + b) * c == a * c + b * c
  {
  }

  lemma LowerNext(units: nat, cost: nat, u: nat, r: nat, u': nat, r': nat)
    requires 0 < u && cost * u <= r * units && r * u' <= r' * u
    ensures cost * u' <= r' * units
  {
    Scale(cost * u, r * units, u');
    Scale(r * u', r' * u, units);
    Swap(cost, u, u');
    Swap(r, units, u');
    Swap(r', u, units);
    CancelFactor(u, cost * u', r' * units);
  }

  lemma UpperNext(units: nat, cost: nat, u: nat, r: nat, k: nat, u': nat, r': nat)
    requires 0 < u' < u && r * units <= cost * u + k * units && r' * u <= r * u' + u
    ensures r' * units <= cost * u' + (k + 1) * units
  {
    var kept := k * units;
    Distribute(k, 1, units);
    UpperProducts(units, cost, u, r, kept, u', r');
    CancelFactor(u, r' * units, cost * u' + kept + units);
  }

  lemma UpperProducts(units: nat, cost: nat, u: nat, r: nat, kept: nat, u': nat, r': nat)
    requires u' < u && r * units <= cost * u + kept && r' * u <= r * u' + u
    ensures (r' * units) * u <= (cost * u' + kept + units) * u
  {
    Scale(r' * u, r * u' + u, units);
    Distribute(r * u', u, units);
    Swap(r, u', units);
    Scale(r * units, cost * u + kept, u');
    Distribute(cost * u, kept, u');
    Swap(cost, u, u');
    Scale(u', u, kept);
    Swap(r', u, units);
    Distribute(cost * u' + kept, units, u);
    Distribute(cost * u', kept, u);
  }

  /** Scaling one more disposal into the bounds kept so far. */
  lemma NextWithin(units: nat, cost: nat, u: nat, r: nat, k: nat, u': nat, r': nat)
    requires 0 < u' < u && Within(units, cost, u, r, k)
    requires r * u' <= r' * u <= r * u' + u
    ensures Within(units, cost, u', r', k + 1)
  {
    LowerNext(units, cost, u, r, u', r');
    UpperNext(units, cost, u, r, k, u', r');
  }

  lemma DisposalDrifts(units: nat, cost: nat, lot: Lot, moved: nat, escrow: bool, k: nat)
    requires Within(units, cost, lot.units, lot.cost, k) && Free(lot)
    ensures var after := DisposeLot(lot, moved, escrow).0;
            Within(units, cost, after.units, after.cost, k + 1) && Free(after)
  {
    var after := DisposeLot(lot, moved, escrow).0;
    var available: nat := if moved < lot.units then moved else lot.units;
    if units == 0 || lot.units == 0 || available == lot.units {
      assert (after.units == 0 && after.cost == 0) || units == 0;
    } else if available == 0 {
      assert lot.cost * 0 / lot.units == 0;
      assert after.units == lot.units && after.cost == lot.cost;
    } else {
      RemainderBounds(lot.cost, available, lot.units);
      NextWithin(units, cost, lot.units, lot.cost, k, after.units, after.cost);
    }
  }

  // ---------------------------------------------------------------- over a stretch of history

  /** A fact that neither adds shares to lot k nor settles its market. */
  predicate OnlyReduces(who: Address, f: Fact, k: LotKey) {
    f.market == Some(k.market) ==>
      && f.kind != MarketResolved
      && (f.HasLot() && f.Key() == k ==> !Receives(who, f) && !ReceivesTransfer(who, f))
  }

  function PartsOf(parts: seq<Part>, outcome: nat): nat {
    if parts == [] then 0
    else
      var last := parts[|parts| - 1];
      PartsOf(parts[..|parts| - 1], outcome) + (if last.Part? && last.outcome == outcome then 1 else 0)
  }

  /** How many disposals a fact makes from lot k. */
  function Disposals(who: Address, f: Fact, k: LotKey): nat {
    if f.market != Some(k.market) then 0
    else if IsBurn(f.kind) then (if f.Mine(who) then PartsOf(Consumed(f), k.outcome) else 0)
    else if f.outcome == Some(k.outcome) && Gives(who, f) then 1
    else 0
  }

  function AllDisposals(who: Address, facts: seq<Fact>, k: LotKey): nat {
    if facts == [] then 0
    else AllDisposals(who, facts[..|facts| - 1], k) + Disposals(who, facts[|facts| - 1], k)
  }

  ghost predicate Drifted(start: Lot, now: Lot, k: nat) {
    Within(start.units, start.cost, now.units, now.cost, k) && Free(now)
  }

  lemma {:induction false} BurnDrifts(start: Lot, c: Core, market: Address, parts: seq<Part>, key: LotKey, k: nat)
    requires Drifted(start, c.LotAt(key), k)
    ensures Drifted(start, BurnParts(c, market, parts).core.LotAt(key),
                    k + if key.market == market then PartsOf(parts, key.outcome) else 0)
  {
    if parts != [] {
      hide DisposeLot, Within;
      var init, last := parts[..|parts| - 1], parts[|parts| - 1];
      BurnDrifts(start, c, market, init, key, k);
      if last.Part? && key == LotKey(market, last.outcome) {
        var touched := Touch(BurnParts(c, market, init).core, key);
        DisposalDrifts(start.units, start.cost, touched.lots[key], last.units, false,
                       k + PartsOf(init, key.outcome));
      }
    }
  }

  lemma LotStepDrifts(who: Address, start: Lot, c: Core, f: Fact, k: nat)
    requires MovesShares(f.kind) && f.HasLot() && f.Key() in c.lots && OnlyReduces(who, f, f.Key())
    requires Drifted(start, c.lots[f.Key()], k)
    ensures Drifted(start, LotStep(who, c, f).core.LotAt(f.Key()), k + Disposals(who, f, f.Key()))
  {
    hide DisposeLot, Within;
    var lot := c.lots[f.Key()];
    DisposalDrifts(start.units, start.cost, lot, f.Units(), f.kind == ListingFilled && f.extra.escrowed, k);
    var after := LotStep(who, c, f).core.LotAt(f.Key());
    if !Gives(who, f) {
      assert after.units == lot.units && after.cost == lot.cost;
    }
  }

  lemma NoDisposals(who: Address, f: Fact, k: LotKey)
    ensures !(MovesShares(f.kind) && f.HasLot() && k == f.Key()) && !(IsBurn(f.kind) && f.Mine(who) && f.market.Some?)
            ==> Disposals(who, f, k) == 0
  {
  }

  lemma BurnFactDrifts(who: Address, start: Lot, c: Core, f: Fact, key: LotKey, k: nat)
    requires IsBurn(f.kind) && f.Mine(who) && f.market.Some? && Drifted(start, c.LotAt(key), k)
    ensures Drifted(start, BurnFact(c, f).core.LotAt(key), k + Disposals(who, f, key))
  {
    hide BurnParts, Drifted;
    BurnDrifts(start, c, f.market.value, Consumed(f), key, k);
  }

  lemma StepDrifts(who: Address, start: Lot, before: Core, f: Fact, key: LotKey, k: nat)
    requires before.Valid() && OnlyReduces(who, f, key) && Drifted(start, before.LotAt(key), k)
    ensures Drifted(start, Step(who, before, f).core.LotAt(key), k + Disposals(who, f, key))
  {
    MentionedLot(before, f, key);
    hide LotStep, Drifted, BurnFact, Resolve, OtherStep, Disposals, Mention, Core.LotAt, Core.Valid, Receives, ReceivesTransfer;
    NoDisposals(who, f, key);
    var c := Mention(before, f);
    if MovesShares(f.kind) {
      if f.HasLot() {
        if key == f.Key() { LotStepDrifts(who, start, c, f, k); } else { LotStepElsewhere(who, c, f, key); }
      }
    } else if f.kind == MarketResolved {
      if f.HasLot() { ElsewhereSettled(c, f, key); }
    } else if IsBurn(f.kind) {
      if f.Mine(who) && f.market.Some? { BurnFactDrifts(who, start, c, f, key, k); }
    } else {
      OtherStepConserves(who, c, f);
    }
  }

  lemma ElsewhereSettled(c: Core, f: Fact, key: LotKey)
    requires c.Valid() && f.HasLot() && f.market != Some(key.market)
    ensures Resolve(c, f).core.LotAt(key) == c.LotAt(key)
  {
    SettlesOnlyItsMarket(c.(resolved := c.resolved[f.market.value := f.outcome.value]), f,
                         f.market.value, f.outcome.value, |c.order|, key);
  }

  lemma {:induction false} SettlesOnlyItsMarket(c: Core, f: Fact, market: Address, winner: nat, n: nat, key: LotKey)
    requires c.Valid() && n <= |c.order| && key.market != market
    ensures SettleLosers(c, f, market, winner, n).0.LotAt(key) == c.LotAt(key)
  {
    if n != 0 { SettlesOnlyItsMarket(c, f, market, winner, n - 1, key); }
  }

  lemma NotYetDrifted(lot: Lot)
    requires Free(lot)
    ensures Drifted(lot, lot, 0)
  {
  }

  lemma {:induction false} HistoryDrifts(who: Address, facts: seq<Fact>, more: seq<Fact>, key: LotKey)
    requires Free(Run(who, facts).core.LotAt(key))
    requires forall f :: f in more ==> OnlyReduces(who, f, key)
    ensures Drifted(Run(who, facts).core.LotAt(key), Run(who, facts + more).core.LotAt(key),
                    AllDisposals(who, more, key))
    decreases |more|
  {
    hide Step, Disposals, OnlyReduces, Drifted, Free;
    if more == [] {
      assert facts + more == facts;
      NotYetDrifted(Run(who, facts).core.LotAt(key));
    } else {
      var init, last := more[..|more| - 1], more[|more| - 1];
      assert (facts + more)[..|facts + more| - 1] == facts + init;
      HistoryDrifts(who, facts, init, key);
      StepDrifts(who, Run(who, facts).core.LotAt(key), Run(who, facts + init).core, last, key,
                 AllDisposals(who, init, key));
    }
  }

  // ---------------------------------------------------------------- where the cost of a lot goes

  /** The cost that the parts of a burn take out of one outcome. */
  function PartsCost(c: Core, market: Address, parts: seq<Part>, outcome: nat): nat {
    if parts == [] then 0
    else
      var init, last := parts[..|parts| - 1], parts[|parts| - 1];
      PartsCost(c, market, init, outcome)
      + if last.Part? && last.outcome == outcome then
          DisposeLot(BurnParts(c, market, init).core.LotAt(LotKey(market, outcome)), last.units, false).1.cost
        else 0
  }

  /** The cost that a fact takes out of lot k by moving shares out of it. */
  function Taken(who: Address, before: Core, f: Fact, k: LotKey): nat {
    if f.market != Some(k.market) then 0
    else if IsBurn(f.kind) then
      if f.Mine(who) then PartsCost(Mention(before, f), k.market, Consumed(f), k.outcome) else 0
    else if f.outcome == Some(k.outcome) && Gives(who, f) then
      DisposeLot(before.LotAt(k), f.Units(), f.kind == ListingFilled && f.extra.escrowed).1.cost
    else 0
  }

  /** What the facts `more` take out of lot k after `facts`. */
  function AllTaken(who: Address, facts: seq<Fact>, more: seq<Fact>, k: LotKey): nat {
    if more == [] then 0
    else
      var init, last := more[..|more| - 1], more[|more| - 1];
      AllTaken(who, facts, init, k) + Taken(who, Run(who, facts + init).core, last, k)
  }

  lemma OnePartTakes(b: Burn, market: Address, part: Part, outcome: nat)
    ensures var k := LotKey(market, outcome);
            b.core.LotAt(k).cost - BurnOne(b, market, part).core.LotAt(k).cost
            == if part.Part? && part.outcome == outcome then DisposeLot(b.core.LotAt(k), part.units, false).1.cost else 0
  {
    hide AllocatedCost;
  }

  lemma {:induction false} BurnTakes(c: Core, market: Address, parts: seq<Part>, outcome: nat)
    ensures var k := LotKey(market, outcome);
            c.LotAt(k).cost - BurnParts(c, market, parts).core.LotAt(k).cost == PartsCost(c, market, parts, outcome)
  {
    if parts != [] {
      hide BurnOne, DisposeLot, Core.LotAt;
      BurnTakes(c, market, parts[..|parts| - 1], outcome);
      OnePartTakes(BurnParts(c, market, parts[..|parts| - 1]), market, parts[|parts| - 1], outcome);
    }
  }

  lemma {:induction false} BurnTouchesItsMarket(c: Core, market: Address, parts: seq<Part>, k: LotKey)
    requires k.market != market
    ensures BurnParts(c, market, parts).core.LotAt(k) == c.LotAt(k)
  {
    if parts != [] {
      hide DisposeLot;
      BurnTouchesItsMarket(c, market, parts[..|parts| - 1], k);
    }
  }

  lemma LotStepTakes(who: Address, c: Core, f: Fact)
    requires MovesShares(f.kind) && f.HasLot() && f.Key() in c.lots && OnlyReduces(who, f, f.Key())
    ensures c.lots[f.Key()].cost - LotStep(who, c, f).core.LotAt(f.Key()).cost == Taken(who, c, f, f.Key())
  {
    hide AllocatedCost;
  }

  lemma BurnFactTakes(who: Address, before: Core, f: Fact, k: LotKey)
    requires IsBurn(f.kind) && f.Mine(who) && f.market.Some?
    ensures before.LotAt(k).cost - BurnFact(Mention(before, f), f).core.LotAt(k).cost == Taken(who, before, f, k)
  {
    hide BurnParts, PartsCost;
    if k.market == f.market.value {
      BurnTakes(Mention(before, f), k.market, Consumed(f), k.outcome);
    } else {
      BurnTouchesItsMarket(Mention(before, f), f.market.value, Consumed(f), k);
    }
  }

  lemma NothingTaken(who: Address, before: Core, f: Fact, k: LotKey)
    ensures !(MovesShares(f.kind) && f.HasLot() && k == f.Key()) && !(IsBurn(f.kind) && f.Mine(who) && f.market.Some?)
            ==> Taken(who, before, f, k) == 0
    ensures !IsBurn(f.kind) ==> Taken(who, Mention(before, f), f, k) == Taken(who, before, f, k)
  {
    hide DisposeLot, PartsCost;
  }

  /** While a lot is only reduced, its cost falls by exactly what each fact takes out of it. */
  lemma StepTakes(who: Address, before: Core, f: Fact, k: LotKey)
    requires before.Valid() && OnlyReduces(who, f, k)
    ensures before.LotAt(k).cost - Step(who, before, f).core.LotAt(k).cost == Taken(who, before, f, k)
  {
    MentionedLot(before, f, k);
    hide LotStep, BurnFact, Taken, Resolve, OtherStep, Mention, Core.LotAt, Core.Valid, Receives, ReceivesTransfer;
    NothingTaken(who, before, f, k);
    var c := Mention(before, f);
    if MovesShares(f.kind) {
      if f.HasLot() {
        if k == f.Key() { LotStepTakes(who, c, f); } else { LotStepElsewhere(who, c, f, k); }
      }
    } else if f.kind == MarketResolved {
      if f.HasLot() { ElsewhereSettled(c, f, k); }
    } else if IsBurn(f.kind) {
      if f.Mine(who) && f.market.Some? { BurnFactTakes(who, before, f, k); }
    } else {
      OtherStepConserves(who, c, f);
    }
  }

  lemma {:induction false} HistoryTakes(who: Address, facts: seq<Fact>, more: seq<Fact>, key: LotKey)
    requires forall f :: f in more ==> OnlyReduces(who, f, key)
    ensures Run(who, facts).core.LotAt(key).cost - Run(who, facts + more).core.LotAt(key).cost
            == AllTaken(who, facts, more, key)
    decreases |more|
  {
    hide Step, Taken, OnlyReduces, Core.LotAt;
    if more == [] {
      assert facts + more == facts;
    } else {
      var init, last := more[..|more| - 1], more[|more| - 1];
      assert (facts + more)[..|facts + more| - 1] == facts + init;
      HistoryTakes(who, facts, init, key);
      StepTakes(who, Run(who, facts + init).core, last, key);
    }
  }

  // ---------------------------------------------------------------- and how it is booked

  /** What one fact takes, lot by lot. */
  datatype Takings = Takings(who: Address, before: Core, f: Fact) {
    function From(k: LotKey): int { Taken(who, before, f, k) }
  }

  datatype PartTakings = PartTakings(c: Core, market: Address, parts: seq<Part>) {
    function From(k: LotKey): int { if k.market == market then PartsCost(c, market, parts, k.outcome) else 0 }
  }

  /** keys lists, once each, all lots that shares move out of. */
  ghost predicate ListsLots(keys: seq<LotKey>, f: Fact) {
    NoDuplicates(keys) && f.market.Some?
    && if IsBurn(f.kind) then forall p :: p in Consumed(f) && p.Part? ==> LotKey(f.market.value, p.outcome) in keys
       else f.HasLot() && f.Key() in keys
  }

  lemma {:induction false} PartsAddUp(c: Core, market: Address, parts: seq<Part>, keys: seq<LotKey>)
    requires NoDuplicates(keys) && forall p :: p in parts && p.Part? ==> LotKey(market, p.outcome) in keys
    ensures Sum(keys, PartTakings(c, market, parts).From) == BurnParts(c, market, parts).sum.cost
  {
    if parts == [] {
      SumOfZeros(keys, PartTakings(c, market, []).From);
    } else {
      hide DisposeLot, NoDuplicates;
      var init, last := parts[..|parts| - 1], parts[|parts| - 1];
      assert parts == init + [last];
      PartsAddUp(c, market, init, keys);
      if last.Part? {
        var k := LotKey(market, last.outcome);
        assert last in parts;
        SumChangeOne(keys, k, PartTakings(c, market, init).From, PartTakings(c, market, parts).From);
      } else {
        SumAgree(keys, PartTakings(c, market, init).From, PartTakings(c, market, parts).From);
      }
    }
  }

  lemma {:induction false} SumOfZeros(keys: seq<LotKey>, f: LotKey -> int)
    requires forall k :: k in keys ==> f(k) == 0
    ensures Sum(keys, f) == 0
  {
    if keys != [] { SumOfZeros(keys[..|keys| - 1], f); }
  }

  lemma {:induction false} SumOfOne(keys: seq<LotKey>, f: LotKey -> int, key: LotKey)
    requires NoDuplicates(keys) && key in keys && forall k :: k in keys && k != key ==> f(k) == 0
    ensures Sum(keys, f) == f(key)
  {
    var init, last := keys[..|keys| - 1], keys[|keys| - 1];
    assert keys == init + [last];
    if last == key {
      assert forall k :: k in init ==> k != key;
      SumOfZeros(init, f);
    } else {
      SumOfOne(init, f, key);
    }
  }

  /** What a fact takes out of all lots is charged to its entry, carried out by the transfer or discarded by the losing burn. */
  lemma TakenIsBooked(who: Address, before: Core, f: Fact, keys: seq<LotKey>)
    requires before.Valid() && ListsLots(keys, f) && (Gives(who, f) || (IsBurn(f.kind) && f.Mine(who)))
    ensures Sum(keys, Takings(who, before, f).From)
            == Charged(Step(who, before, f).bookings) + CarriedOut(who, before, f) + Discarded(who, before, f)
  {
    MentionCost(before, f);
    if IsBurn(f.kind) {
      hide BurnParts, PartsCost, ListsLots, Gives;
      BurnIsBooked(who, before, f, keys);
    } else {
      hide Takings.From, ListsLots;
      GiftIsBooked(who, before, f);
      OnlyFrom(who, before, f, keys);
    }
  }

  lemma OnlyFrom(who: Address, before: Core, f: Fact, keys: seq<LotKey>)
    requires ListsLots(keys, f) && Gives(who, f)
    ensures f.HasLot() && Sum(keys, Takings(who, before, f).From) == Taken(who, before, f, f.Key())
  {
    hide DisposeLot;
    SumOfOne(keys, Takings(who, before, f).From, f.Key());
  }

  lemma GiftIsBooked(who: Address, before: Core, f: Fact)
    requires before.Valid() && Gives(who, f) && f.HasLot()
    ensures Taken(who, before, f, f.Key())
            == Charged(Step(who, before, f).bookings) + CarriedOut(who, before, f) + Discarded(who, before, f)
  {
    hide DisposeLot, Sell, Transfer, Mention;
    MentionCost(before, f);
    var c := Mention(before, f);
    if f.kind == ListingFilled {
      assert Step(who, before, f) == Sell(c, f);
      SaleIsBooked(c, f);
    } else {
      assert Step(who, before, f) == Transfer(who, c, f);
      TransferBooksNothing(who, c, f);
    }
  }

  lemma SaleIsBooked(c: Core, f: Fact)
    requires f.HasLot() && f.Key() in c.lots
    ensures Charged(Sell(c, f).bookings) == DisposeLot(c.lots[f.Key()], f.Units(), f.extra.escrowed).1.cost
  {
    hide DisposeLot, Charged;
    var d, proceeds := DisposeLot(c.lots[f.Key()], f.Units(), f.extra.escrowed).1, f.extra.sellerProceeds;
    ChargedBooking(f, f.outcome, proceeds.GetOr(0),
                   Disposal(d.cost, d.complete && proceeds.Some?, if proceeds.None? then Some(SellerNetMissing) else d.reason));
  }

  lemma TransferBooksNothing(who: Address, c: Core, f: Fact)
    requires f.HasLot() && f.Key() in c.lots && f.Mine(who) && !f.Other(who)
    ensures Charged(Transfer(who, c, f).bookings) == 0
  {
    hide DisposeLot;
  }

  lemma BurnIsBooked(who: Address, before: Core, f: Fact, keys: seq<LotKey>)
    requires before.Valid() && IsBurn(f.kind) && f.Mine(who) && ListsLots(keys, f)
    ensures Sum(keys, Takings(who, before, f).From)
            == Charged(Step(who, before, f).bookings) + CarriedOut(who, before, f) + Discarded(who, before, f)
  {
    hide BurnParts, PartsCost, NoDuplicates, LotStep, Resolve;
    var c, parts := Mention(before, f), Consumed(f);
    PartsAddUp(c, f.market.value, parts, keys);
    SumAgree(keys, PartTakings(c, f.market.value, parts).From, Takings(who, before, f).From);
    ChargedBooking(f, f.outcome, f.Value(), BurnTotal(BurnParts(c, f.market.value, parts).sum, f));
  }

  /**
    Rounding drift: after `facts`, let lot key hold U units at cost C. While further facts only reduce it,
    in k disposals, its units u and remaining cost r satisfy C*u <= r*U <= C*u + k*U; what was taken out of it
    is C - r, and exactly C once it is empty.
   */
  lemma RoundingDrift(who: Address, facts: seq<Fact>, more: seq<Fact>, key: LotKey)
    requires Free(Run(who, facts).core.LotAt(key))
    requires forall f :: f in more ==> OnlyReduces(who, f, key)
    ensures var start, now := Run(who, facts).core.LotAt(key), Run(who, facts + more).core.LotAt(key);
            && start.cost * now.units <= now.cost * start.units
            && now.cost * start.units <= start.cost * now.units + AllDisposals(who, more, key) * start.units
            && AllTaken(who, facts, more, key) == start.cost - now.cost
            && (now.units == 0 ==> now.cost == 0 && AllTaken(who, facts, more, key) == start.cost)
  {
    hide Run, AllDisposals, OnlyReduces, AllTaken;
    HistoryDrifts(who, facts, more, key);
    HistoryTakes(who, facts, more, key);
  }
}
