/**
  Each lot on its own: what it holds, how much of it is listed, and whether its cost is known and its loss
  booked, read off the facts of its market alone, for every history, clamped movements included.
 */
module PnlBalances {
  import opened Prelude
  import opened PnlModel
  import opened PnlReport
  import opened PnlConservation
  import opened PnlCompleteness

  datatype Balance = Balance(units: nat, listed: nat, known: bool, settled: bool)

  const NOTHING := Balance(0, 0, true, false)

  /** The outcome last announced for a market. */
  function Announced(facts: seq<Fact>, market: Address): Option<nat> {
    if facts == [] then None
    else
      var f := facts[|facts| - 1];
      if f.kind == MarketResolved && f.market == Some(market) && f.outcome.Some? then f.outcome
      else Announced(facts[..|facts| - 1], market)
  }

  predicate Lost(facts: seq<Fact>, k: LotKey) {
    Announced(facts, k.market).Some? && Announced(facts, k.market) != Some(k.outcome)
  }

  /** Shares that arrive for a lost outcome are booked as lost at once. */
  function Added(b: Balance, units: nat, priced: bool, lost: bool): Balance {
    Balance(b.units + units, b.listed, b.known && priced, lost)
  }

  /** No more leaves than is there, and no more stays listed than is left; an empty lot is a new one. */
  function Removed(b: Balance, units: nat, fromListed: bool): Balance {
    var left: nat := Max(0, b.units - units);
    var listed: nat := if fromListed then Max(0, b.listed - Min(units, b.units)) else b.listed;
    Balance(left, Min(listed, left), left == 0 || b.known, left != 0 && b.settled)
  }

  predicate Consumes(f: Fact, outcome: nat) { exists p :: p in Consumed(f) && p.Part? && p.outcome == outcome }

  function BalanceNext(who: Address, b: Balance, f: Fact, k: LotKey, lost: bool): Balance {
    if f.market != Some(k.market) then b
    else if IsBurn(f.kind) then
      if f.Mine(who) && Consumes(f, k.outcome) then Removed(b, PartUnits(Consumed(f), k.outcome), false) else b
    else if f.kind == MarketResolved then
      if f.outcome.Some? && f.outcome.value != k.outcome && b.units > 0 then b.(settled := true) else b
    else if f.outcome != Some(k.outcome) then b
    else if Gives(who, f) then Removed(b, f.Units(), f.kind == ListingFilled && f.extra.escrowed)
    else if ReceivesTransfer(who, f) then Added(b, f.Units(), false, lost)
    else if f.kind != ShareTransfer && Receives(who, f) then Added(b, f.Units(), true, lost)
    else if !f.Mine(who) then b
    else if f.kind == ListingCreated then
      b.(listed := b.listed + f.Units(), known := b.known && b.listed + f.Units() <= b.units)
    else if IsUnlisting(f.kind) then
      b.(listed := Max(0, b.listed - f.Units()), known := b.known && f.Units() <= b.listed)
    else if f.kind == ListingFilled then b.(listed := Max(0, b.listed - f.Units()))
    else b
  }

  function BalanceOf(who: Address, facts: seq<Fact>, k: LotKey): Balance {
    if facts == [] then NOTHING
    else
      var init := facts[..|facts| - 1];
      BalanceNext(who, BalanceOf(who, init, k), facts[|facts| - 1], k, Lost(init, k))
  }

  function Abstract(lot: Lot): Balance { Balance(lot.units, lot.escrow, lot.complete, lot.lossSettled) }

  // ---------------------------------------------------------------- one fact

  lemma DisposalRemoves(lot: Lot, units: nat, escrow: bool)
    ensures Abstract(DisposeLot(lot, units, escrow).0) == Removed(Abstract(lot), units, escrow)
  {
    hide AllocatedCost;
  }

  lemma RemovedTwice(b: Balance, x: nat, y: nat)
    ensures Removed(Removed(b, x, false), y, false) == Removed(b, x + y, false)
  {
  }

  lemma AcquisitionAdds(c: Core, f: Fact, k: LotKey, units: nat, cost: Option<nat>)
    requires k in c.lots
    ensures Abstract(Acquire(c, f, k, units, cost).core.LotAt(k))
            == Added(Abstract(c.lots[k]), units, cost.Some?, k.market in c.resolved && c.resolved[k.market] != k.outcome)
  {
  }

  lemma LotStepBalances(who: Address, c: Core, f: Fact)
    requires f.HasLot() && f.Key() in c.lots && MovesShares(f.kind)
    ensures var k := f.Key();
            Abstract(LotStep(who, c, f).core.LotAt(k))
            == BalanceNext(who, Abstract(c.lots[k]), f, k, k.market in c.resolved && c.resolved[k.market] != k.outcome)
  {
    hide DisposeLot, Acquire, Removed, Added;
    var k := f.Key();
    DisposalRemoves(c.lots[k], f.Units(), f.kind == ListingFilled && f.extra.escrowed);
    AcquisitionAdds(c, f, k, f.Units(), if f.kind == ShareTransfer then None else Some(f.Value()));
  }

  predicate ConsumedFrom(parts: seq<Part>, outcome: nat) { exists p :: p in parts && p.Part? && p.outcome == outcome }

  lemma {:induction false} NothingConsumed(parts: seq<Part>, outcome: nat)
    requires !ConsumedFrom(parts, outcome)
    ensures PartUnits(parts, outcome) == 0
  {
    if parts != [] { NothingConsumed(parts[..|parts| - 1], outcome); }
  }

  lemma OnePartRemoves(b: Burn, market: Address, part: Part, outcome: nat)
    ensures var k := LotKey(market, outcome);
            Abstract(BurnOne(b, market, part).core.LotAt(k))
            == if part.Part? && part.outcome == outcome then Removed(Abstract(b.core.LotAt(k)), part.units, false)
               else Abstract(b.core.LotAt(k))
  {
    hide DisposeLot, Removed;
    if part.Part? { DisposalRemoves(b.core.LotAt(LotKey(market, part.outcome)), part.units, false); }
  }

  lemma {:induction false} BurnRemoves(c: Core, market: Address, parts: seq<Part>, outcome: nat)
    ensures var k := LotKey(market, outcome);
            Abstract(BurnParts(c, market, parts).core.LotAt(k))
            == if ConsumedFrom(parts, outcome) then Removed(Abstract(c.LotAt(k)), PartUnits(parts, outcome), false)
               else Abstract(c.LotAt(k))
  {
    if parts != [] {
      hide BurnOne, Core.LotAt, Removed, BurnParts;
      var init, last := parts[..|parts| - 1], parts[|parts| - 1];
      assert parts == init + [last];
      BurnNext(c, market, init, last);
      BurnRemoves(c, market, init, outcome);
      OnePartRemoves(BurnParts(c, market, init), market, last, outcome);
      if ConsumedFrom(init, outcome) {
        RemovedTwice(Abstract(c.LotAt(LotKey(market, outcome))), PartUnits(init, outcome), if last.Part? then last.units else 0);
      } else {
        NothingConsumed(init, outcome);
      }
    } else {
      assert BurnParts(c, market, parts).core == c;
    }
  }

  lemma {:induction false} BurnElsewhere(c: Core, market: Address, parts: seq<Part>, k: LotKey)
    requires k.market != market
    ensures BurnParts(c, market, parts).core.LotAt(k) == c.LotAt(k)
  {
    if parts != [] {
      hide DisposeLot;
      BurnElsewhere(c, market, parts[..|parts| - 1], k);
    }
  }

  lemma SettleNext(c: Core, f: Fact, market: Address, winner: nat, n: nat)
    requires 0 < n <= |c.order| && forall k :: k in c.order ==> k in c.lots
    ensures var done, k := SettleLosers(c, f, market, winner, n - 1), c.order[n - 1];
            && k in c.lots && k in done.0.lots
            && SettleLosers(c, f, market, winner, n).0 == SettleOne(done.0, f, k, market, winner).0
            && SettleLosers(c, f, market, winner, n).1 == done.1 + SettleOne(done.0, f, k, market, winner).1
  {
    hide SettleOne;
  }

  lemma PrefixNext(order: seq<LotKey>, n: nat, k: LotKey)
    requires NoDuplicates(order) && 0 < n <= |order|
    ensures k in order[..n] <==> k in order[..n - 1] || k == order[n - 1]
    ensures order[n - 1] !in order[..n - 1]
  {
    assert order[..n] == order[..n - 1] + [order[n - 1]];
  }

  /** Settling the first n lots settles those of them that lose. */
  lemma {:induction false} SettlingBalances(c: Core, f: Fact, market: Address, winner: nat, n: nat, k: LotKey)
    requires c.Valid() && n <= |c.order|
    ensures SettleLosers(c, f, market, winner, n).0.LotAt(k)
            == if k in c.order[..n] && k in c.lots && LosesNow(c, k, market, winner) then Settled(c.LotAt(k)) else c.LotAt(k)
  {
    if n != 0 {
      hide Settled, LosesNow, SettleOne, SettleLosers, Core.LotAt, NoDuplicates;
      var last := c.order[n - 1];
      PrefixNext(c.order, n, k);
      SettlingBalances(c, f, market, winner, n - 1, k);
      SettlingBalances(c, f, market, winner, n - 1, last);
      SettleNext(c, f, market, winner, n);
      SettlingOne(SettleLosers(c, f, market, winner, n - 1).0, c, f, last, market, winner, k);
    }
  }

  lemma SettlingOne(done: Core, c: Core, f: Fact, last: LotKey, market: Address, winner: nat, k: LotKey)
    requires last in done.lots && last in c.lots && done.LotAt(last) == c.LotAt(last)
    ensures SettleOne(done, f, last, market, winner).0.LotAt(k)
            == if k == last && LosesNow(c, k, market, winner) then Settled(c.LotAt(k)) else done.LotAt(k)
  {
  }

  lemma ResolvingBalances(who: Address, c: Core, f: Fact, k: LotKey, lost: bool)
    requires c.Valid() && f.HasLot() && f.kind == MarketResolved
    ensures Abstract(Resolve(c, f).core.LotAt(k)) == BalanceNext(who, Abstract(c.LotAt(k)), f, k, lost)
  {
    hide SettleLosers;
    var announced := c.(resolved := c.resolved[f.market.value := f.outcome.value]);
    SettlingBalances(announced, f, f.market.value, f.outcome.value, |c.order|, k);
    assert c.order[..|c.order|] == c.order;
  }

  lemma Untouched(who: Address, b: Balance, f: Fact, k: LotKey, lost: bool)
    ensures !(MovesShares(f.kind) && f.HasLot() && k == f.Key()) && !(f.kind == MarketResolved && f.HasLot())
            && !(IsBurn(f.kind) && f.Mine(who) && f.market.Some?)
            ==> BalanceNext(who, b, f, k, lost) == b
  {
  }

  lemma BurnBalances(who: Address, c: Core, f: Fact, k: LotKey, lost: bool)
    requires IsBurn(f.kind) && f.Mine(who) && f.market.Some?
    ensures Abstract(BurnFact(c, f).core.LotAt(k)) == BalanceNext(who, Abstract(c.LotAt(k)), f, k, lost)
  {
    hide BurnParts, Removed;
    if k.market == f.market.value {
      BurnRemoves(c, k.market, Consumed(f), k.outcome);
    } else {
      BurnElsewhere(c, f.market.value, Consumed(f), k);
    }
  }

  lemma StepBalances(who: Address, before: Core, f: Fact, k: LotKey)
    requires before.Valid()
    ensures Abstract(Step(who, before, f).core.LotAt(k))
            == BalanceNext(who, Abstract(before.LotAt(k)), f, k,
                           k.market in before.resolved && before.resolved[k.market] != k.outcome)
  {
    MentionedLot(before, f, k);
    hide LotStep, BurnFact, Resolve, OtherStep, BalanceNext, Abstract, Mention, Core.LotAt, Core.Valid;
    var c := Mention(before, f);
    var lost := k.market in before.resolved && before.resolved[k.market] != k.outcome;
    Untouched(who, Abstract(c.LotAt(k)), f, k, lost);
    if MovesShares(f.kind) {
      if f.HasLot() {
        if k == f.Key() { LotStepBalances(who, c, f); } else { LotStepElsewhere(who, c, f, k); }
      }
    } else if f.kind == MarketResolved {
      if f.HasLot() { ResolvingBalances(who, c, f, k, lost); }
    } else if IsBurn(f.kind) {
      if f.Mine(who) && f.market.Some? { BurnBalances(who, c, f, k, lost); }
    } else {
      OtherStepConserves(who, c, f);
    }
  }

  // ---------------------------------------------------------------- histories

  lemma {:induction false} BurnKeepsResolved(c: Core, market: Address, parts: seq<Part>)
    ensures BurnParts(c, market, parts).core.resolved == c.resolved
  {
    if parts != [] {
      hide DisposeLot;
      BurnKeepsResolved(c, market, parts[..|parts| - 1]);
    }
  }

  lemma StepResolves(who: Address, before: Core, f: Fact)
    requires before.Valid()
    ensures Step(who, before, f).core.resolved
            == if f.kind == MarketResolved && f.HasLot() then before.resolved[f.market.value := f.outcome.value]
               else before.resolved
  {
    MentionedLot(before, f, LotKey(0, 0));
    hide LotStep, BurnFact, Resolve, OtherStep, Mention, Core.LotAt, Core.Valid;
    var c := Mention(before, f);
    if MovesShares(f.kind) {
      if f.HasLot() { LotStepRewritesOneLot(who, c, f); }
    } else if f.kind == MarketResolved {
      if f.HasLot() { AnnouncementIsKept(c, f); }
    } else if IsBurn(f.kind) {
      if f.Mine(who) && f.market.Some? { BurnFactKeepsResolved(c, f); }
    } else {
      OtherStepConserves(who, c, f);
    }
  }

  lemma AnnouncementIsKept(c: Core, f: Fact)
    requires c.Valid() && f.HasLot()
    ensures Resolve(c, f).core.resolved == c.resolved[f.market.value := f.outcome.value]
  {
    hide SettleLosers;
  }

  lemma BurnFactKeepsResolved(c: Core, f: Fact)
    requires f.market.Some?
    ensures BurnFact(c, f).core.resolved == c.resolved
  {
    hide BurnParts;
    BurnKeepsResolved(c, f.market.value, Consumed(f));
  }

  /** The reducer knows the outcome last announced for each market. */
  lemma {:induction false} ResolvedIsAnnounced(who: Address, facts: seq<Fact>, market: Address)
    ensures var resolved := Run(who, facts).core.resolved;
            Announced(facts, market) == if market in resolved then Some(resolved[market]) else None
  {
    if facts != [] {
      hide Step;
      ResolvedIsAnnounced(who, facts[..|facts| - 1], market);
      StepResolves(who, Run(who, facts[..|facts| - 1]).core, facts[|facts| - 1]);
    }
  }

  /** In every history, clamped or not, each lot is what the facts of its market make of it. */
  lemma {:induction false} LotsAreBalances(who: Address, facts: seq<Fact>, k: LotKey)
    ensures Abstract(Run(who, facts).core.LotAt(k)) == BalanceOf(who, facts, k)
  {
    if facts != [] {
      hide Step, BalanceNext, Abstract, Announced;
      var init := facts[..|facts| - 1];
      LotsAreBalances(who, init, k);
      ResolvedIsAnnounced(who, init, k.market);
      StepBalances(who, Run(who, init).core, facts[|facts| - 1], k);
    } else {
      assert Abstract(EMPTY_LOT) == NOTHING;
    }
  }

  // ---------------------------------------------------------------- resolutions

  /** The entry of a loss: nothing is paid for the whole cost of the lot. */
  function LossEntry(f: Fact, k: LotKey, lot: Lot): Entry {
    Entry(f.id, k.market, Some(k.outcome), f.kind, f.timestamp, 0, lot.cost, lot.complete,
          if lot.complete then None else Some(UnknownAcquisitionCost))
  }

  /** In a resolution, a lot of another outcome that holds shares loses, unless its loss is booked already. */
  predicate Loses(b: Balance, k: LotKey, f: Fact) {
    f.market == Some(k.market) && f.outcome.Some? && f.outcome.value != k.outcome && b.units > 0 && !b.settled
  }

  /** The n-th lot of a resolution is settled after the others, which leave it as it was. */
  lemma NextSettled(c: Core, f: Fact, n: nat)
    requires c.Valid() && f.HasLot() && 0 < n <= |c.order|
    ensures var k, market, winner := c.order[n - 1], f.market.value, f.outcome.value;
            SettleLosers(c, f, market, winner, n).1
            == SettleLosers(c, f, market, winner, n - 1).1
               + (if Loses(Abstract(c.LotAt(k)), k, f) then [LossEntry(f, k, c.LotAt(k))] else [])
  {
    hide Settled;
    assert c.order[n - 1] !in c.order[..n - 1];
    SettlingBalances(c, f, f.market.value, f.outcome.value, n - 1, c.order[n - 1]);
  }

  ghost predicate LossAmong(keys: seq<LotKey>, c: Core, f: Fact, e: Entry) {
    exists k :: k in keys && Loses(Abstract(c.LotAt(k)), k, f) && e == LossEntry(f, k, c.LotAt(k))
  }

  lemma LossAmongNext(init: seq<LotKey>, last: LotKey, c: Core, f: Fact, e: Entry)
    ensures LossAmong(init + [last], c, f, e)
            <==> LossAmong(init, c, f, e)
                 || (Loses(Abstract(c.LotAt(last)), last, f) && e == LossEntry(f, last, c.LotAt(last)))
  {
    hide Loses, LossEntry, Abstract, Core.LotAt;
    assert forall k :: k in init + [last] <==> k in init || k == last;
  }

  lemma {:induction false} SettlingBooks(c: Core, f: Fact, n: nat, e: Entry)
    requires c.Valid() && f.HasLot() && n <= |c.order|
    ensures e in SettleLosers(c, f, f.market.value, f.outcome.value, n).1 <==> LossAmong(c.order[..n], c, f, e)
  {
    if n != 0 {
      hide LossEntry, Loses, Abstract, SettleLosers, LossAmong, Core.LotAt, Core.Valid;
      SettlingBooks(c, f, n - 1, e);
      NextSettled(c, f, n);
      LossAmongNext(c.order[..n - 1], c.order[n - 1], c, f, e);
      assert c.order[..n] == c.order[..n - 1] + [c.order[n - 1]];
    } else {
      assert SettleLosers(c, f, f.market.value, f.outcome.value, 0).1 == [] && c.order[..0] == [];
    }
  }

  /** Every lot that loses is among those that the resolution goes through. */
  lemma AllLossesAreAmong(c: Core, f: Fact, e: Entry)
    requires c.Valid()
    ensures LossAmong(c.order, c, f, e)
            <==> exists k :: Loses(Abstract(c.LotAt(k)), k, f) && e == LossEntry(f, k, c.LotAt(k))
  {
    forall k | Loses(Abstract(c.LotAt(k)), k, f) ensures k in c.order {}
    hide LossEntry, Loses, Abstract, Core.LotAt, Core.Valid;
  }

  /** The same lots lose for the same cost in cores that hold the same. */
  lemma SameLosses(a: Core, b: Core, f: Fact, e: Entry)
    requires forall k :: a.LotAt(k) == b.LotAt(k)
    ensures (exists k :: Loses(Abstract(a.LotAt(k)), k, f) && e == LossEntry(f, k, a.LotAt(k)))
            <==> exists k :: Loses(Abstract(b.LotAt(k)), k, f) && e == LossEntry(f, k, b.LotAt(k))
  {
    hide LossEntry, Loses, Abstract, Core.LotAt;
  }

  lemma AnnouncingKeepsLots(core: Core, f: Fact)
    requires core.Valid() && f.HasLot()
    ensures var c := Mention(core, f);
            var announced := c.(resolved := c.resolved[f.market.value := f.outcome.value]);
            announced.Valid() && forall k :: announced.LotAt(k) == core.LotAt(k)
  {
    MentionedLot(core, f, f.Key());
    forall k { MentionedLot(core, f, k); }
    hide Mention;
  }

  lemma ResolutionBooks(who: Address, core: Core, f: Fact, e: Entry)
    requires core.Valid() && f.kind == MarketResolved && f.HasLot()
    ensures e in Step(who, core, f).bookings
            <==> exists k :: Loses(Abstract(core.LotAt(k)), k, f) && e == LossEntry(f, k, core.LotAt(k))
  {
    hide LossEntry, SettleLosers, Loses, LossAmong, Abstract, Mention, Core.LotAt, Core.Valid;
    var c := Mention(core, f);
    var announced := c.(resolved := c.resolved[f.market.value := f.outcome.value]);
    AnnouncingKeepsLots(core, f);
    SettlingBooks(announced, f, |announced.order|, e);
    assert announced.order[..|announced.order|] == announced.order;
    AllLossesAreAmong(announced, f, e);
    SameLosses(announced, core, f, e);
  }

  /** A resolution books the loss of each lot that loses, its whole cost, and nothing else. */
  lemma LossesAreBooked(who: Address, before: seq<Fact>, f: Fact, e: Entry)
    requires f.kind == MarketResolved && f.HasLot()
    ensures var c := Run(who, before).core;
            e in Step(who, c, f).bookings
            <==> exists k :: Loses(BalanceOf(who, before, k), k, f) && e == LossEntry(f, k, c.LotAt(k))
  {
    hide LossEntry, BalanceOf, Loses, Abstract, Step, Core.LotAt;
    var core := Run(who, before).core;
    forall k ensures Abstract(core.LotAt(k)) == BalanceOf(who, before, k) { LotsAreBalances(who, before, k); }
    ResolutionBooks(who, core, f, e);
    hide Run;
  }

  // ---------------------------------------------------------------- lost outcomes

  /** A lot whose loss is booked has no cost left. */
  predicate BookedOff(lot: Lot) { lot.lossSettled ==> lot.cost == 0 }

  lemma {:induction false} BurnKeepsBookedOff(c: Core, market: Address, parts: seq<Part>, k: LotKey)
    requires BookedOff(c.LotAt(k))
    ensures BookedOff(BurnParts(c, market, parts).core.LotAt(k))
  {
    if parts != [] { BurnKeepsBookedOff(c, market, parts[..|parts| - 1], k); }
  }

  lemma LotStepKeepsBookedOff(who: Address, c: Core, f: Fact)
    requires f.HasLot() && f.Key() in c.lots && MovesShares(f.kind) && BookedOff(c.lots[f.Key()])
    ensures BookedOff(LotStep(who, c, f).core.LotAt(f.Key()))
  {
    hide AllocatedCost;
  }

  lemma StepKeepsBookedOff(who: Address, before: Core, f: Fact, k: LotKey)
    requires before.Valid() && BookedOff(before.LotAt(k))
    ensures BookedOff(Step(who, before, f).core.LotAt(k))
  {
    MentionedLot(before, f, k);
    hide LotStep, OtherStep, SettleLosers, BookedOff, Mention, Core.LotAt, Core.Valid;
    var c := Mention(before, f);
    if MovesShares(f.kind) {
      if f.HasLot() {
        if k == f.Key() { LotStepKeepsBookedOff(who, c, f); } else { LotStepElsewhere(who, c, f, k); }
      }
    } else if f.kind == MarketResolved {
      if f.HasLot() { ResolvingKeepsBookedOff(c, f, k); }
    } else if IsBurn(f.kind) {
      if f.Mine(who) && f.market.Some? { BurnKeepsBookedOff(c, f.market.value, Consumed(f), k); }
    } else {
      OtherStepConserves(who, c, f);
    }
  }

  lemma ResolvingKeepsBookedOff(c: Core, f: Fact, k: LotKey)
    requires c.Valid() && f.HasLot() && BookedOff(c.LotAt(k))
    ensures BookedOff(Resolve(c, f).core.LotAt(k))
  {
    var announced := c.(resolved := c.resolved[f.market.value := f.outcome.value]);
    SettlingBalances(announced, f, f.market.value, f.outcome.value, |c.order|, k);
  }

  lemma {:induction false} LotsAreBookedOff(who: Address, facts: seq<Fact>, k: LotKey)
    ensures BookedOff(Run(who, facts).core.LotAt(k))
  {
    if facts != [] {
      hide Step, BookedOff;
      LotsAreBookedOff(who, facts[..|facts| - 1], k);
      StepKeepsBookedOff(who, Run(who, facts[..|facts| - 1]).core, facts[|facts| - 1], k);
    } else {
      assert BookedOff(EMPTY_LOT);
    }
  }

  lemma {:induction false} LostIsSettled(who: Address, facts: seq<Fact>, k: LotKey)
    ensures Lost(facts, k) && BalanceOf(who, facts, k).units > 0 ==> BalanceOf(who, facts, k).settled
  {
    if facts != [] {
      hide Lost;
      LostIsSettled(who, facts[..|facts| - 1], k);
      LostNext(facts, k);
    }
  }

  lemma LostNext(facts: seq<Fact>, k: LotKey)
    requires facts != []
    ensures var f := facts[|facts| - 1];
            Lost(facts, k) <==> if f.kind == MarketResolved && f.market == Some(k.market) && f.outcome.Some?
                                then f.outcome.value != k.outcome else Lost(facts[..|facts| - 1], k)
  {
  }

  /** Shares of a lost outcome never carry cost: it is charged as a loss when the outcome loses or the shares arrive. */
  lemma LostLotsHoldNoCost(who: Address, facts: seq<Fact>, k: LotKey)
    requires Lost(facts, k) && BalanceOf(who, facts, k).units > 0
    ensures Run(who, facts).core.LotAt(k).cost == 0
  {
    LotsAreBalances(who, facts, k);
    LostIsSettled(who, facts, k);
    LotsAreBookedOff(who, facts, k);
    hide Run, BalanceOf, Lost;
  }

  // ---------------------------------------------------------------- what a report shows

  ghost predicate ShowsOnce(lots: seq<LotView>, k: LotKey) {
    exists i :: 0 <= i < |lots| && lots[i].key == k && forall j :: 0 <= j < |lots| && j != i ==> lots[j].key != k
  }

  lemma {:induction false} FilterKeepsDistinct(keys: seq<LotKey>, keep: LotKey -> bool)
    requires NoDuplicates(keys)
    ensures NoDuplicates(Filter(keys, keep))
  {
    if keys != [] {
      var init := keys[..|keys| - 1];
      FilterKeepsDistinct(init, keep);
      FilterMembers(init, keep);
      assert keys[|keys| - 1] !in init;
    }
  }

  /** A report shows each lot of a selected market once if it holds shares, and no other, with its balance and cost. */
  lemma ReportShowsBalances(o: Options, facts: seq<Fact>, k: LotKey)
    ensures var lots, b := Report(o, facts).lots, BalanceOf(o.who, facts, k);
            && (if o.Relevant(Some(k.market)) && b.units > 0 then ShowsOnce(lots, k)
                else forall i :: 0 <= i < |lots| ==> lots[i].key != k)
            && forall i :: 0 <= i < |lots| && lots[i].key == k ==>
                 lots[i] == LotView(k, b.units, b.listed, Run(o.who, facts).core.LotAt(k).cost, b.known)
  {
    hide BooksAfter, Tallies, BalanceOf;
    LotsAreBalances(o.who, facts, k);
    var c := Run(o.who, facts).core;
    hide Run, HeldLots;
    HeldOnce(o, c, k);
    var keys, lots := HeldLots(o, c), Report(o, facts).lots;
    assert |lots| == |keys| && forall i :: 0 <= i < |keys| ==> lots[i].key == keys[i];
    if k in keys {
      var i :| 0 <= i < |keys| && keys[i] == k;
      assert lots[i].key == k;
    }
  }

  lemma HeldOnce(o: Options, c: Core, k: LotKey)
    requires c.Valid()
    ensures NoDuplicates(HeldLots(o, c))
    ensures k in HeldLots(o, c) <==> o.Relevant(Some(k.market)) && c.LotAt(k).units > 0
  {
    FilterKeepsDistinct(c.order, o.Selects);
    FilterKeepsDistinct(Filter(c.order, o.Selects), c.Holds);
    FilterMembers(c.order, o.Selects);
    FilterMembers(Filter(c.order, o.Selects), c.Holds);
  }
}
