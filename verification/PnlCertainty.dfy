/**
  When a report is complete: exactly when nothing in the history gives a reason for doubt, fact by fact,
  judged by the balances before it.
 */
module PnlCertainty {
  import opened Prelude
  import opened PnlModel
  import opened PnlReport
  import opened PnlConservation
  import opened PnlIncome
  import opened PnlCompleteness
  import opened PnlBalances

  // ---------------------------------------------------------------- what one fact has to satisfy

  /** The units are there: listed ones for a sale out of a listing, unlisted ones otherwise. */
  predicate Covers(b: Balance, units: nat, fromListed: bool) {
    units <= b.units && units <= if fromListed then b.listed else b.units - b.listed
  }

  predicate BurnCovered(who: Address, before: seq<Fact>, f: Fact, market: Address) {
    forall p :: p in Consumed(f) && p.Part? ==>
      var b := BalanceOf(who, before, LotKey(market, p.outcome));
      PartUnits(Consumed(f), p.outcome) <= b.units - b.listed
  }

  predicate BurnKnown(who: Address, before: seq<Fact>, f: Fact, market: Address) {
    AddsUp(f) && BurnCovered(who, before, f, market)
    && forall p :: p in Consumed(f) && p.Part? ==> BalanceOf(who, before, LotKey(market, p.outcome)).known
  }

  /** What the fact moves was there to move, and what a losing burn removes was charged before. */
  ghost predicate Moves(who: Address, before: seq<Fact>, f: Fact) {
    if f.kind == CoverageGap then f.owner != Some(who) && f.counterparty != Some(who)
    else if IsBurn(f.kind) then
      f.Mine(who) && f.market.Some? ==>
        && BurnCovered(who, before, f, f.market.value)
        && (f.kind == LosingBurned ==>
              BurnKnown(who, before, f, f.market.value) && Discarded(who, Run(who, before).core, f) == 0)
    else if !f.HasLot() then true
    else
      var b := BalanceOf(who, before, f.Key());
      if Gives(who, f) then Covers(b, f.Units(), f.kind == ListingFilled && f.extra.escrowed)
      else if !f.Mine(who) then true
      else if f.kind == ListingCreated then b.listed + f.Units() <= b.units
      else if IsUnlisting(f.kind) || (f.kind == ListingFilled && f.Other(who)) then f.Units() <= b.listed
      else true
  }

  /** What the fact realizes is known: its proceeds, and the cost of what it disposes of or loses. */
  ghost predicate Realizes(who: Address, before: seq<Fact>, f: Fact) {
    if f.market.None? then true
    else if f.kind == WinnerClaimed || f.kind == Refunded then f.Mine(who) ==> BurnKnown(who, before, f, f.market.value)
    else if f.outcome.None? then true
    else if f.kind == MarketResolved then
      forall k: LotKey :: k.market == f.market.value && k.outcome != f.outcome.value ==>
        var b := BalanceOf(who, before, k); b.units > 0 && !b.settled ==> b.known
    else
      var b := BalanceOf(who, before, f.Key());
      if f.kind == ListingFilled && f.Other(who) then
        f.extra.sellerProceeds.Some? && (f.Mine(who) || (b.known && Covers(b, f.Units(), f.extra.escrowed)))
      else if ReceivesTransfer(who, f) then !Lost(before, f.Key())
      else if f.kind != ShareTransfer && Receives(who, f) then Lost(before, f.Key()) ==> b.known
      else true
  }

  /** Gaps count in every selected market, realizations only inside the window too. */
  ghost predicate Certain(o: Options, before: seq<Fact>, f: Fact) {
    && (o.Relevant(f.market) ==> Moves(o.who, before, f))
    && (Shown(o, f) ==> Realizes(o.who, before, f))
  }

  // ---------------------------------------------------------------- a core that agrees with the balances

  ghost predicate Reflects(c: Core, who: Address, before: seq<Fact>) {
    && c.Valid()
    && (forall k :: Abstract(c.LotAt(k)) == BalanceOf(who, before, k))
    && (forall k: LotKey :: Lost(before, k) <==> k.market in c.resolved && c.resolved[k.market] != k.outcome)
  }

  lemma RunReflects(who: Address, before: seq<Fact>)
    ensures Reflects(Run(who, before).core, who, before)
  {
    forall k { LotsAreBalances(who, before, k); }
    forall k: LotKey { ResolvedIsAnnounced(who, before, k.market); }
    hide Run, BalanceOf, Announced, Abstract;
  }

  lemma MentionReflects(c: Core, f: Fact, who: Address, before: seq<Fact>)
    requires Reflects(c, who, before)
    ensures Reflects(Mention(c, f), who, before)
  {
    hide BalanceOf, Lost;
    forall k { MentionedLot(c, f, k); }
    hide Mention, Abstract, Core.LotAt, Core.Valid;
    assert Mention(c, f).Valid() && Mention(c, f).resolved == c.resolved by { MentionedLot(c, f, LotKey(0, 0)); }
  }

  // ---------------------------------------------------------------- single lots

  lemma DisposalCovers(lot: Lot, units: nat, escrow: bool)
    ensures var d := DisposeLot(lot, units, escrow).1;
            && (DisposalGaps(d) == [] <==> Covers(Abstract(lot), units, escrow))
            && (d.complete <==> Covers(Abstract(lot), units, escrow) && lot.complete)
  {
    hide AllocatedCost;
  }

  lemma LotStepMoves(who: Address, c: Core, f: Fact, before: seq<Fact>)
    requires f.HasLot() && f.Key() in c.lots && MovesShares(f.kind) && Reflects(c, who, before)
    ensures LotStep(who, c, f).gaps == [] <==> Moves(who, before, f)
  {
    hide DisposeLot, BalanceOf, Acquire;
    DisposalCovers(c.lots[f.Key()], f.Units(), f.kind == ListingFilled && f.extra.escrowed);
    assert Abstract(c.LotAt(f.Key())) == BalanceOf(who, before, f.Key());
    assert forall cost :: Acquire(c, f, f.Key(), f.Units(), cost).gaps == [] by {
      forall cost { AcquiringHasNoGap(c, f, f.Key(), f.Units(), cost); }
    }
    hide Reflects, Covers;
  }

  lemma AcquiringHasNoGap(c: Core, f: Fact, k: LotKey, units: nat, cost: Option<nat>)
    requires k in c.lots
    ensures Acquire(c, f, k, units, cost).gaps == []
  {
  }

  ghost predicate AllComplete(es: seq<Entry>) { forall e :: e in es ==> e.complete }

  lemma BookingIsComplete(f: Fact, outcome: Option<nat>, proceeds: nat, d: Disposal)
    ensures AllComplete(Booking(f, outcome, proceeds, d)) <==> f.market.None? || d.complete
  {
    var es := Booking(f, outcome, proceeds, d);
    if es != [] { assert es[0] in es; }
  }

  lemma AcquiringRealizes(c: Core, f: Fact, k: LotKey, units: nat, cost: Option<nat>)
    requires k in c.lots && f.market.Some?
    ensures AllComplete(Acquire(c, f, k, units, cost).bookings)
            <==> (k.market in c.resolved && c.resolved[k.market] != k.outcome ==> c.lots[k].complete && cost.Some?)
  {
    hide Booking, AllComplete;
    var lot := c.lots[k];
    BookingIsComplete(f, Some(k.outcome), 0,
                      LossOf(Lot(lot.units + units, lot.escrow, lot.cost + cost.GetOr(0), lot.complete && cost.Some?, false)));
    NothingIsComplete();
  }

  lemma NothingIsComplete()
    ensures AllComplete([])
  {
  }

  lemma LotStepRealizes(who: Address, c: Core, f: Fact, before: seq<Fact>)
    requires f.HasLot() && f.Key() in c.lots && MovesShares(f.kind) && Reflects(c, who, before)
    ensures AllComplete(LotStep(who, c, f).bookings) <==> Realizes(who, before, f)
  {
    hide DisposeLot, BalanceOf, Acquire, Lost, AllComplete, Booking;
    var k, proceeds := f.Key(), f.extra.sellerProceeds;
    DisposalCovers(c.lots[k], f.Units(), f.extra.escrowed);
    assert Abstract(c.LotAt(k)) == BalanceOf(who, before, k);
    AcquiringRealizes(c, f, k, f.Units(), if f.kind == ShareTransfer then None else Some(f.Value()));
    var d := DisposeLot(c.lots[k], f.Units(), f.extra.escrowed).1;
    var reason := if proceeds.None? then Some(SellerNetMissing) else d.reason;
    BookingIsComplete(f, f.outcome, proceeds.GetOr(0), Disposal(d.cost, d.complete && proceeds.Some?, reason));
    BookingIsComplete(f, f.outcome, proceeds.GetOr(0),
                      Disposal(f.Value(), proceeds.Some?, if proceeds.None? then Some(SellerNetMissing) else None));
    NothingIsComplete();
    hide Covers;
  }

  // ---------------------------------------------------------------- burns

  predicate AllKnown(c: Core, market: Address, parts: seq<Part>) {
    forall p :: p in parts && p.Part? ==> c.LotAt(LotKey(market, p.outcome)).complete
  }

  lemma OnePartIsKnown(b: Burn, market: Address, part: Part)
    ensures var next, lot := BurnOne(b, market, part), b.core.LotAt(LotKey(market, if part.Part? then part.outcome else 0));
            && (next.gaps == [] <==> b.gaps == [] && (part.Part? ==> Covers(Abstract(lot), part.units, false)))
            && (next.sum.complete
                <==> b.sum.complete && part.Part? && Covers(Abstract(lot), part.units, false) && lot.complete)
  {
    hide DisposeLot;
    if part.Part? { DisposalCovers(b.core.LotAt(LotKey(market, part.outcome)), part.units, false); }
  }

  /** Burning parts of known lots makes no lot known or unknown. */
  lemma PartStaysKnown(c: Core, market: Address, init: seq<Part>, outcome: nat)
    requires AllKnown(c, market, init)
    ensures var k := LotKey(market, outcome);
            BurnParts(c, market, init).core.LotAt(k).complete <==> c.LotAt(k).complete
  {
    hide BurnParts;
    BurnRemoves(c, market, init, outcome);
  }

  lemma LastIsKnown(c: Core, market: Address, init: seq<Part>, last: Part)
    ensures AllKnown(c, market, init + [last])
            <==> AllKnown(c, market, init) && (last.Part? ==> c.LotAt(LotKey(market, last.outcome)).complete)
    ensures WellFormedParts(init + [last]) <==> WellFormedParts(init) && last.Part?
  {
    hide Core.LotAt;
    assert forall p: Part :: p in init + [last] <==> p in init || p == last;
  }

  /** A burn's cost is known exactly if its parts are well-formed, overdraw nothing and come from lots of known cost. */
  lemma {:induction false} BurnIsKnown(c: Core, market: Address, parts: seq<Part>)
    ensures var b := BurnParts(c, market, parts);
            b.sum.complete <==> b.gaps == [] && WellFormedParts(parts) && AllKnown(c, market, parts)
  {
    if parts != [] {
      hide BurnOne, BurnParts, Core.LotAt, Covers, WellFormedParts, AllKnown;
      var init, last := parts[..|parts| - 1], parts[|parts| - 1];
      assert parts == init + [last];
      BurnNext(c, market, init, last);
      BurnIsKnown(c, market, init);
      OnePartIsKnown(BurnParts(c, market, init), market, last);
      if AllKnown(c, market, init) && last.Part? { PartStaysKnown(c, market, init, last.outcome); }
      LastIsKnown(c, market, init, last);
    }
  }

  lemma LotReflects(who: Address, c: Core, before: seq<Fact>, k: LotKey)
    requires Reflects(c, who, before)
    ensures FreeIn(c, k.market, k.outcome) == BalanceOf(who, before, k).units - BalanceOf(who, before, k).listed
    ensures c.LotAt(k).complete == BalanceOf(who, before, k).known
  {
    hide BalanceOf;
    assert Abstract(c.LotAt(k)) == BalanceOf(who, before, k);
  }

  lemma CoveredUnlessOverdrawn(who: Address, c: Core, f: Fact, before: seq<Fact>, market: Address)
    requires Reflects(c, who, before)
    ensures BurnCovered(who, before, f, market) <==> !Overdraws(c, market, Consumed(f))
    ensures (forall p :: p in Consumed(f) && p.Part? ==> BalanceOf(who, before, LotKey(market, p.outcome)).known)
            <==> AllKnown(c, market, Consumed(f))
  {
    hide BalanceOf, Consumed, PartUnits, Reflects, FreeIn, Core.LotAt;
    forall k: LotKey { LotReflects(who, c, before, k); }
  }

  lemma BurnReflects(who: Address, c: Core, f: Fact, before: seq<Fact>)
    requires f.market.Some? && Reflects(c, who, before)
    ensures BurnCovered(who, before, f, f.market.value) <==> BurnParts(c, f.market.value, Consumed(f)).gaps == []
    ensures BurnKnown(who, before, f, f.market.value)
            <==> BurnTotal(BurnParts(c, f.market.value, Consumed(f)).sum, f).complete
  {
    hide BurnParts, BalanceOf, Consumed, BurnCovered, WellFormedParts, Reflects, Overdraws, AllKnown;
    var market, parts := f.market.value, Consumed(f);
    GapsAreOverdraws(c, market, parts);
    BurnIsKnown(c, market, parts);
    BurnSumsParts(c, market, parts);
    CoveredUnlessOverdrawn(who, c, f, before, market);
  }

  lemma BurnFactIsCertain(who: Address, c: Core, f: Fact, before: seq<Fact>)
    requires IsBurn(f.kind) && f.Mine(who) && f.market.Some? && Reflects(c, who, before)
    requires c == Mention(Run(who, before).core, f)
    ensures BurnFact(c, f).gaps == [] <==> Moves(who, before, f)
    ensures AllComplete(BurnFact(c, f).bookings) <==> Realizes(who, before, f)
  {
    hide BurnParts, BurnCovered, BurnKnown, BurnTotal, Booking, AllComplete, Reflects, Mention;
    BurnReflects(who, c, f, before);
    var sum := BurnParts(c, f.market.value, Consumed(f)).sum;
    BookingIsComplete(f, f.outcome, f.Value(), BurnTotal(sum, f));
    NothingIsComplete();
    assert BurnTotal(sum, f).cost == sum.cost by { BurnTotalKeepsCost(sum, f); }
  }

  lemma BurnTotalKeepsCost(s: BurnSum, f: Fact)
    ensures BurnTotal(s, f).cost == s.cost
  {
  }

  // ---------------------------------------------------------------- resolutions

  predicate Doubtful(c: Core, k: LotKey, market: Address, winner: nat) {
    k in c.lots && LosesNow(c, k, market, winner) && !c.lots[k].complete
  }

  predicate LossesKnown(c: Core, market: Address, winner: nat, n: nat)
    requires n <= |c.order|
  {
    n == 0 || (LossesKnown(c, market, winner, n - 1) && !Doubtful(c, c.order[n - 1], market, winner))
  }

  lemma {:induction false} AllLossesKnown(c: Core, market: Address, winner: nat, n: nat)
    requires n <= |c.order|
    ensures LossesKnown(c, market, winner, n) <==> forall k :: k in c.order[..n] ==> !Doubtful(c, k, market, winner)
  {
    if n != 0 {
      hide Doubtful;
      AllLossesKnown(c, market, winner, n - 1);
      assert c.order[..n] == c.order[..n - 1] + [c.order[n - 1]];
    }
  }

  /** Settling the first n lots books a doubtful loss exactly if one of them is of unknown cost. */
  lemma {:induction false} SettlingRealizes(c: Core, f: Fact, market: Address, winner: nat, n: nat)
    requires c.Valid() && n <= |c.order| && f.market.Some?
    ensures AllComplete(SettleLosers(c, f, market, winner, n).1) <==> LossesKnown(c, market, winner, n)
  {
    if n == 0 {
      NothingIsComplete();
    } else {
      hide AllComplete, SettleOne, Doubtful, Settled, LosesNow, SettleLosers;
      SettlingRealizes(c, f, market, winner, n - 1);
      var done, k := SettleLosers(c, f, market, winner, n - 1).0, c.order[n - 1];
      NextLoss(c, f, market, winner, n);
      OneLossRealizes(c, done, f, k, market, winner);
      CompleteAppend(SettleLosers(c, f, market, winner, n - 1).1, SettleOne(done, f, k, market, winner).1);
    }
  }

  /** The n-th lot is settled after the others, which leave it as it was. */
  lemma NextLoss(c: Core, f: Fact, market: Address, winner: nat, n: nat)
    requires c.Valid() && 0 < n <= |c.order|
    ensures var (done, booked) := SettleLosers(c, f, market, winner, n - 1);
            && var k := c.order[n - 1];
               && k in c.lots && k in done.lots && done.lots[k] == c.lots[k]
               && SettleLosers(c, f, market, winner, n).1 == booked + SettleOne(done, f, k, market, winner).1
  {
    hide SettleOne, LosesNow, Settled;
    assert c.order[n - 1] !in c.order[..n - 1];
    SettlingBalances(c, f, market, winner, n - 1, c.order[n - 1]);
  }

  lemma OneLossRealizes(c: Core, done: Core, f: Fact, k: LotKey, market: Address, winner: nat)
    requires k in c.lots && k in done.lots && c.lots[k] == done.lots[k] && f.market.Some?
    ensures AllComplete(SettleOne(done, f, k, market, winner).1) <==> !Doubtful(c, k, market, winner)
  {
    hide AllComplete, Booking;
    BookingIsComplete(f, Some(k.outcome), 0, LossOf(c.lots[k]));
    NothingIsComplete();
  }

  lemma CompleteAppend(a: seq<Entry>, b: seq<Entry>)
    ensures AllComplete(a + b) <==> AllComplete(a) && AllComplete(b)
  {
    assert forall e :: e in a + b <==> e in a || e in b;
  }

  lemma ResolutionRealizes(who: Address, c: Core, f: Fact, before: seq<Fact>)
    requires f.kind == MarketResolved && f.HasLot() && Reflects(c, who, before)
    ensures AllComplete(Resolve(c, f).bookings) <==> Realizes(who, before, f)
  {
    hide BalanceOf, SettleLosers, AllComplete, Lost;
    var market, winner := f.market.value, f.outcome.value;
    var announced := c.(resolved := c.resolved[market := winner]);
    SettlingRealizes(announced, f, market, winner, |announced.order|);
    AllLossesKnown(announced, market, winner, |announced.order|);
    assert announced.order[..|announced.order|] == announced.order;
    forall k: LotKey
      ensures Abstract(c.LotAt(k)) == BalanceOf(who, before, k)
      ensures k in c.lots ==> k in c.order
    {
    }
    forall k: LotKey
      ensures Doubtful(announced, k, market, winner)
              <==> k.market == market && k.outcome != winner && var b := BalanceOf(who, before, k);
                   b.units > 0 && !b.settled && !b.known
      ensures Doubtful(announced, k, market, winner) ==> k in c.order
    {
    }
    hide Doubtful, Reflects, Abstract;
  }

  // ---------------------------------------------------------------- one fact

  lemma OtherIsCertain(who: Address, c: Core, f: Fact, before: seq<Fact>)
    requires !MovesShares(f.kind) && f.kind != MarketResolved && !IsBurn(f.kind)
    ensures OtherStep(who, c, f).gaps == [] <==> Moves(who, before, f)
    ensures AllComplete(OtherStep(who, c, f).bookings) && Realizes(who, before, f)
  {
    hide BalanceOf;
  }

  /** Without a lot, a share movement or a resolution moves and realizes nothing. */
  lemma LotlessIsCertain(who: Address, f: Fact, before: seq<Fact>)
    requires !f.HasLot() && (MovesShares(f.kind) || f.kind == MarketResolved)
    ensures Moves(who, before, f) && Realizes(who, before, f)
  {
  }

  lemma ForeignBurnIsCertain(who: Address, f: Fact, before: seq<Fact>)
    requires IsBurn(f.kind) && !(f.Mine(who) && f.market.Some?)
    ensures Moves(who, before, f) && Realizes(who, before, f)
  {
  }

  lemma ResolutionMovesNothing(who: Address, f: Fact, before: seq<Fact>)
    requires f.kind == MarketResolved
    ensures Moves(who, before, f)
  {
    hide BalanceOf;
  }

  /** A fact notes a gap exactly if it moves what is not there, and books a doubt exactly if its result is not known. */
  lemma StepIsCertain(who: Address, before: seq<Fact>, f: Fact)
    ensures var out := Step(who, Run(who, before).core, f);
            && (out.gaps == [] <==> Moves(who, before, f))
            && (AllComplete(out.bookings) <==> Realizes(who, before, f))
  {
    RunReflects(who, before);
    var core := Run(who, before).core;
    MentionReflects(core, f, who, before);
    MentionedLot(core, f, LotKey(0, 0));
    hide Run, LotStep, BurnFact, Resolve, OtherStep, Mention, Moves, Realizes, Reflects, AllComplete, Core.LotAt, Core.Valid;
    var c := Mention(core, f);
    NothingIsComplete();
    if MovesShares(f.kind) {
      if f.HasLot() {
        LotStepMoves(who, c, f, before);
        LotStepRealizes(who, c, f, before);
      } else {
        LotlessIsCertain(who, f, before);
      }
    } else if f.kind == MarketResolved {
      ResolutionMovesNothing(who, f, before);
      if f.HasLot() {
        ResolutionRealizes(who, c, f, before);
        ResolutionHasNoGap(c, f);
      } else {
        LotlessIsCertain(who, f, before);
      }
    } else if IsBurn(f.kind) {
      if f.Mine(who) && f.market.Some? {
        BurnFactIsCertain(who, c, f, before);
      } else {
        ForeignBurnIsCertain(who, f, before);
      }
    } else {
      OtherIsCertain(who, c, f, before);
    }
  }

  lemma ResolutionHasNoGap(c: Core, f: Fact)
    requires c.Valid() && f.HasLot()
    ensures Resolve(c, f).gaps == []
  {
  }

  // ---------------------------------------------------------------- which doubt it is

  /** The gap that a fact notes, by its code. */
  ghost predicate Names(who: Address, before: seq<Fact>, f: Fact, g: Code) {
    match g
    case EventGap(text) =>
      f.kind == CoverageGap && (f.owner == Some(who) || f.counterparty == Some(who))
      && text == f.extra.gapReason.GetOr("event_gap")
    case EscrowBalanceGap => f.HasLot() && !IsBurn(f.kind) && f.kind != CoverageGap && !Gives(who, f) && !Moves(who, before, f)
    case ShareBalanceGap =>
      || (f.HasLot() && Gives(who, f) && !Moves(who, before, f))
      || (IsBurn(f.kind) && f.Mine(who) && f.market.Some? && !BurnCovered(who, before, f, f.market.value))
    case TerminalLossHistoryMissing =>
      f.kind == LosingBurned && f.Mine(who) && f.market.Some?
      && !(BurnKnown(who, before, f, f.market.value) && Discarded(who, Run(who, before).core, f) == 0)
    case _ => false
  }

  lemma LotStepNames(who: Address, c: Core, f: Fact, before: seq<Fact>)
    requires f.HasLot() && f.Key() in c.lots && MovesShares(f.kind) && Reflects(c, who, before)
    ensures LotStep(who, c, f).gaps
            == if Moves(who, before, f) then [] else [if Gives(who, f) then ShareBalanceGap else EscrowBalanceGap]
  {
    LotStepMoves(who, c, f, before);
    hide DisposeLot, Acquire, Moves;
    forall cost { AcquiringHasNoGap(c, f, f.Key(), f.Units(), cost); }
  }

  lemma {:induction false} PartGaps(c: Core, market: Address, parts: seq<Part>)
    ensures forall g :: g in BurnParts(c, market, parts).gaps ==> g == ShareBalanceGap
  {
    if parts != [] {
      hide DisposeLot;
      PartGaps(c, market, parts[..|parts| - 1]);
    }
  }

  lemma BurnNames(who: Address, c: Core, f: Fact, before: seq<Fact>)
    requires IsBurn(f.kind) && f.Mine(who) && f.market.Some? && Reflects(c, who, before)
    requires c == Mention(Run(who, before).core, f)
    ensures forall g :: g in BurnFact(c, f).gaps <==> Names(who, before, f, g)
  {
    var b := BurnParts(c, f.market.value, Consumed(f));
    PartGaps(c, f.market.value, Consumed(f));
    BurnReflects(who, c, f, before);
    BurnTotalKeepsCost(b.sum, f);
    if b.gaps != [] { assert b.gaps[0] in b.gaps; }
    hide BurnParts, BurnCovered, BurnKnown, BurnTotal, Reflects, Mention, Run;
  }

  /** The gaps that a fact notes are exactly those that it names. */
  lemma GapsAreNamed(who: Address, before: seq<Fact>, f: Fact, g: Code)
    ensures g in Step(who, Run(who, before).core, f).gaps <==> Names(who, before, f, g)
  {
    RunReflects(who, before);
    var core := Run(who, before).core;
    MentionReflects(core, f, who, before);
    MentionedLot(core, f, LotKey(0, 0));
    hide Run, LotStep, BurnFact, Resolve, OtherStep, Mention, Reflects, Core.LotAt, Core.Valid, Names;
    var c := Mention(core, f);
    if MovesShares(f.kind) {
      if f.HasLot() { LotGapsAreNamed(who, c, f, before, g); } else { NothingToName(who, before, f, g); }
    } else if f.kind == MarketResolved {
      NothingToName(who, before, f, g);
      if f.HasLot() { ResolutionHasNoGap(c, f); }
    } else if IsBurn(f.kind) {
      if f.Mine(who) && f.market.Some? { BurnNames(who, c, f, before); } else { NothingToName(who, before, f, g); }
    } else {
      OtherGapsAreNamed(who, c, f, before, g);
    }
  }

  lemma LotGapsAreNamed(who: Address, c: Core, f: Fact, before: seq<Fact>, g: Code)
    requires f.HasLot() && f.Key() in c.lots && MovesShares(f.kind) && Reflects(c, who, before)
    ensures g in LotStep(who, c, f).gaps <==> Names(who, before, f, g)
  {
    LotStepNames(who, c, f, before);
    hide LotStep, Moves, Reflects;
  }

  lemma NothingToName(who: Address, before: seq<Fact>, f: Fact, g: Code)
    requires (MovesShares(f.kind) && !f.HasLot()) || f.kind == MarketResolved
             || (IsBurn(f.kind) && !(f.Mine(who) && f.market.Some?))
    ensures !Names(who, before, f, g)
  {
    if f.kind == MarketResolved { ResolutionMovesNothing(who, f, before); }
    hide Moves;
  }

  lemma OtherGapsAreNamed(who: Address, c: Core, f: Fact, before: seq<Fact>, g: Code)
    requires !MovesShares(f.kind) && f.kind != MarketResolved && !IsBurn(f.kind)
    ensures g in OtherStep(who, c, f).gaps <==> Names(who, before, f, g)
  {
    if f.kind != CoverageGap { OtherMovesExactly(who, before, f); }
    hide Moves;
  }

  lemma OtherMovesExactly(who: Address, before: seq<Fact>, f: Fact)
    requires !MovesShares(f.kind) && f.kind != MarketResolved && !IsBurn(f.kind) && f.kind != CoverageGap
    ensures Moves(who, before, f)
  {
    hide BalanceOf;
  }

  /** A doubtful sale names the first of its doubts: no net price, shares that were not there, cost that was not known. */
  lemma DoubtfulSaleIsNamed(who: Address, before: seq<Fact>, f: Fact, e: Entry)
    requires f.kind == ListingFilled && f.HasLot() && f.Other(who) && e in Step(who, Run(who, before).core, f).bookings
    ensures var b := BalanceOf(who, before, f.Key());
            e.reason == if f.extra.sellerProceeds.None? then Some(SellerNetMissing)
                        else if f.Mine(who) then None
                        else if !Covers(b, f.Units(), f.extra.escrowed) then Some(ShareBalanceGap)
                        else if !b.known then Some(UnknownAcquisitionCost) else None
  {
    LotsAreBalances(who, before, f.Key());
    var core := Run(who, before).core;
    MentionedLot(core, f, f.Key());
    DisposalCovers(core.LotAt(f.Key()), f.Units(), f.extra.escrowed);
    hide Run, BalanceOf, Mention;
  }

  // ---------------------------------------------------------------- reports

  lemma {:induction false} PostsClean(o: Options, b: Books, f: Fact, es: seq<Entry>)
    requires AllFrom(es, f)
    ensures Post(o, b, es).reasons == {} <==> b.reasons == {} && (Shown(o, f) ==> AllComplete(es))
  {
    if es == [] {
    } else {
      var init, last := es[..|es| - 1], es[|es| - 1];
      assert es == init + [last];
      PostsClean(o, b, f, init);
      CompleteAppend(init, [last]);
      assert AllComplete([last]) <==> last.complete by { assert last in [last]; }
      assert o.Reports(last) <==> Shown(o, f) by { assert From(last, f); }
      hide AllComplete, Shown;
    }
  }

  lemma NotesClean(o: Options, b: Books, f: Fact, gaps: seq<Code>)
    ensures Note(o, b, f, gaps).reasons == {} <==> b.reasons == {} && (o.Relevant(f.market) ==> gaps == [])
  {
    NoteRemembers(o, b, f, gaps);
    if !o.Relevant(f.market) { NotesNothing(o, b, f, gaps); }
  }

  lemma {:induction false} NotesNothing(o: Options, b: Books, f: Fact, gaps: seq<Code>)
    requires !o.Relevant(f.market)
    ensures Note(o, b, f, gaps) == b
  {
    if gaps != [] { NotesNothing(o, b, f, gaps[..|gaps| - 1]); }
  }

  lemma AbsorbsClean(o: Options, b: Books, before: seq<Fact>, f: Fact)
    ensures Absorb(o, b, f, Step(o.who, Run(o.who, before).core, f)).reasons == {} <==> b.reasons == {} && Certain(o, before, f)
  {
    hide Step, Moves, Realizes, Shown, AllComplete, Note, Post, AllFrom;
    var out := Step(o.who, Run(o.who, before).core, f);
    StepIsCertain(o.who, before, f);
    StepPays(o.who, Run(o.who, before).core, f);
    NotesClean(o, b, f, out.gaps);
    PostsClean(o, Note(o, b, f, out.gaps), f, out.bookings);
    hide Run;
  }

  /** The books are clean exactly if coverage is complete and every fact so far was certain. */
  lemma {:induction false} BooksAreClean(o: Options, facts: seq<Fact>)
    ensures BooksAfter(o, facts).reasons == {}
            <==> o.coverageComplete && forall n :: 0 <= n < |facts| ==> Certain(o, facts[..n], facts[n])
  {
    hide Step, Run, Absorb, Certain;
    if facts != [] {
      var init := facts[..|facts| - 1];
      BooksAreClean(o, init);
      AbsorbsClean(o, BooksAfter(o, init), init, facts[|facts| - 1]);
      forall n | 0 <= n < |init| ensures init[..n] == facts[..n] {}
    }
  }

  lemma {:induction false} LotReasonsAre(c: Core, keys: seq<LotKey>)
    ensures LotReasons(c, keys) == {} <==> forall k :: k in keys ==> c.LotAt(k).complete
  {
    if keys != [] {
      var init, k := keys[..|keys| - 1], keys[|keys| - 1];
      assert keys == init + [k];
      LotReasonsAre(c, init);
      if !c.LotAt(k).complete { assert Missing(UnknownAcquisitionCost, Some(k.market)) in LotReasons(c, keys); }
    }
  }

  /**
    A report is complete exactly if coverage is, every fact moved what was there and realized what was known, and
    the cost of everything still held is known.
   */
  lemma CompleteExactly(o: Options, facts: seq<Fact>)
    ensures Report(o, facts).complete
            <==> && o.coverageComplete
                 && (forall n :: 0 <= n < |facts| ==> Certain(o, facts[..n], facts[n]))
                 && (forall k: LotKey :: o.Relevant(Some(k.market)) && BalanceOf(o.who, facts, k).units > 0 ==>
                       BalanceOf(o.who, facts, k).known)
  {
    hide BooksAfter, Tallies, BalanceOf, Certain;
    BooksAreClean(o, facts);
    var c := Run(o.who, facts).core;
    LotReasonsAre(c, HeldLots(o, c));
    forall k: LotKey
      ensures k in HeldLots(o, c) <==> o.Relevant(Some(k.market)) && BalanceOf(o.who, facts, k).units > 0
      ensures c.LotAt(k).complete == BalanceOf(o.who, facts, k).known
    {
      HeldOnce(o, c, k);
      LotsAreBalances(o.who, facts, k);
    }
    hide Run, HeldLots, LotReasons;
  }
}
