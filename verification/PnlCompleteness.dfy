/**
  What a report that calls itself complete guarantees: its balances are the exact sums of
  the recorded movements, nothing was clamped on the way, and its net result is exact.
 */
module PnlCompleteness {
  import opened Prelude
  import opened PnlModel
  import opened PnlReport
  import opened PnlConservation
  import opened PnlIncome

  // ---------------------------------------------------------------- the exact ledger

  function PartUnits(parts: seq<Part>, outcome: nat): nat {
    if parts == [] then 0
    else
      var last := parts[|parts| - 1];
      PartUnits(parts[..|parts| - 1], outcome) +
      (if last.Part? && last.outcome == outcome then last.units else 0)
  }

  predicate Receives(who: Address, f: Fact) {
    f.Mine(who) && (f.kind == PrimaryBuy || ((f.kind == ListingFilled || f.kind == ShareTransfer) && !f.Other(who)))
  }

  predicate Gives(who: Address, f: Fact) {
    || (f.kind == ListingFilled && f.Other(who) && !f.Mine(who))
    || (f.kind == ShareTransfer && f.Mine(who) && !f.Other(who))
  }

  predicate ReceivesTransfer(who: Address, f: Fact) {
    f.kind == ShareTransfer && f.Other(who) && !f.Mine(who)
  }

  /** Signed change of the balance of lot k, with no clamping and no state. */
  function UnitsDelta(who: Address, f: Fact, k: LotKey): int {
    if f.market != Some(k.market) then 0
    else if IsBurn(f.kind) then (if f.Mine(who) then 0 - PartUnits(Consumed(f), k.outcome) else 0)
    else if f.outcome != Some(k.outcome) then 0
    else if Gives(who, f) then 0 - f.Units()
    else if ReceivesTransfer(who, f) then f.Units()
    else if f.kind != ShareTransfer && Receives(who, f) then f.Units()
    else 0
  }

  /** Signed change of the listed part of lot k. */
  function EscrowDelta(who: Address, f: Fact, k: LotKey): int {
    if f.market != Some(k.market) || f.outcome != Some(k.outcome) then 0
    else if f.kind == ListingCreated && f.Mine(who) then f.Units()
    else if IsUnlisting(f.kind) && f.Mine(who) then 0 - f.Units()
    else if f.kind == ListingFilled && f.Other(who) && (f.Mine(who) || f.extra.escrowed) then 0 - f.Units()
    else 0
  }

  function ExactUnits(who: Address, facts: seq<Fact>, k: LotKey): int {
    if facts == [] then 0
    else ExactUnits(who, facts[..|facts| - 1], k) + UnitsDelta(who, facts[|facts| - 1], k)
  }

  function ExactEscrow(who: Address, facts: seq<Fact>, k: LotKey): int {
    if facts == [] then 0
    else ExactEscrow(who, facts[..|facts| - 1], k) + EscrowDelta(who, facts[|facts| - 1], k)
  }

  // ---------------------------------------------------------------- one fact without balance gaps

  predicate Balanced(gaps: seq<Code>) { ShareBalanceGap !in gaps && EscrowBalanceGap !in gaps }

  /** Lot b is lot a after exact movements, and its listed part is covered. */
  predicate Moved(a: Lot, b: Lot, units: int, escrow: int) {
    b.units == a.units + units && b.escrow == a.escrow + escrow && b.escrow <= b.units
  }

  lemma DisposalIsExact(lot: Lot, units: nat, escrow: bool)
    requires lot.escrow <= lot.units
    requires DisposeLot(lot, units, escrow).1.reason != Some(ShareBalanceGap)
    ensures Moved(lot, DisposeLot(lot, units, escrow).0, 0 - units, if escrow then 0 - units else 0)
  {
    hide AllocatedCost;
  }

  lemma LotStepIsExact(who: Address, c: Core, f: Fact)
    requires f.HasLot() && f.Key() in c.lots && MovesShares(f.kind)
    requires c.lots[f.Key()].escrow <= c.lots[f.Key()].units && Balanced(LotStep(who, c, f).gaps)
    ensures Moved(c.lots[f.Key()], LotStep(who, c, f).core.LotAt(f.Key()),
                  UnitsDelta(who, f, f.Key()), EscrowDelta(who, f, f.Key()))
  {
    hide DisposeLot, AllocatedCost;
    var lot := c.lots[f.Key()];
    if Gives(who, f) {
      var escrow := f.kind == ListingFilled && f.extra.escrowed;
      assert DisposalGaps(DisposeLot(lot, f.Units(), escrow).1) == LotStep(who, c, f).gaps;
      DisposalIsExact(lot, f.Units(), escrow);
    } else if f.kind == ListingFilled && f.Mine(who) && f.Other(who) {
      assert LotStep(who, c, f) == SelfFill(c, f);
      assert EscrowBalanceGap in [EscrowBalanceGap];
    } else if f.kind == ListingCreated || IsUnlisting(f.kind) {
      ListingIsExact(who, c, f);
    }
  }

  lemma ListingIsExact(who: Address, c: Core, f: Fact)
    requires f.HasLot() && f.Key() in c.lots && (f.kind == ListingCreated || IsUnlisting(f.kind))
    requires c.lots[f.Key()].escrow <= c.lots[f.Key()].units && Balanced(LotStep(who, c, f).gaps)
    ensures Moved(c.lots[f.Key()], LotStep(who, c, f).core.LotAt(f.Key()),
                  UnitsDelta(who, f, f.Key()), EscrowDelta(who, f, f.Key()))
  {
    hide Fill, Transfer, Acquire;
    assert EscrowBalanceGap in [EscrowBalanceGap];
  }

  lemma {:induction false} BurnIsExact(c: Core, market: Address, parts: seq<Part>, k: LotKey)
    requires c.LotAt(k).escrow <= c.LotAt(k).units
    requires k.market == market ==> ShareBalanceGap !in BurnParts(c, market, parts).gaps
    ensures Moved(c.LotAt(k), BurnParts(c, market, parts).core.LotAt(k),
                  if k.market == market then 0 - PartUnits(parts, k.outcome) else 0, 0)
  {
    if parts != [] {
      hide DisposeLot;
      var init, last := parts[..|parts| - 1], parts[|parts| - 1];
      var b := BurnParts(c, market, init);
      assert forall g :: g in b.gaps ==> g in BurnParts(c, market, parts).gaps;
      BurnIsExact(c, market, init, k);
      if last.Part? && k == LotKey(market, last.outcome) {
        var touched := Touch(b.core, k);
        var d := DisposeLot(touched.lots[k], last.units, false).1;
        assert forall g :: g in DisposalGaps(d) ==> g in BurnParts(c, market, parts).gaps;
        assert ShareBalanceGap in [ShareBalanceGap];
        DisposalIsExact(touched.lots[k], last.units, false);
      }
    }
  }

  lemma {:induction false} SettlingMovesNothing(c: Core, f: Fact, market: Address, winner: nat, n: nat, k: LotKey)
    requires c.Valid() && n <= |c.order|
    ensures var d := SettleLosers(c, f, market, winner, n).0;
            d.LotAt(k).units == c.LotAt(k).units && d.LotAt(k).escrow == c.LotAt(k).escrow
  {
    if n != 0 { SettlingMovesNothing(c, f, market, winner, n - 1, k); }
  }

  lemma ResolvingMovesNothing(c: Core, f: Fact, k: LotKey)
    requires c.Valid() && f.HasLot()
    ensures var d := Resolve(c, f).core;
            d.LotAt(k).units == c.LotAt(k).units && d.LotAt(k).escrow == c.LotAt(k).escrow
  {
    SettlingMovesNothing(c.(resolved := c.resolved[f.market.value := f.outcome.value]), f,
                         f.market.value, f.outcome.value, |c.order|, k);
  }

  lemma BurnFactIsExact(who: Address, c: Core, f: Fact, k: LotKey)
    requires IsBurn(f.kind) && f.Mine(who) && f.market.Some?
    requires c.LotAt(k).escrow <= c.LotAt(k).units
    requires f.market == Some(k.market) ==> Balanced(BurnFact(c, f).gaps)
    ensures Moved(c.LotAt(k), BurnFact(c, f).core.LotAt(k), UnitsDelta(who, f, k), EscrowDelta(who, f, k))
  {
    hide BurnParts;
    var b := BurnParts(c, f.market.value, Consumed(f));
    assert forall g :: g in b.gaps ==> g in BurnFact(c, f).gaps;
    BurnIsExact(c, f.market.value, Consumed(f), k);
  }

  /** Which facts leave a lot alone. */
  lemma NoDelta(who: Address, f: Fact, k: LotKey)
    ensures !(MovesShares(f.kind) && f.HasLot() && k == f.Key()) && !(IsBurn(f.kind) && f.Mine(who) && f.market.Some?)
            ==> UnitsDelta(who, f, k) == 0 && EscrowDelta(who, f, k) == 0
  {
  }

  /** A fact that reports no balance gap moves every lot of its market by exactly what it says. */
  lemma StepIsExact(who: Address, before: Core, f: Fact, k: LotKey)
    requires before.Valid() && before.LotAt(k).escrow <= before.LotAt(k).units
    requires f.market == Some(k.market) ==> Balanced(Step(who, before, f).gaps)
    ensures Moved(before.LotAt(k), Step(who, before, f).core.LotAt(k), UnitsDelta(who, f, k), EscrowDelta(who, f, k))
  {
    MentionedLot(before, f, k);
    hide LotStep, BurnFact, Resolve, OtherStep, UnitsDelta, EscrowDelta, Mention, Core.LotAt, Core.Valid;
    var c := Mention(before, f);
    NoDelta(who, f, k);
    if MovesShares(f.kind) {
      if f.HasLot() {
        if k == f.Key() { LotStepIsExact(who, c, f); } else { LotStepElsewhere(who, c, f, k); }
      }
    } else if f.kind == MarketResolved {
      if f.HasLot() {
        ResolvingMovesNothing(c, f, k);
      }
    } else if IsBurn(f.kind) {
      if f.Mine(who) && f.market.Some? { BurnFactIsExact(who, c, f, k); }
    } else {
      OtherStepConserves(who, c, f);
    }
  }

  // ---------------------------------------------------------------- reasons are never forgotten

  lemma {:induction false} NoteRemembers(o: Options, b: Books, f: Fact, gaps: seq<Code>)
    ensures b.reasons <= Note(o, b, f, gaps).reasons
    ensures o.Relevant(f.market) && gaps != [] ==> Note(o, b, f, gaps).reasons != {}
  {
    if gaps != [] {
      NoteRemembers(o, b, f, gaps[..|gaps| - 1]);
      assert o.Relevant(f.market) ==> Missing(gaps[|gaps| - 1], f.market) in Note(o, b, f, gaps).reasons;
    }
  }

  lemma {:induction false} PostRemembers(o: Options, b: Books, es: seq<Entry>)
    ensures b.reasons <= Post(o, b, es).reasons
    ensures Post(o, b, es).reasons == {} ==> forall e :: e in es && o.Reports(e) ==> e.complete
  {
    if es != [] {
      var init, last := es[..|es| - 1], es[|es| - 1];
      PostRemembers(o, b, init);
      assert es == init + [last];
      if o.Reports(last) && !last.complete {
        assert Missing(last.reason.GetOr(UnknownCost), Some(last.market)) in Post(o, b, es).reasons;
      }
    }
  }

  /** A step that leaves no reason had none before, noticed no relevant gap and booked nothing doubtful. */
  lemma CleanStep(o: Options, b: Books, f: Fact, out: Outcome)
    requires Absorb(o, b, f, out).reasons == {}
    ensures b.reasons == {}
    ensures o.Relevant(f.market) ==> out.gaps == []
    ensures forall e :: e in out.bookings && o.Reports(e) ==> e.complete
  {
    PostRemembers(o, Note(o, b, f, out.gaps), out.bookings);
    NoteRemembers(o, b, f, out.gaps);
  }

  lemma {:induction false} CleanPrefix(o: Options, facts: seq<Fact>, n: nat)
    requires n <= |facts| && BooksAfter(o, facts).reasons == {}
    ensures BooksAfter(o, facts[..n]).reasons == {}
    decreases |facts| - n
  {
    hide Absorb, Step, Run;
    if n == |facts| {
      assert facts[..n] == facts;
    } else {
      CleanPrefix(o, facts, n + 1);
      CleanAt(o, facts[..n + 1]);
      assert facts[..n + 1][..n] == facts[..n];
    }
  }

  lemma CleanAt(o: Options, facts: seq<Fact>)
    requires facts != [] && BooksAfter(o, facts).reasons == {}
    ensures BooksAfter(o, facts[..|facts| - 1]).reasons == {}
    ensures var f, c := facts[|facts| - 1], Run(o.who, facts[..|facts| - 1]).core;
            && (o.Relevant(f.market) ==> Step(o.who, c, f).gaps == [])
            && (forall e :: e in Step(o.who, c, f).bookings && o.Reports(e) ==> e.complete)
  {
    hide Step;
    var f, c := facts[|facts| - 1], Run(o.who, facts[..|facts| - 1]).core;
    CleanStep(o, BooksAfter(o, facts[..|facts| - 1]), f, Step(o.who, c, f));
  }

  // ---------------------------------------------------------------- soundness of `complete`

  lemma {:induction false} CleanRunIsExact(o: Options, facts: seq<Fact>, k: LotKey)
    requires BooksAfter(o, facts).reasons == {} && o.Relevant(Some(k.market))
    ensures var lot := Run(o.who, facts).core.LotAt(k);
            && lot.units == ExactUnits(o.who, facts, k)
            && lot.escrow == ExactEscrow(o.who, facts, k)
            && lot.escrow <= lot.units
  {
    if facts != [] {
      hide Step, UnitsDelta, EscrowDelta, Absorb;
      var init, f := facts[..|facts| - 1], facts[|facts| - 1];
      CleanAt(o, facts);
      CleanRunIsExact(o, init, k);
      StepIsExact(o.who, Run(o.who, init).core, f, k);
    }
  }

  /**
    Soundness of `complete`: at every point of the history, every lot of a selected market holds
    exactly the units and the listed units that the recorded movements add up to, the listed part
    is covered, and so no disposal or unlisting was ever clamped.
   */
  lemma CompleteBalancesAreExact(o: Options, facts: seq<Fact>, k: LotKey, n: nat)
    requires Report(o, facts).complete && o.Relevant(Some(k.market)) && n <= |facts|
    ensures var lot := Run(o.who, facts[..n]).core.LotAt(k);
            && lot.units == ExactUnits(o.who, facts[..n], k)
            && lot.escrow == ExactEscrow(o.who, facts[..n], k)
            && 0 <= ExactEscrow(o.who, facts[..n], k) <= ExactUnits(o.who, facts[..n], k)
  {
    CleanPrefix(o, facts, n);
    CleanRunIsExact(o, facts[..n], k);
  }

  lemma {:induction false} CleanEntriesAreComplete(o: Options, facts: seq<Fact>)
    requires BooksAfter(o, facts).reasons == {}
    ensures forall e :: e in BooksAfter(o, facts).entries ==> e.complete
  {
    WindowSelectsBookings(o, facts);
    FilterMembers(Run(o.who, facts).bookings, o.Reports);
    if facts != [] {
      var init := facts[..|facts| - 1];
      CleanAt(o, facts);
      CleanEntriesAreComplete(o, init);
      WindowSelectsBookings(o, init);
      FilterMembers(Run(o.who, init).bookings, o.Reports);
    }
  }

  lemma {:induction false} CompleteLots(c: Core, keys: seq<LotKey>, i: nat)
    requires LotReasons(c, keys) == {} && i < |keys|
    ensures c.LotAt(keys[i]).complete
  {
    var last := keys[|keys| - 1];
    assert !c.LotAt(last).complete ==> Missing(UnknownAcquisitionCost, Some(last.market)) in LotReasons(c, keys);
    assert LotReasons(c, keys[..|keys| - 1]) <= LotReasons(c, keys);
    if i < |keys| - 1 { CompleteLots(c, keys[..|keys| - 1], i); }
  }

  lemma {:induction false} NetOfCompleteEntries(es: seq<Entry>)
    requires forall e :: e in es ==> e.complete
    ensures Known(es) == Sum(es, ProceedsOf) - Charged(es)
  {
    if es != [] { NetOfCompleteEntries(es[..|es| - 1]); }
  }

  function GainOf(e: Entry): int { e.proceeds - e.allocatedCost }

  predicate IsComplete(e: Entry) { e.complete }

  lemma {:induction false} KnownIsComplete(es: seq<Entry>)
    ensures Known(es) == Sum(Filter(es, IsComplete), GainOf)
  {
    if es != [] {
      KnownIsComplete(es[..|es| - 1]);
      FilteredSumLast(es, GainOf, IsComplete);
    }
  }

  /** Complete or not, a report's known net is that of its complete entries; only a complete report has a net. */
  lemma KnownNetIsOfCompleteEntries(o: Options, facts: seq<Fact>)
    ensures var p := Report(o, facts);
            && p.knownRealizedNet == Sum(Filter(p.entries, IsComplete), GainOf)
            && p.realizedNet == if p.complete then Some(p.knownRealizedNet) else None
  {
    KnownIsComplete(Report(o, facts).entries);
  }

  /**
    In a complete report every entry and every visible lot has a known cost, and the net is exactly what the
    facts in its window and markets pay, less the cost charged for it.
   */
  lemma CompleteReportIsExact(o: Options, facts: seq<Fact>)
    requires Report(o, facts).complete
    ensures var p := Report(o, facts);
            && p.realizedNet == Some(Sum(facts, Income(o).Of) - Charged(p.entries))
            && (forall e :: e in p.entries ==> e.complete)
            && (forall l :: l in p.lots ==> l.costComplete)
  {
    hide Run, BooksAfter, Tallies;
    var p, c := Report(o, facts), Run(o.who, facts).core;
    CleanEntriesAreComplete(o, facts);
    WindowSelectsBookings(o, facts);
    NetOfCompleteEntries(p.entries);
    ProceedsAreIncome(o, facts);
    forall i | 0 <= i < |p.lots| ensures p.lots[i].costComplete {
      CompleteLots(c, HeldLots(o, c), i);
    }
  }

  // ---------------------------------------------------------------- burns

  lemma NothingDiscardedHere(o: Options, before: Core, f: Fact)
    requires before.Valid() && o.Relevant(f.market) && Step(o.who, before, f).gaps == []
    ensures Discarded(o.who, before, f) == 0
  {
    hide LotStep, BurnParts, Resolve;
    var c := Mention(before, f);
    if f.kind == LosingBurned && f.Mine(o.who) && f.market.Some? {
      var b := BurnParts(c, f.market.value, Consumed(f));
      var total := BurnTotal(b.sum, f);
      if total.cost > 0 || !total.complete {
        assert TerminalLossHistoryMissing in BurnFact(c, f).gaps;
      }
    }
  }

  function TransferredOut(who: Address, facts: seq<Fact>): nat {
    if facts == [] then 0
    else
      var init := facts[..|facts| - 1];
      TransferredOut(who, init) + CarriedOut(who, Run(who, init).core, facts[|facts| - 1])
  }

  lemma {:induction false} CleanRunDiscardsNothing(o: Options, facts: seq<Fact>)
    requires BooksAfter(o, facts).reasons == {} && o.markets.None?
    ensures CostOut(o.who, facts) == TransferredOut(o.who, facts)
  {
    if facts != [] {
      hide Step, CarriedOut, Discarded, Absorb;
      CleanAt(o, facts);
      CleanRunDiscardsNothing(o, facts[..|facts| - 1]);
      NothingDiscardedHere(o, Run(o.who, facts[..|facts| - 1]).core, facts[|facts| - 1]);
    }
  }

  /**
    The accounting identity of a complete report without window: the net result is what the facts pay, less
    everything paid in, except the cost of what is still held or was transferred away.
   */
  lemma CompleteNetIsExact(o: Options, facts: seq<Fact>)
    requires Unrestricted(o) && Report(o, facts).complete && AcquisitionsHaveUnits(o.who, facts)
    ensures var p := Report(o, facts);
            p.realizedNet == Some(Sum(facts, Income(o).Of)
                                  - (CostIn(o.who, facts) - ShownCost(p.lots) - TransferredOut(o.who, facts)))
  {
    hide Run, BooksAfter, Tallies, CostIn, CostOut, TransferredOut;
    CompleteReportIsExact(o, facts);
    VisibleCostConserved(o, facts);
    CleanRunDiscardsNothing(o, facts);
  }

  function AllPartUnits(parts: seq<Part>): nat {
    if parts == [] then 0
    else
      AllPartUnits(parts[..|parts| - 1]) + (if parts[|parts| - 1].Part? then parts[|parts| - 1].units else 0)
  }

  predicate WellFormedParts(parts: seq<Part>) { forall p :: p in parts ==> p.Part? }

  /** The movements of a burn account for the units it declares. */
  predicate AddsUp(f: Fact) {
    AllPartUnits(Consumed(f)) == f.Units() && WellFormedParts(Consumed(f))
  }

  lemma {:induction false} BurnSumsParts(c: Core, market: Address, parts: seq<Part>)
    ensures BurnParts(c, market, parts).sum.burned == AllPartUnits(parts)
    ensures BurnParts(c, market, parts).sum.complete ==> WellFormedParts(parts)
  {
    if parts != [] {
      hide DisposeLot;
      BurnSumsParts(c, market, parts[..|parts| - 1]);
      assert parts == parts[..|parts| - 1] + [parts[|parts| - 1]];
    }
  }

  /** The units of a lot that are not listed. */
  function FreeUnits(lot: Lot): int { lot.units - lot.escrow }

  function FreeIn(c: Core, market: Address, outcome: nat): int { FreeUnits(c.LotAt(LotKey(market, outcome))) }

  /** Some outcome is to lose more units in all than are free in its lot. */
  predicate Overdraws(c: Core, market: Address, parts: seq<Part>) {
    exists p :: p in parts && p.Part? && PartUnits(parts, p.outcome) > FreeIn(c, market, p.outcome)
  }

  lemma DisposalNeedsFreeUnits(lot: Lot, units: nat)
    ensures var (after, d) := DisposeLot(lot, units, false);
            && (d.reason == Some(ShareBalanceGap) <==> units > FreeUnits(lot))
            && (units <= FreeUnits(lot) ==> FreeUnits(after) == FreeUnits(lot) - units)
  {
    hide AllocatedCost;
  }

  lemma PartUnitsNext(init: seq<Part>, last: Part, outcome: nat)
    ensures PartUnits(init + [last], outcome)
            == PartUnits(init, outcome) + if last.Part? && last.outcome == outcome then last.units else 0
  {
    assert (init + [last])[..|init|] == init;
  }

  lemma OverdrawsNext(c: Core, market: Address, init: seq<Part>, last: Part)
    ensures Overdraws(c, market, init + [last])
            <==> Overdraws(c, market, init)
                 || (last.Part? && PartUnits(init, last.outcome) + last.units > FreeIn(c, market, last.outcome))
  {
    hide FreeIn, PartUnits;
    forall outcome: nat { PartUnitsNext(init, last, outcome); }
    assert forall p: Part :: p in init + [last] <==> p in init || p == last;
  }

  lemma OnePartOverdraws(b: Burn, market: Address, part: Part, outcome: nat)
    ensures var next := BurnOne(b, market, part);
            && (next.gaps == [] <==> b.gaps == [] && !(part.Part? && part.units > FreeIn(b.core, market, part.outcome)))
            && (next.gaps == [] ==>
                  FreeIn(next.core, market, outcome)
                  == FreeIn(b.core, market, outcome) - if part.Part? && part.outcome == outcome then part.units else 0)
  {
    hide DisposeLot, FreeUnits;
    if part.Part? {
      var k := LotKey(market, part.outcome);
      DisposalNeedsFreeUnits(Touch(b.core, k).lots[k], part.units);
    }
  }

  lemma BurnNext(c: Core, market: Address, init: seq<Part>, last: Part)
    ensures BurnParts(c, market, init + [last]) == BurnOne(BurnParts(c, market, init), market, last)
  {
    hide BurnOne;
    assert (init + [last])[..|init|] == init;
  }

  /** Without a gap, each lot loses the free units that the parts say. */
  lemma {:induction false} BurnTakesFreeUnits(c: Core, market: Address, parts: seq<Part>, outcome: nat)
    requires BurnParts(c, market, parts).gaps == []
    ensures FreeIn(BurnParts(c, market, parts).core, market, outcome) == FreeIn(c, market, outcome) - PartUnits(parts, outcome)
  {
    if parts != [] {
      hide BurnOne, FreeIn, BurnParts, PartUnits;
      var init, last := parts[..|parts| - 1], parts[|parts| - 1];
      assert parts == init + [last];
      BurnNext(c, market, init, last);
      OnePartOverdraws(BurnParts(c, market, init), market, last, outcome);
      PartUnitsNext(init, last, outcome);
      BurnTakesFreeUnits(c, market, init, outcome);
    }
  }

  /** A burn notes a gap exactly when its parts overdraw a lot. */
  lemma {:induction false} GapsAreOverdraws(c: Core, market: Address, parts: seq<Part>)
    ensures BurnParts(c, market, parts).gaps != [] <==> Overdraws(c, market, parts)
  {
    if parts != [] {
      hide BurnOne, FreeIn, BurnParts, PartUnits, Overdraws;
      var init, last := parts[..|parts| - 1], parts[|parts| - 1];
      assert parts == init + [last];
      BurnNext(c, market, init, last);
      GapsAreOverdraws(c, market, init);
      OverdrawsNext(c, market, init, last);
      if last.Part? {
        OnePartOverdraws(BurnParts(c, market, init), market, last, last.outcome);
        if BurnParts(c, market, init).gaps == [] { BurnTakesFreeUnits(c, market, init, last.outcome); }
      } else {
        OnePartOverdraws(BurnParts(c, market, init), market, last, 0);
      }
    }
  }

  predicate OwnBurn(o: Options, f: Fact) {
    IsBurn(f.kind) && f.Mine(o.who) && f.market.Some? && o.Relevant(f.market)
  }

  /** A losing burn is always looked at, another inside the window, and any that overdraws a lot. */
  predicate Notices(o: Options, before: Core, f: Fact)
    requires f.market.Some?
  {
    f.kind == LosingBurned || o.InTime(f.timestamp) || Overdraws(before, f.market.value, Consumed(f))
  }

  lemma MentionKeepsFree(before: Core, f: Fact, market: Address, outcome: nat)
    ensures FreeIn(Mention(before, f), market, outcome) == FreeIn(before, market, outcome)
  {
  }

  /** Mentioning a lot does not change what it holds. */
  lemma MentionKeepsOverdraws(before: Core, f: Fact, parts: seq<Part>)
    requires before.Valid() && f.market.Some?
    ensures Overdraws(Mention(before, f), f.market.value, parts) <==> Overdraws(before, f.market.value, parts)
  {
    hide FreeIn, PartUnits, Mention;
    forall outcome: nat { MentionKeepsFree(before, f, f.market.value, outcome); }
  }

  /** One burn that does not add up leaves a gap or a doubtful entry exactly when it is noticed. */
  lemma UnbalancedBurnStep(o: Options, before: Core, f: Fact)
    requires before.Valid() && OwnBurn(o, f) && !AddsUp(f)
    ensures var out := Step(o.who, before, f);
            (out.gaps != [] || exists e :: e in out.bookings && o.Reports(e) && !e.complete) <==> Notices(o, before, f)
  {
    hide LotStep, BurnParts, Resolve, Overdraws;
    var c := Mention(before, f);
    BurnSumsParts(c, f.market.value, Consumed(f));
    GapsAreOverdraws(c, f.market.value, Consumed(f));
    MentionKeepsOverdraws(before, f, Consumed(f));
    var total := BurnTotal(BurnParts(c, f.market.value, Consumed(f)).sum, f);
    assert !total.complete;
    if f.kind != LosingBurned {
      var e := Booking(f, f.outcome, f.Value(), total)[0];
      assert e in Step(o.who, before, f).bookings;
    }
  }

  lemma {:induction false} NothingToPost(o: Options, b: Books, es: seq<Entry>)
    requires forall e :: e in es ==> !o.Reports(e)
    ensures Post(o, b, es) == b
  {
    if es != [] { NothingToPost(o, b, es[..|es| - 1]); }
  }

  /** A burn that is not noticed leaves the entries and the reasons as they were. */
  lemma UnnoticedBurnLeavesBooks(o: Options, b: Books, before: Core, f: Fact)
    requires before.Valid() && OwnBurn(o, f) && !Notices(o, before, f)
    ensures Absorb(o, b, f, Step(o.who, before, f)) == b
  {
    hide LotStep, BurnParts, Resolve, Overdraws;
    GapsAreOverdraws(Mention(before, f), f.market.value, Consumed(f));
    MentionKeepsOverdraws(before, f, Consumed(f));
    NothingToPost(o, b, Step(o.who, before, f).bookings);
  }

  /**
    A burn that does not add up is noticed exactly when it is a losing one, lies inside the window or overdraws
    a lot: then no report of the history is complete; otherwise it changes neither entries nor reasons.
   */
  lemma UnbalancedBurnIsNoticedExactly(o: Options, facts: seq<Fact>, i: nat)
    requires i < |facts| && OwnBurn(o, facts[i]) && !AddsUp(facts[i])
    ensures var before := Run(o.who, facts[..i]).core;
            if Notices(o, before, facts[i]) then BooksAfter(o, facts[..i + 1]).reasons != {} && !Report(o, facts).complete
            else BooksAfter(o, facts[..i + 1]) == BooksAfter(o, facts[..i])
  {
    hide Step, Absorb, Notices, AddsUp;
    var before, f := Run(o.who, facts[..i]).core, facts[i];
    assert facts[..i + 1][..i] == facts[..i];
    if Notices(o, before, f) {
      UnbalancedBurnStep(o, before, f);
      if BooksAfter(o, facts[..i + 1]).reasons == {} {
        CleanAt(o, facts[..i + 1]);
      }
      if Report(o, facts).complete { CleanPrefix(o, facts, i + 1); }
    } else {
      UnnoticedBurnLeavesBooks(o, BooksAfter(o, facts[..i]), before, f);
    }
  }

  /** In particular every losing burn, and every burn inside the window, of a complete report adds up. */
  lemma UnbalancedBurnIsReported(o: Options, facts: seq<Fact>, i: nat)
    requires i < |facts| && IsBurn(facts[i].kind) && facts[i].Mine(o.who) && facts[i].market.Some?
    requires o.Relevant(facts[i].market) && (facts[i].kind == LosingBurned || o.InTime(facts[i].timestamp))
    requires !AddsUp(facts[i])
    ensures !Report(o, facts).complete
  {
    hide Report, AddsUp, Run;
    UnbalancedBurnIsNoticedExactly(o, facts, i);
  }

  /** Buying a hundred shares, then a refund of a hundred whose movements are missing. */
  function SilentHistory(): seq<Fact> {
    [Fact(0, PrimaryBuy, 0, 0, 0, 0, 0, Some(7), Some(1), None, Some(0), Some(100), Some(100),
          Extra(None, true, None, false, None)),
     Fact(1, Refunded, 1, 0, 0, 0, 10, Some(7), Some(1), None, None, Some(100), Some(100),
          Extra(None, true, Some([]), false, None))]
  }

  const HELD := Core(map[LotKey(7, 0) := Lot(100, 0, 100, true, false)], [LotKey(7, 0)], map[])

  lemma SilentPurchase()
    ensures Step(1, EMPTY_CORE, SilentHistory()[0]) == Outcome(HELD, [], [])
  {
    hide Fill, Transfer, Resolve, BurnFact;
    assert [] + [LotKey(7, 0)] == [LotKey(7, 0)];
  }

  lemma SilentRefund()
    ensures var out := Step(1, HELD, SilentHistory()[1]);
            out.core == HELD && out.gaps == [] && |out.bookings| == 1 && out.bookings[0].timestamp == 10
  {
    hide LotStep, Resolve;
  }

  /** An instance: the refund goes unnoticed before the window, and the refunded shares still look held. */
  lemma BurnGapBeforeWindowIsSilent()
    ensures var o := Options(1, true, Some(20), None, None);
            && !AddsUp(SilentHistory()[1])
            && BooksAfter(o, SilentHistory()).reasons == {}
            && Run(1, SilentHistory()).core.LotAt(LotKey(7, 0)).units == 100
  {
    hide Step;
    var o, h := Options(1, true, Some(20), None, None), SilentHistory();
    assert h[..1][..0] == [] && h[..1] == [h[0]];
    SilentPurchase();
    SilentRefund();
    assert Run(1, h[..1]).core == HELD;
    var booked := Step(1, HELD, h[1]).bookings;
    assert booked[..0] == [] && !o.Reports(booked[0]);
    assert Run(1, h).core == HELD;
  }
}
