/**
  Chain facts, weighted-average lots, and what one fact means for one owner.

  The functions here say what a fact does without looking at the reporting
  options: which lots change, which realizations are booked, and which gaps in
  the history are noticed. Reporting windows only select among those.
 */
module PnlModel {
  import opened Prelude

  type Address = nat

  datatype Kind =
    | PrimaryBuy | ListingCreated | ListingCancelled | ListingReturned | ListingFilled
    | ShareTransfer | MarketResolved | WinnerClaimed | Refunded | LosingBurned
    | EarlyBirdClaimed | TimeoutClaimed
    | BondLocked | BondCredited | BondTimeoutFunded | BondClaimed
    | FeeAccrued | FeeClaimed | PaymentTransfer | UserOperation | CoverageGap
    | OtherKind

  /** One element of a burn's `consumed` list; anything unparsable is Malformed. */
  datatype Part = Malformed | Part(outcome: nat, units: nat)

  /** The fields of `extra` that the reducer reads, already parsed. */
  datatype Extra = Extra(
    sellerProceeds: Option<nat>,
    escrowed: bool,
    consumed: Option<seq<Part>>,
    creatorFee: bool,
    gapReason: Option<string>)

  datatype Fact = Fact(
    id: nat, kind: Kind,
    block: nat, transactionIndex: nat, logIndex: nat, factIndex: nat, timestamp: nat,
    market: Option<Address>, owner: Option<Address>, counterparty: Option<Address>,
    outcome: Option<nat>, units: Option<nat>, amount: Option<nat>, extra: Extra)
  {
    predicate Mine(who: Address) { owner == Some(who) }
    predicate Other(who: Address) { counterparty == Some(who) }
    function Value(): nat { amount.GetOr(0) }
    function Units(): nat { units.GetOr(0) }
    predicate HasLot() { market.Some? && outcome.Some? }
    function Key(): LotKey requires HasLot() { LotKey(market.value, outcome.value) }
  }

  datatype LotKey = LotKey(market: Address, outcome: nat)

  datatype Lot = Lot(units: nat, escrow: nat, cost: nat, complete: bool, lossSettled: bool)

  const EMPTY_LOT := Lot(0, 0, 0, true, false)

  datatype Code =
    | ShareBalanceGap | EscrowBalanceGap | UnknownAcquisitionCost | SellerNetMissing
    | BurnMovementMissing | TerminalLossHistoryMissing | UnknownCost
    | EventGap(text: string)

  datatype Disposal = Disposal(cost: nat, complete: bool, reason: Option<Code>)

  /** A realization: proceeds against the cost that was charged to it. */
  datatype Entry = Entry(
    factId: nat, market: Address, outcome: Option<nat>, kind: Kind, timestamp: nat,
    proceeds: nat, allocatedCost: nat, complete: bool, reason: Option<Code>)
  {
    function Amount(): Option<int> {
      if complete then Some(proceeds - allocatedCost) else None
    }
  }

  /** Lots in the order in which they were first mentioned, and resolved markets. */
  datatype Core = Core(lots: map<LotKey, Lot>, order: seq<LotKey>, resolved: map<Address, nat>)
  {
    ghost predicate Valid() {
      && NoDuplicates(order)
      && forall k :: k in order <==> k in lots
    }
    function LotAt(k: LotKey): Lot { if k in lots then lots[k] else EMPTY_LOT }
    function CostAt(k: LotKey): int { LotAt(k).cost }
    predicate Holds(k: LotKey) { LotAt(k).units > 0 }
    predicate Lacks(k: LotKey) { LotAt(k).units == 0 }
  }

  const EMPTY_CORE := Core(map[], [], map[])

  /** What one fact did: the lots after it, the realizations and the gaps it produced. */
  datatype Outcome = Outcome(core: Core, bookings: seq<Entry>, gaps: seq<Code>)

  // ---------------------------------------------------------------- one lot

  /** Moving `units` out of a lot at its average cost, rounded down; the last unit takes the rest. */
  function DisposeLot(lot: Lot, units: nat, escrow: bool): (Lot, Disposal) {
    var sufficient := units <= lot.units && units <= (if escrow then lot.escrow else lot.units - lot.escrow);
    var available: nat := if units < lot.units then units else lot.units;
    var cost: nat := AllocatedCost(lot, available);
    var complete := sufficient && lot.complete;
    var left: nat := lot.units - available;
    var reserved: nat := if !escrow then lot.escrow else if lot.escrow > available then lot.escrow - available else 0;
    var after := Lot(left, if reserved > left then left else reserved, lot.cost - cost,
                     left == 0 || lot.complete, left != 0 && lot.lossSettled);
    (after, Disposal(cost, complete,
                     if complete then None
                     else if sufficient then Some(UnknownAcquisitionCost)
                     else Some(ShareBalanceGap)))
  }

  function AllocatedCost(lot: Lot, available: nat): (cost: nat)
    requires available <= lot.units
    ensures cost <= lot.cost
  {
    if lot.units == 0 then 0
    else if available == lot.units then lot.cost
    else
      DivideAtMost(lot.cost, available, lot.units);
      lot.cost * available / lot.units
  }

  lemma DivideAtMost(cost: nat, available: nat, units: nat)
    requires available < units
    ensures 0 <= cost * available / units <= cost
  {
    var q := cost * available / units;
    assert q * units <= cost * available <= cost * units;
    assert q > cost ==> q * units >= (cost + 1) * units;
    assert (cost + 1) * units == cost * units + units;
  }

  // ---------------------------------------------------------------- several lots

  function Touch(c: Core, k: LotKey): Core {
    if k in c.lots then c else c.(lots := c.lots[k := EMPTY_LOT], order := c.order + [k])
  }

  function SetLot(c: Core, k: LotKey, lot: Lot): Core {
    c.(lots := c.lots[k := lot])
  }

  /** The realization of fact f, which belongs to a market. */
  function Booking(f: Fact, outcome: Option<nat>, proceeds: nat, d: Disposal): (es: seq<Entry>) {
    if f.market.None? then []
    else [Entry(f.id, f.market.value, outcome, f.kind, f.timestamp, proceeds, d.cost, d.complete, d.reason)]
  }

  /** The loss still held in a lot whose outcome did not win. */
  function LossOf(lot: Lot): Disposal {
    Disposal(lot.cost, lot.complete, if lot.complete then None else Some(UnknownAcquisitionCost))
  }

  function Settled(lot: Lot): Lot { lot.(cost := 0, lossSettled := true) }

  function Acquire(c: Core, f: Fact, k: LotKey, units: nat, cost: Option<nat>): Outcome
    requires k in c.lots
  {
    var lot := c.lots[k];
    var grown := Lot(lot.units + units, lot.escrow, lot.cost + cost.GetOr(0), lot.complete && cost.Some?, false);
    if k.market in c.resolved && c.resolved[k.market] != k.outcome then
      Outcome(SetLot(c, k, Settled(grown)), Booking(f, Some(k.outcome), 0, LossOf(grown)), [])
    else
      Outcome(SetLot(c, k, grown), [], [])
  }

  function DisposalGaps(d: Disposal): seq<Code> {
    if d.reason == Some(ShareBalanceGap) then [ShareBalanceGap] else []
  }

  /** Lots of a resolved market that did not win realize their loss once. */
  predicate LosesNow(c: Core, k: LotKey, market: Address, winner: nat)
    requires k in c.lots
  {
    k.market == market && k.outcome != winner && c.lots[k].units > 0 && !c.lots[k].lossSettled
  }

  function SettleOne(c: Core, f: Fact, k: LotKey, market: Address, winner: nat): (r: (Core, seq<Entry>))
    requires k in c.lots
  {
    if LosesNow(c, k, market, winner) then
      (SetLot(c, k, Settled(c.lots[k])), Booking(f, Some(k.outcome), 0, LossOf(c.lots[k])))
    else (c, [])
  }

  function SettleLosers(c: Core, f: Fact, market: Address, winner: nat, n: nat): (r: (Core, seq<Entry>))
    requires n <= |c.order| && forall k :: k in c.order ==> k in c.lots
    ensures r.0.order == c.order && r.0.lots.Keys == c.lots.Keys && r.0.resolved == c.resolved
  {
    if n == 0 then (c, [])
    else
      var (done, booked) := SettleLosers(c, f, market, winner, n - 1);
      var (after, more) := SettleOne(done, f, c.order[n - 1], market, winner);
      (after, booked + more)
  }

  datatype BurnSum = BurnSum(cost: nat, burned: nat, complete: bool, reason: Option<Code>)

  datatype Burn = Burn(core: Core, sum: BurnSum, gaps: seq<Code>)

  function AddPart(s: BurnSum, units: nat, d: Disposal): BurnSum {
    BurnSum(s.cost + d.cost, s.burned + units, s.complete && d.complete,
            if s.reason.Some? then s.reason else d.reason)
  }

  function BurnOne(b: Burn, market: Address, part: Part): Burn {
    match part
    case Malformed => b.(sum := b.sum.(complete := false))
    case Part(outcome, units) =>
      var k := LotKey(market, outcome);
      var touched := Touch(b.core, k);
      var (lot, d) := DisposeLot(touched.lots[k], units, false);
      Burn(SetLot(touched, k, lot), AddPart(b.sum, units, d), b.gaps + DisposalGaps(d))
  }

  function BurnParts(c: Core, market: Address, parts: seq<Part>): Burn {
    if parts == [] then Burn(c, BurnSum(0, 0, true, None), [])
    else BurnOne(BurnParts(c, market, parts[..|parts| - 1]), market, parts[|parts| - 1])
  }

  function Consumed(f: Fact): seq<Part> {
    match f.extra.consumed
    case Some(parts) => parts
    case None =>
      if f.outcome.None? then []
      else if f.units.None? then [Malformed]
      else [Part(f.outcome.value, f.units.value)]
  }

  /** A burn whose movements do not add up to the declared units is incomplete. */
  function BurnTotal(s: BurnSum, f: Fact): Disposal {
    if s.burned != f.Units() then Disposal(s.cost, false, Some(BurnMovementMissing))
    else Disposal(s.cost, s.complete, s.reason)
  }

  // ---------------------------------------------------------------- one fact

  /** Selling to oneself moves no shares: only the fees leave the account. */
  function SelfFill(c: Core, f: Fact): Outcome
    requires f.HasLot() && f.Key() in c.lots
  {
    var lot, proceeds := c.lots[f.Key()], f.extra.sellerProceeds;
    Outcome(SetLot(c, f.Key(), lot.(escrow := if lot.escrow >= f.Units() then lot.escrow - f.Units() else 0)),
            Booking(f, f.outcome, proceeds.GetOr(0),
                    Disposal(f.Value(), proceeds.Some?, if proceeds.None? then Some(SellerNetMissing) else None)),
            if lot.escrow < f.Units() then [EscrowBalanceGap] else [])
  }

  function Sell(c: Core, f: Fact): Outcome
    requires f.HasLot() && f.Key() in c.lots
  {
    var (after, d) := DisposeLot(c.lots[f.Key()], f.Units(), f.extra.escrowed);
    var proceeds := f.extra.sellerProceeds;
    Outcome(SetLot(c, f.Key(), after),
            Booking(f, f.outcome, proceeds.GetOr(0),
                    Disposal(d.cost, d.complete && proceeds.Some?,
                             if proceeds.None? then Some(SellerNetMissing) else d.reason)),
            DisposalGaps(d))
  }

  function Fill(who: Address, c: Core, f: Fact): Outcome
    requires f.HasLot() && f.Key() in c.lots
  {
    if f.Mine(who) && f.Other(who) then SelfFill(c, f)
    else if f.Other(who) then Sell(c, f)
    else if f.Mine(who) then Acquire(c, f, f.Key(), f.Units(), Some(f.Value()))
    else Outcome(c, [], [])
  }

  function Transfer(who: Address, c: Core, f: Fact): Outcome
    requires f.HasLot() && f.Key() in c.lots
  {
    var k := f.Key();
    if f.Mine(who) && f.Other(who) then Outcome(c, [], [])
    else if f.Mine(who) then
      var (after, d) := DisposeLot(c.lots[k], f.Units(), false);
      Outcome(SetLot(c, k, after), [], DisposalGaps(d))
    else if f.Other(who) then Acquire(c, f, k, f.Units(), None)
    else Outcome(c, [], [])
  }

  function List(c: Core, f: Fact): Outcome
    requires f.HasLot() && f.Key() in c.lots
  {
    var lot := c.lots[f.Key()];
    var listed := lot.(escrow := lot.escrow + f.Units());
    if listed.escrow > lot.units then
      Outcome(SetLot(c, f.Key(), listed.(complete := false)), [], [EscrowBalanceGap])
    else Outcome(SetLot(c, f.Key(), listed), [], [])
  }

  function Unlist(c: Core, f: Fact): Outcome
    requires f.HasLot() && f.Key() in c.lots
  {
    var lot := c.lots[f.Key()];
    if lot.escrow < f.Units() then
      Outcome(SetLot(c, f.Key(), lot.(escrow := 0, complete := false)), [], [EscrowBalanceGap])
    else Outcome(SetLot(c, f.Key(), lot.(escrow := lot.escrow - f.Units())), [], [])
  }

  function Resolve(c: Core, f: Fact): Outcome
    requires f.HasLot() && forall k :: k in c.order ==> k in c.lots
  {
    var announced := c.(resolved := c.resolved[f.market.value := f.outcome.value]);
    var (after, booked) := SettleLosers(announced, f, f.market.value, f.outcome.value, |announced.order|);
    Outcome(after, booked, [])
  }

  function BurnFact(c: Core, f: Fact): Outcome
    requires f.market.Some?
  {
    var b := BurnParts(c, f.market.value, Consumed(f));
    var total := BurnTotal(b.sum, f);
    if f.kind != LosingBurned then Outcome(b.core, Booking(f, f.outcome, f.Value(), total), b.gaps)
    else Outcome(b.core, [],
                 b.gaps + (if total.cost > 0 || !total.complete then [TerminalLossHistoryMissing] else []))
  }

  /** Mentioning a lot creates it, whoever the fact is about. */
  function Mention(c: Core, f: Fact): Core {
    if f.HasLot() then Touch(c, f.Key()) else c
  }

  predicate IsBurn(kind: Kind) { kind == WinnerClaimed || kind == Refunded || kind == LosingBurned }

  predicate IsUnlisting(kind: Kind) { kind == ListingCancelled || kind == ListingReturned }

  predicate IsBonus(kind: Kind) { kind == EarlyBirdClaimed || kind == TimeoutClaimed }

  /** Facts about shares of one outcome. */
  function LotStep(who: Address, c: Core, f: Fact): Outcome
    requires f.HasLot() && f.Key() in c.lots
  {
    match f.kind
    case PrimaryBuy => if f.Mine(who) then Acquire(c, f, f.Key(), f.Units(), Some(f.Value())) else Outcome(c, [], [])
    case ListingCreated => if f.Mine(who) then List(c, f) else Outcome(c, [], [])
    case ListingCancelled => if f.Mine(who) then Unlist(c, f) else Outcome(c, [], [])
    case ListingReturned => if f.Mine(who) then Unlist(c, f) else Outcome(c, [], [])
    case ListingFilled => Fill(who, c, f)
    case ShareTransfer => Transfer(who, c, f)
    case _ => Outcome(c, [], [])
  }

  /** Facts that book income or notice a gap without moving shares. */
  function OtherStep(who: Address, c: Core, f: Fact): Outcome {
    if IsBonus(f.kind) && f.Mine(who) then
      Outcome(c, Booking(f, f.outcome, f.Value(), Disposal(0, true, None)), [])
    else if f.kind == CoverageGap && (f.Mine(who) || f.Other(who)) then
      Outcome(c, [], [EventGap(f.extra.gapReason.GetOr("event_gap"))])
    else Outcome(c, [], [])
  }

  predicate MovesShares(kind: Kind) {
    kind == PrimaryBuy || kind == ListingCreated || IsUnlisting(kind) || kind == ListingFilled || kind == ShareTransfer
  }

  function Step(who: Address, before: Core, f: Fact): Outcome
    requires forall k :: k in before.order ==> k in before.lots
  {
    var c := Mention(before, f);
    if MovesShares(f.kind) then
      if f.HasLot() then LotStep(who, c, f) else Outcome(c, [], [])
    else if f.kind == MarketResolved then
      if f.HasLot() then Resolve(c, f) else Outcome(c, [], [])
    else if IsBurn(f.kind) then
      if f.Mine(who) && f.market.Some? then BurnFact(c, f) else Outcome(c, [], [])
    else OtherStep(who, c, f)
  }

  // ---------------------------------------------------------------- a whole history

  datatype Ledger = Ledger(core: Core, bookings: seq<Entry>)

  lemma {:induction false} SettleLosersValid(c: Core, f: Fact, market: Address, winner: nat, n: nat)
    requires c.Valid() && n <= |c.order|
    ensures SettleLosers(c, f, market, winner, n).0.Valid()
  {
    if n != 0 { SettleLosersValid(c, f, market, winner, n - 1); }
  }

  lemma TouchValid(c: Core, k: LotKey)
    requires c.Valid()
    ensures Touch(c, k).Valid() && k in Touch(c, k).lots && c.lots.Keys <= Touch(c, k).lots.Keys
  {
  }

  lemma {:induction false} BurnPartsValid(c: Core, market: Address, parts: seq<Part>)
    requires c.Valid()
    ensures BurnParts(c, market, parts).core.Valid()
  {
    if parts != [] {
      BurnPartsValid(c, market, parts[..|parts| - 1]);
      var last := parts[|parts| - 1];
      if last.Part? { TouchValid(BurnParts(c, market, parts[..|parts| - 1]).core, LotKey(market, last.outcome)); }
    }
  }

  /** c and d have the same lots, in the same order, possibly with other contents. */
  ghost predicate SameLots(c: Core, d: Core) {
    d.order == c.order && d.lots.Keys == c.lots.Keys
  }

  lemma LotStepKeepsShape(who: Address, c: Core, f: Fact)
    requires f.HasLot() && f.Key() in c.lots
    ensures SameLots(c, LotStep(who, c, f).core)
  {
  }

  /** A share movement rewrites one lot and nothing else. */
  lemma LotStepRewritesOneLot(who: Address, c: Core, f: Fact)
    requires f.HasLot() && f.Key() in c.lots
    ensures var d := LotStep(who, c, f).core;
            f.Key() in d.lots && d == SetLot(c, f.Key(), d.lots[f.Key()])
  {
    var d := LotStep(who, c, f).core;
    if d == c { assert c.lots[f.Key() := c.lots[f.Key()]] == c.lots; }
  }

  lemma LotStepElsewhere(who: Address, c: Core, f: Fact, k: LotKey)
    requires f.HasLot() && f.Key() in c.lots && k != f.Key()
    ensures LotStep(who, c, f).core.LotAt(k) == c.LotAt(k)
  {
    hide LotStep;
    LotStepRewritesOneLot(who, c, f);
  }

  lemma BurnFactValid(c: Core, f: Fact)
    requires c.Valid() && f.market.Some?
    ensures BurnFact(c, f).core.Valid()
  {
    BurnPartsValid(c, f.market.value, Consumed(f));
  }

  lemma ResolveValid(c: Core, f: Fact)
    requires c.Valid() && f.HasLot()
    ensures Resolve(c, f).core.Valid()
  {
    SettleLosersValid(c.(resolved := c.resolved[f.market.value := f.outcome.value]), f,
                      f.market.value, f.outcome.value, |c.order|);
  }

  /** Every fact keeps the lots and their order in agreement. */
  lemma StepValid(who: Address, c: Core, f: Fact)
    requires c.Valid()
    ensures Step(who, c, f).core.Valid()
  {
    var m := Mention(c, f);
    if f.HasLot() { TouchValid(c, f.Key()); }
    if MovesShares(f.kind) {
      if f.HasLot() { LotStepKeepsShape(who, m, f); }
    } else if f.kind == MarketResolved {
      if f.HasLot() { ResolveValid(m, f); }
    } else if IsBurn(f.kind) {
      if f.market.Some? { BurnFactValid(m, f); }
    }
  }

  /** The ledger after a sequence of distinct facts, in order. */
  function Run(who: Address, facts: seq<Fact>): (r: Ledger)
    ensures r.core.Valid()
  {
    if facts == [] then Ledger(EMPTY_CORE, [])
    else
      var before := Run(who, facts[..|facts| - 1]);
      var out := Step(who, before.core, facts[|facts| - 1]);
      StepValid(who, before.core, facts[|facts| - 1]);
      Ledger(out.core, before.bookings + out.bookings)
  }
}
