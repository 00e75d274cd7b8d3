/**
  The totals beside the realized result: fees, payments and gas are sums over the facts that count, what is
  still locked is the sum of the open bonds, and no bond is released twice.
 */
module PnlBonds {
  import opened Prelude
  import opened PnlModel
  import opened PnlReport

  /** What an account's open bond of a market contributes. */
  datatype Open = Open(bonds: map<Address, Bond>) {
    function Amount(market: Address): int {
      if market in bonds && !bonds[market].settled then bonds[market].amount else 0
    }
  }

  predicate Locks(who: Address, f: Fact) { f.kind == BondLocked && f.Mine(who) && f.market.Some? }

  /** The markets in which the account has locked a bond, each once. */
  function BondMarkets(who: Address, facts: seq<Fact>): seq<Address> {
    if facts == [] then []
    else
      var markets, f := BondMarkets(who, facts[..|facts| - 1]), facts[|facts| - 1];
      if Locks(who, f) && f.market.value !in markets then markets + [f.market.value] else markets
  }

  /** The amounts of open bonds that a second bond of the same market has replaced. */
  function Replaced(o: Options, facts: seq<Fact>): int {
    if facts == [] then 0
    else
      var init, f := facts[..|facts| - 1], facts[|facts| - 1];
      Replaced(o, init) + if Locks(o.who, f) then Open(Tallies(o, init).bonds).Amount(f.market.value) else 0
  }

  ghost predicate Known(t: Tally, markets: seq<Address>) {
    NoDuplicates(markets) && forall m :: m in t.bonds <==> m in markets
  }

  /** Changing one known bond changes the open total by the difference. */
  lemma OneBond(markets: seq<Address>, a: map<Address, Bond>, market: Address, bond: Bond)
    requires NoDuplicates(markets) && market in markets
    ensures Sum(markets, Open(a[market := bond]).Amount)
            == Sum(markets, Open(a).Amount) - Open(a).Amount(market) + if bond.settled then 0 else bond.amount
  {
    SumChangeOne(markets, market, Open(a).Amount, Open(a[market := bond]).Amount);
  }

  lemma LockStep(o: Options, t: Tally, markets: seq<Address>, f: Fact)
    requires Known(t, markets) && Locks(o.who, f)
    ensures var next := TallyStep(o, t, f);
            var more := if f.market.value in markets then markets else markets + [f.market.value];
            && Known(next, more)
            && next.bondLocked - Sum(more, Open(next.bonds).Amount)
               == t.bondLocked - Sum(markets, Open(t.bonds).Amount) + Open(t.bonds).Amount(f.market.value)
  {
    var m, bond := f.market.value, Bond(f.Value(), false);
    assert TallyStep(o, t, f) == t.(bonds := t.bonds[m := bond], bondLocked := t.bondLocked + f.Value());
    hide TallyStep, Open.Amount, Known, NoDuplicates, Sum, Locks;
    var more := if m in markets then markets else markets + [m];
    MoreMarkets(t, markets, m);
    OneBond(more, t.bonds, m, bond);
    StillKnown(t, markets, more, m, bond);
  }

  lemma StillKnown(t: Tally, markets: seq<Address>, more: seq<Address>, m: Address, bond: Bond)
    requires Known(t, markets) && NoDuplicates(more) && forall k :: k in more <==> k in markets || k == m
    ensures forall next: Tally :: next.bonds == t.bonds[m := bond] ==> Known(next, more)
  {
  }

  /** Listing a market without a bond changes nothing. */
  lemma MoreMarkets(t: Tally, markets: seq<Address>, m: Address)
    requires Known(t, markets)
    ensures var more := if m in markets then markets else markets + [m];
            && NoDuplicates(more) && m in more && (forall k :: k in more <==> k in markets || k == m)
            && Sum(more, Open(t.bonds).Amount) == Sum(markets, Open(t.bonds).Amount)
  {
    if m !in markets {
      SumAppend(markets, [m], Open(t.bonds).Amount);
      SumSingle(m, Open(t.bonds).Amount);
    }
  }

  lemma OtherBondStep(o: Options, t: Tally, markets: seq<Address>, f: Fact)
    requires Known(t, markets) && !Locks(o.who, f)
    ensures var next := TallyStep(o, t, f);
            && Known(next, markets)
            && next.bondLocked - Sum(markets, Open(next.bonds).Amount) == t.bondLocked - Sum(markets, Open(t.bonds).Amount)
  {
    if (f.kind == BondCredited || f.kind == BondTimeoutFunded) && f.market.Some? && f.market.value in t.bonds {
      OneBond(markets, t.bonds, f.market.value, t.bonds[f.market.value].(settled := true));
    }
    hide Options.Included;
  }

  /**
    In every history the amount reported as locked is the sum of the open bonds, apart from open bonds that
    were replaced before they were released.
   */
  lemma {:induction false} LockedIsOpen(o: Options, facts: seq<Fact>)
    ensures Known(Tallies(o, facts), BondMarkets(o.who, facts))
    ensures Tallies(o, facts).bondLocked
            == Sum(BondMarkets(o.who, facts), Open(Tallies(o, facts).bonds).Amount) + Replaced(o, facts)
  {
    if facts != [] {
      hide TallyStep, Known;
      var init, f := facts[..|facts| - 1], facts[|facts| - 1];
      LockedIsOpen(o, init);
      if Locks(o.who, f) {
        LockStep(o, Tallies(o, init), BondMarkets(o.who, init), f);
      } else {
        OtherBondStep(o, Tallies(o, init), BondMarkets(o.who, init), f);
      }
    } else {
      assert Known(EMPTY_TALLY, []);
    }
  }

  /** The amount reported as locked is never negative. */
  lemma LockedIsNatural(o: Options, facts: seq<Fact>)
    ensures Tallies(o, facts).bondLocked >= 0
  {
    LockedIsOpen(o, facts);
    SumNonnegative(BondMarkets(o.who, facts), Open(Tallies(o, facts).bonds).Amount);
    ReplacedIsNatural(o, facts);
  }

  lemma {:induction false} ReplacedIsNatural(o: Options, facts: seq<Fact>)
    ensures Replaced(o, facts) >= 0
  {
    if facts != [] { ReplacedIsNatural(o, facts[..|facts| - 1]); }
  }

  /** A settled bond stays settled, whatever is credited or funded later, until another bond replaces it. */
  lemma SettledBondsStay(o: Options, t: Tally, f: Fact, market: Address)
    requires market in t.bonds && t.bonds[market].settled
    requires !(Locks(o.who, f) && f.market == Some(market))
    ensures TallyStep(o, t, f).bonds[market] == t.bonds[market]
    ensures (f.kind == BondCredited || f.kind == BondTimeoutFunded) && f.market == Some(market) ==> TallyStep(o, t, f) == t
  {
    hide Options.Included;
  }

  // ---------------------------------------------------------------- the bond of a market

  datatype Status = NoBond | Locked(amount: nat) | Closed(amount: nat)

  /** A bond is opened by a lock and settled by the first credit to the account or timeout after it. */
  function StatusNext(who: Address, s: Status, f: Fact): Status {
    if f.kind == BondLocked && f.owner == Some(who) then Locked(f.amount.GetOr(0))
    else if s.Locked? && ((f.kind == BondCredited && f.owner == Some(who)) || f.kind == BondTimeoutFunded) then
      Closed(s.amount)
    else s
  }

  function StatusOf(who: Address, facts: seq<Fact>, market: Address): Status {
    if facts == [] then NoBond
    else
      var s, f := StatusOf(who, facts[..|facts| - 1], market), facts[|facts| - 1];
      if f.market == Some(market) then StatusNext(who, s, f) else s
  }

  function StatusIn(bonds: map<Address, Bond>, market: Address): Status {
    if market !in bonds then NoBond
    else if bonds[market].settled then Closed(bonds[market].amount)
    else Locked(bonds[market].amount)
  }

  lemma BondStep(o: Options, t: Tally, f: Fact, market: Address)
    ensures StatusIn(TallyStep(o, t, f).bonds, market)
            == if f.market == Some(market) then StatusNext(o.who, StatusIn(t.bonds, market), f)
               else StatusIn(t.bonds, market)
  {
    hide Options.Included;
  }

  /** The bond of each market is what the facts of that market say. */
  lemma {:induction false} BondsAreStatuses(o: Options, facts: seq<Fact>, market: Address)
    ensures StatusIn(Tallies(o, facts).bonds, market) == StatusOf(o.who, facts, market)
  {
    if facts != [] {
      hide TallyStep, StatusIn;
      BondsAreStatuses(o, facts[..|facts| - 1], market);
      BondStep(o, Tallies(o, facts[..|facts| - 1]), facts[|facts| - 1], market);
    } else {
      assert StatusIn(map[], market) == NoBond;
    }
  }

  // ---------------------------------------------------------------- sums over the facts

  /** In the window and in the selected markets, if there is a selection. */
  predicate Counts(o: Options, f: Fact) {
    && (o.from.Some? ==> o.from.value <= f.timestamp)
    && (o.until.Some? ==> f.timestamp < o.until.value)
    && (o.markets.Some? ==> f.market.Some? && f.market.value in o.markets.value)
  }

  datatype Payments = Payments(o: Options) {
    function Own(f: Fact, kind: Kind): nat {
      if f.kind == kind && f.owner == Some(o.who) then f.amount.GetOr(0) else 0
    }
    function Claimed(f: Fact): int { Own(f, BondClaimed) }
    function CreatorFee(f: Fact): int { if Counts(o, f) && f.extra.creatorFee then Own(f, FeeAccrued) else 0 }
    function FeeTaken(f: Fact): int { if Counts(o, f) then Own(f, FeeClaimed) else 0 }
    function Gas(f: Fact): int { if Counts(o, f) then Own(f, UserOperation) else 0 }
    function PaidOut(f: Fact): int {
      if Counts(o, f) && f.counterparty != Some(o.who) then Own(f, PaymentTransfer) else 0
    }
    function PaidIn(f: Fact): int {
      if Counts(o, f) && f.kind == PaymentTransfer && f.counterparty == Some(o.who) && f.owner != Some(o.who)
      then f.amount.GetOr(0) else 0
    }
  }

  /** Credits count unless the bond is already settled; a timeout counts if the bond is open. */
  function CreditOf(who: Address, before: seq<Fact>, f: Fact): nat {
    if f.kind == BondCredited && f.owner == Some(who) && f.market.Some? && !StatusOf(who, before, f.market.value).Closed?
    then f.amount.GetOr(0) else 0
  }

  function SlashOf(who: Address, before: seq<Fact>, f: Fact): nat {
    if f.kind == BondTimeoutFunded && f.market.Some? && StatusOf(who, before, f.market.value).Locked?
    then f.amount.GetOr(0) else 0
  }

  function AllCredits(who: Address, facts: seq<Fact>): nat {
    if facts == [] then 0
    else AllCredits(who, facts[..|facts| - 1]) + CreditOf(who, facts[..|facts| - 1], facts[|facts| - 1])
  }

  function AllSlashes(who: Address, facts: seq<Fact>): nat {
    if facts == [] then 0
    else AllSlashes(who, facts[..|facts| - 1]) + SlashOf(who, facts[..|facts| - 1], facts[|facts| - 1])
  }

  lemma PaymentStep(o: Options, t: Tally, f: Fact)
    ensures var next, p := TallyStep(o, t, f), Payments(o);
            && next.creatorIncome == t.creatorIncome + p.CreatorFee(f)
            && next.creatorClaimed == t.creatorClaimed + p.FeeTaken(f)
            && next.bondClaimed == t.bondClaimed + p.Claimed(f)
            && next.paymentIn == t.paymentIn + p.PaidIn(f) && next.paymentOut == t.paymentOut + p.PaidOut(f)
            && next.gasCost == t.gasCost + p.Gas(f)
  {
  }

  lemma CreditStep(o: Options, before: seq<Fact>, f: Fact)
    ensures var t := Tallies(o, before); var next := TallyStep(o, t, f);
            && next.bondCredited == t.bondCredited + CreditOf(o.who, before, f)
            && next.bondSlashed == t.bondSlashed + SlashOf(o.who, before, f)
  {
    if f.market.Some? { BondsAreStatuses(o, before, f.market.value); }
    hide Tallies, StatusOf, Options.Included;
  }

  /** Every total of a report is the sum of the amounts of the facts that count toward it. */
  lemma {:induction false} TotalsAreSums(o: Options, facts: seq<Fact>)
    ensures var t, p := Tallies(o, facts), Payments(o);
            && t.creatorIncome == Sum(facts, p.CreatorFee) && t.creatorClaimed == Sum(facts, p.FeeTaken)
            && t.bondClaimed == Sum(facts, p.Claimed) && t.gasCost == Sum(facts, p.Gas)
            && t.paymentIn == Sum(facts, p.PaidIn) && t.paymentOut == Sum(facts, p.PaidOut)
            && t.bondCredited == AllCredits(o.who, facts) && t.bondSlashed == AllSlashes(o.who, facts)
  {
    if facts != [] {
      hide TallyStep, Payments.CreatorFee, Payments.FeeTaken, Payments.Claimed, Payments.Gas, Payments.PaidIn,
        Payments.PaidOut, CreditOf, SlashOf;
      var init := facts[..|facts| - 1];
      TotalsAreSums(o, init);
      PaymentStep(o, Tallies(o, init), facts[|facts| - 1]);
      CreditStep(o, init, facts[|facts| - 1]);
    }
  }
}
