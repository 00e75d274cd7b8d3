/** Ordering, de-duplication, reporting windows and the final report of one account. */
module PnlReport {
  import opened Prelude
  import opened PnlModel

  // ---------------------------------------------------------------- order of facts

  /** a comes strictly before b: by block, then transaction, log and fact position. */
  predicate Precedes(a: Fact, b: Fact) {
    || a.block < b.block
    || (a.block == b.block && a.transactionIndex < b.transactionIndex)
    || (a.block == b.block && a.transactionIndex == b.transactionIndex && a.logIndex < b.logIndex)
    || (a.block == b.block && a.transactionIndex == b.transactionIndex && a.logIndex == b.logIndex
        && a.factIndex < b.factIndex)
  }

  function Sort(xs: seq<Fact>): seq<Fact> { SortBy(Precedes, xs) }

  predicate Seen(facts: seq<Fact>, id: nat) {
    exists i :: 0 <= i < |facts| && facts[i].id == id
  }

  /** The first occurrence of every fact identifier. */
  function Distinct(facts: seq<Fact>): seq<Fact> {
    if facts == [] then []
    else
      var init, last := facts[..|facts| - 1], facts[|facts| - 1];
      if Seen(init, last.id) then Distinct(init) else Distinct(init) + [last]
  }

  // ---------------------------------------------------------------- reporting options

  datatype Options = Options(
    who: Address, coverageComplete: bool, from: Option<int>, until: Option<int>, markets: Option<set<Address>>)
  {
    predicate Relevant(market: Option<Address>) {
      markets.None? || (market.Some? && market.value in markets.value)
    }
    predicate BeforeEnd(timestamp: nat) { until.None? || timestamp < until.value }
    predicate Processes(f: Fact) { BeforeEnd(f.timestamp) }
    predicate Selects(k: LotKey) { Relevant(Some(k.market)) }
    predicate InTime(timestamp: nat) {
      (from.None? || timestamp >= from.value) && BeforeEnd(timestamp)
    }
    predicate Included(f: Fact) { InTime(f.timestamp) && Relevant(f.market) }
    predicate Reports(e: Entry) { InTime(e.timestamp) && Relevant(Some(e.market)) }
    predicate Omits(e: Entry) { !Reports(e) }
  }

  /** The facts the main loop works on: distinct ones before the end of the window. */
  function Processed(o: Options, sorted: seq<Fact>): seq<Fact> {
    Filter(Distinct(sorted), o.Processes)
  }

  datatype Reason = HistoryCoverageIncomplete | Missing(code: Code, market: Option<Address>)

  /** What the report has accumulated: realizations inside the window and reasons for doubt. */
  datatype Books = Books(entries: seq<Entry>, reasons: set<Reason>)

  function NoteOne(o: Options, b: Books, f: Fact, gap: Code): Books {
    if o.Relevant(f.market) then b.(reasons := b.reasons + {Missing(gap, f.market)}) else b
  }

  function Note(o: Options, b: Books, f: Fact, gaps: seq<Code>): Books {
    if gaps == [] then b else NoteOne(o, Note(o, b, f, gaps[..|gaps| - 1]), f, gaps[|gaps| - 1])
  }

  function Doubt(e: Entry): set<Reason> {
    if e.complete then {} else {Missing(e.reason.GetOr(UnknownCost), Some(e.market))}
  }

  function PostOne(o: Options, b: Books, e: Entry): Books {
    if o.Reports(e) then Books(b.entries + [e], b.reasons + Doubt(e)) else b
  }

  function Post(o: Options, b: Books, es: seq<Entry>): Books {
    if es == [] then b else PostOne(o, Post(o, b, es[..|es| - 1]), es[|es| - 1])
  }

  function Absorb(o: Options, b: Books, f: Fact, out: Outcome): Books {
    Post(o, Note(o, b, f, out.gaps), out.bookings)
  }

  function OpeningBooks(o: Options): Books {
    Books([], if o.coverageComplete then {} else {HistoryCoverageIncomplete})
  }

  function BooksAfter(o: Options, facts: seq<Fact>): Books {
    if facts == [] then OpeningBooks(o)
    else
      var init, last := facts[..|facts| - 1], facts[|facts| - 1];
      Absorb(o, BooksAfter(o, init), last, Step(o.who, Run(o.who, init).core, last))
  }

  lemma {:induction false} PostInTurn(o: Options, b: Books, x: seq<Entry>, y: seq<Entry>)
    ensures Post(o, b, x + y) == Post(o, Post(o, b, x), y)
    decreases |y|
  {
    if y == [] {
      assert x + y == x;
    } else {
      assert (x + y)[..|x + y| - 1] == x + y[..|y| - 1];
      PostInTurn(o, b, x, y[..|y| - 1]);
    }
  }

  lemma {:induction false} NoteInTurn(o: Options, b: Books, f: Fact, x: seq<Code>, y: seq<Code>)
    ensures Note(o, b, f, x + y) == Note(o, Note(o, b, f, x), f, y)
    decreases |y|
  {
    if y == [] {
      assert x + y == x;
    } else {
      assert (x + y)[..|x + y| - 1] == x + y[..|y| - 1];
      NoteInTurn(o, b, f, x, y[..|y| - 1]);
    }
  }

  /** The entries that pass the window, taken from bookings that know nothing of it. */
  function Reported(o: Options, es: seq<Entry>): seq<Entry> {
    Filter(es, o.Reports)
  }

  // ---------------------------------------------------------------- bonds, fees, payments, gas

  datatype Bond = Bond(amount: nat, settled: bool)

  datatype Tally = Tally(
    bonds: map<Address, Bond>,
    creatorIncome: nat, creatorClaimed: nat,
    bondLocked: int, bondCredited: nat, bondClaimed: nat, bondSlashed: nat,
    paymentIn: nat, paymentOut: nat, gasCost: nat)

  const EMPTY_TALLY := Tally(map[], 0, 0, 0, 0, 0, 0, 0, 0, 0)

  function Release(t: Tally, market: Address): Tally {
    if market in t.bonds then
      t.(bonds := t.bonds[market := t.bonds[market].(settled := true)],
         bondLocked := t.bondLocked - t.bonds[market].amount)
    else t
  }

  predicate BondOpen(t: Tally, market: Address) { market in t.bonds && !t.bonds[market].settled }

  function TallyStep(o: Options, t: Tally, f: Fact): Tally {
    var mine, other, value := f.Mine(o.who), f.Other(o.who), f.Value();
    match f.kind
    case BondLocked =>
      if mine && f.market.Some? then
        t.(bonds := t.bonds[f.market.value := Bond(value, false)], bondLocked := t.bondLocked + value)
      else t
    case BondCredited =>
      if mine && f.market.Some? && (f.market.value in t.bonds ==> BondOpen(t, f.market.value)) then
        Release(t.(bondCredited := t.bondCredited + value), f.market.value)
      else t
    case BondTimeoutFunded =>
      if f.market.Some? && BondOpen(t, f.market.value) then
        Release(t.(bondSlashed := t.bondSlashed + value), f.market.value)
      else t
    case BondClaimed => if mine then t.(bondClaimed := t.bondClaimed + value) else t
    case FeeAccrued =>
      if mine && o.Included(f) && f.extra.creatorFee then t.(creatorIncome := t.creatorIncome + value) else t
    case FeeClaimed => if mine && o.Included(f) then t.(creatorClaimed := t.creatorClaimed + value) else t
    case PaymentTransfer =>
      if !o.Included(f) || (mine && other) then t
      else if mine then t.(paymentOut := t.paymentOut + value)
      else if other then t.(paymentIn := t.paymentIn + value)
      else t
    case UserOperation => if mine && o.Included(f) then t.(gasCost := t.gasCost + value) else t
    case _ => t
  }

  function Tallies(o: Options, facts: seq<Fact>): Tally {
    if facts == [] then EMPTY_TALLY
    else TallyStep(o, Tallies(o, facts[..|facts| - 1]), facts[|facts| - 1])
  }

  // ---------------------------------------------------------------- the report

  datatype LotView = LotView(key: LotKey, units: nat, escrow: nat, knownCost: nat, costComplete: bool)

  datatype Pnl = Pnl(
    realizedNet: Option<int>, knownRealizedNet: int, complete: bool, missingReasons: set<Reason>,
    lots: seq<LotView>, entries: seq<Entry>, tally: Tally)

  function KnownAmountOf(e: Entry): int { e.Amount().GetOr(0) }

  function Known(es: seq<Entry>): int { Sum(es, KnownAmountOf) }

  function HeldLots(o: Options, c: Core): seq<LotKey> {
    Filter(Filter(c.order, o.Selects), c.Holds)
  }

  function View(c: Core, keys: seq<LotKey>): seq<LotView> {
    seq(|keys|, i requires 0 <= i < |keys| =>
      var lot := c.LotAt(keys[i]);
      LotView(keys[i], lot.units, lot.escrow, lot.cost, lot.complete))
  }

  function LotReasons(c: Core, keys: seq<LotKey>): set<Reason> {
    if keys == [] then {}
    else
      var k := keys[|keys| - 1];
      LotReasons(c, keys[..|keys| - 1]) +
      (if c.LotAt(k).complete then {} else {Missing(UnknownAcquisitionCost, Some(k.market))})
  }

  /** What computePnl must return for the processed facts. */
  function Report(o: Options, facts: seq<Fact>): Pnl {
    var ledger := Run(o.who, facts);
    var entries := Reported(o, ledger.bookings);
    var held := HeldLots(o, ledger.core);
    var reasons := BooksAfter(o, facts).reasons + LotReasons(ledger.core, held);
    Pnl(if reasons == {} then Some(Known(entries)) else None, Known(entries), reasons == {}, reasons,
        View(ledger.core, held), entries, Tallies(o, facts))
  }

  function ReportOf(o: Options, input: seq<Fact>): Pnl { Report(o, Processed(o, Sort(input))) }

  /** Filtering at the end or while folding gives the same entries. */
  lemma {:induction false} PostReports(o: Options, b: Books, es: seq<Entry>)
    ensures Post(o, b, es).entries == b.entries + Reported(o, es)
  {
    if es != [] {
      PostReports(o, b, es[..|es| - 1]);
      FilterSingle(es[|es| - 1], o.Reports);
    }
  }

  lemma {:induction false} NoteKeepsEntries(o: Options, b: Books, f: Fact, gaps: seq<Code>)
    ensures Note(o, b, f, gaps).entries == b.entries
    ensures b.reasons <= Note(o, b, f, gaps).reasons
  {
    if gaps != [] { NoteKeepsEntries(o, b, f, gaps[..|gaps| - 1]); }
  }

  /** The entries kept on the way are the bookings of the unrestricted history that fall in the window. */
  lemma {:induction false} WindowSelectsBookings(o: Options, facts: seq<Fact>)
    ensures BooksAfter(o, facts).entries == Reported(o, Run(o.who, facts).bookings)
  {
    if facts != [] {
      var init, last := facts[..|facts| - 1], facts[|facts| - 1];
      var out := Step(o.who, Run(o.who, init).core, last);
      WindowSelectsBookings(o, init);
      NoteKeepsEntries(o, BooksAfter(o, init), last, out.gaps);
      PostReports(o, Note(o, BooksAfter(o, init), last, out.gaps), out.bookings);
      FilterAppend(Run(o.who, init).bookings, out.bookings, o.Reports);
    }
  }

  lemma SeenNext(sorted: seq<Fact>, f: Fact)
    ensures forall id :: Seen(sorted + [f], id) <==> Seen(sorted, id) || id == f.id
  {
    var more := sorted + [f];
    assert forall i :: 0 <= i < |sorted| ==> more[i] == sorted[i];
    assert more[|sorted|] == f;
  }

  /** Taking one more sorted fact adds it, unless it was seen or lies past the end. */
  lemma ProcessedNext(o: Options, sorted: seq<Fact>, f: Fact)
    ensures Processed(o, sorted + [f]) ==
            if Seen(sorted, f.id) || !o.BeforeEnd(f.timestamp) then Processed(o, sorted)
            else Processed(o, sorted) + [f]
  {
    assert (sorted + [f])[..|sorted|] == sorted;
    if !Seen(sorted, f.id) {
      FilterAppend(Distinct(sorted), [f], o.Processes);
      FilterSingle(f, o.Processes);
    }
  }
}
