/** Scores of all accounts over a period: per-market sums, exclusions, order and tied ranks. */
module Leaderboard {
  import opened Prelude
  import opened PnlModel
  import opened PnlReport
  import opened PnlReducer
  import opened PnlConservation
  import opened PnlWindows

  datatype Account = Account(address: Address, controller: Address)

  datatype Window = Window(market: Address, startsAt: int)

  datatype Period = Period(markets: seq<Window>, endsAt: int)

  datatype Context = Context(
    period: Period, facts: seq<Fact>, creators: map<Address, Address>, controls: map<Address, Address>,
    complete: set<Address>)

  datatype Score = Score(account: Address, net: int, marketCount: nat)

  datatype Exclusion = Exclusion(account: Address, reasons: set<Reason>)

  datatype Ranked = Ranked(score: Score, rank: nat)

  /** Nobody scores on a market that they, or their controller, created. */
  predicate Eligible(x: Context, a: Account, w: Window) {
    w.market in x.creators &&
    var creator := x.creators[w.market];
    var control := if creator in x.controls then x.controls[creator] else creator;
    creator != a.address && control != a.controller && control != a.address
  }

  predicate Takes(f: Fact, a: Account, w: Window, endsAt: int) {
    && f.kind in {PrimaryBuy, ListingFilled, ShareTransfer, WinnerClaimed, EarlyBirdClaimed, Refunded, TimeoutClaimed}
    && f.timestamp < endsAt
    && f.market == Some(w.market)
    && (f.Mine(a.address) || f.Other(a.address))
  }

  predicate Participates(x: Context, a: Account, w: Window) {
    exists i :: 0 <= i < |x.facts| && Takes(x.facts[i], a, w, x.period.endsAt)
  }

  datatype Selection = Selection(x: Context, a: Account) {
    predicate Scores(w: Window) { Eligible(x, a, w) && Participates(x, a, w) }
  }

  function Participated(x: Context, a: Account): seq<Window> {
    Filter(x.period.markets, Selection(x, a).Scores)
  }

  function MarketOptions(x: Context, a: Account, w: Window): Options {
    Options(a.address, a.address in x.complete, Some(w.startsAt), Some(x.period.endsAt), Some({w.market}))
  }

  function MarketReport(x: Context, a: Account, w: Window): Pnl {
    ReportOf(MarketOptions(x, a, w), x.facts)
  }

  function Total(x: Context, a: Account, ws: seq<Window>): int {
    if ws == [] then 0
    else Total(x, a, ws[..|ws| - 1]) + MarketReport(x, a, ws[|ws| - 1]).knownRealizedNet
  }

  function Doubts(x: Context, a: Account, ws: seq<Window>): set<Reason> {
    if ws == [] then {}
    else Doubts(x, a, ws[..|ws| - 1]) + MarketReport(x, a, ws[|ws| - 1]).missingReasons
  }

  /** The accounts with a clean score, in account order. */
  function Scored(x: Context, accounts: seq<Account>): seq<Score> {
    if accounts == [] then []
    else
      var a := accounts[|accounts| - 1];
      var ws := Participated(x, a);
      Scored(x, accounts[..|accounts| - 1]) +
      (if ws != [] && Doubts(x, a, ws) == {} then [Score(a.address, Total(x, a, ws), |ws|)] else [])
  }

  /** The accounts whose participation could not be scored with certainty. */
  function Excluded(x: Context, accounts: seq<Account>): seq<Exclusion> {
    if accounts == [] then []
    else
      var a := accounts[|accounts| - 1];
      var ws := Participated(x, a);
      Excluded(x, accounts[..|accounts| - 1]) +
      (if ws != [] && Doubts(x, a, ws) != {} then [Exclusion(a.address, Doubts(x, a, ws))] else [])
  }

  /** Higher results first, equal results by account. */
  predicate Ahead(a: Score, b: Score) { a.net > b.net || (a.net == b.net && a.account < b.account) }

  predicate NamedBefore(a: Exclusion, b: Exclusion) { a.account < b.account }

  /** How many scores beat a result. */
  function Better(xs: seq<Score>, net: int): nat {
    if xs == [] then 0 else Better(xs[..|xs| - 1], net) + if xs[|xs| - 1].net > net then 1 else 0
  }

  lemma {:induction false} AllBetter(xs: seq<Score>, net: int)
    requires forall i :: 0 <= i < |xs| ==> xs[i].net > net
    ensures Better(xs, net) == |xs|
  {
    if xs != [] { AllBetter(xs[..|xs| - 1], net); }
  }

  lemma {:induction false} BetterStops(xs: seq<Score>, n: nat, net: int)
    requires n <= |xs| && forall i :: n <= i < |xs| ==> xs[i].net <= net
    ensures Better(xs, net) == Better(xs[..n], net)
    decreases |xs|
  {
    if n < |xs| {
      BetterStops(xs[..|xs| - 1], n, net);
      assert xs[..|xs| - 1][..n] == xs[..n];
    } else {
      assert xs[..n] == xs;
    }
  }

  /** Rank every score of a sorted list; equal results share the rank of the first of them. */
  method Rank(values: seq<Score>) returns (entries: seq<Ranked>)
    requires SortedBy(Ahead, values)
    ensures |entries| == |values|
    ensures forall i :: 0 <= i < |values| ==>
              entries[i].score == values[i] && entries[i].rank == 1 + Better(values, values[i].net)
  {
    entries := [];
    var rank := 1;
    for i := 0 to |values|
      invariant |entries| == i
      invariant i > 0 ==> rank == 1 + Better(values, values[i - 1].net)
      invariant i == 0 ==> rank == 1
      invariant forall j :: 0 <= j < i ==>
                  entries[j].score == values[j] && entries[j].rank == 1 + Better(values, values[j].net)
    {
      if i > 0 && values[i].net != values[i - 1].net {
        rank := i + 1;
        assert values[i - 1].net > values[i].net by { assert !Ahead(values[i], values[i - 1]); }
        forall j | 0 <= j < i ensures values[j].net > values[i].net {
          assert j < i - 1 ==> !Ahead(values[i - 1], values[j]);
        }
        AllBetter(values[..i], values[i].net);
        TailIsNotBetter(values, i);
      }
      if i == 0 {
        AllBetter([], values[0].net);
        TailIsNotBetter(values, 0);
      }
      entries := entries + [Ranked(values[i], rank)];
    }
  }

  lemma TailIsNotBetter(values: seq<Score>, i: nat)
    requires SortedBy(Ahead, values) && i < |values|
    ensures Better(values, values[i].net) == Better(values[..i], values[i].net)
  {
    forall j | i <= j < |values| ensures values[j].net <= values[i].net {
      assert j > i ==> !Ahead(values[j], values[i]);
    }
    BetterStops(values, i, values[i].net);
  }

  lemma OnlyDoubtsPreventCompleteness(x: Context, a: Account, w: Window)
    ensures MarketReport(x, a, w).complete <==> MarketReport(x, a, w).missingReasons == {}
  {
    hide Sort, Processed, Run, BooksAfter;
  }

  method ScoreMarkets(x: Context, a: Account, ws: seq<Window>) returns (total: int, reasons: set<Reason>)
    ensures total == Total(x, a, ws) && reasons == Doubts(x, a, ws)
  {
    hide Report, Sort, Processed;
    total, reasons := 0, {};
    for i := 0 to |ws|
      invariant total == Total(x, a, ws[..i]) && reasons == Doubts(x, a, ws[..i])
    {
      assert ws[..i + 1][..i] == ws[..i];
      var pnl := ComputePnl(MarketOptions(x, a, ws[i]), x.facts);
      OnlyDoubtsPreventCompleteness(x, a, ws[i]);
      if !pnl.complete { reasons := reasons + pnl.missingReasons; }
      total := total + pnl.knownRealizedNet;
    }
    assert ws[..|ws|] == ws;
  }

  /** The account's controllers, later accounts overriding earlier ones. */
  function Controls(accounts: seq<Account>): map<Address, Address> {
    if accounts == [] then map[]
    else
      var a := accounts[|accounts| - 1];
      Controls(accounts[..|accounts| - 1])[a.address := a.controller]
  }

  /**
    Every participating account is either excluded with its reasons or listed with the sum of its
    per-market results; the list is in order, and a rank is one more than the number of better results.
   */
  method ScoreLeaderboard(period: Period, accounts: seq<Account>, facts: seq<Fact>,
                          creators: map<Address, Address>, complete: set<Address>)
    returns (entries: seq<Ranked>, excluded: seq<Exclusion>)
    ensures var x := Context(period, facts, creators, Controls(accounts), complete);
            && |entries| == |Scored(x, accounts)|
            && multiset(seq(|entries|, i requires 0 <= i < |entries| => entries[i].score)) == multiset(Scored(x, accounts))
            && SortedBy(Ahead, seq(|entries|, i requires 0 <= i < |entries| => entries[i].score))
            && (forall i :: 0 <= i < |entries| ==>
                  entries[i].rank == 1 + Better(SortBy(Ahead, Scored(x, accounts)), entries[i].score.net))
            && multiset(excluded) == multiset(Excluded(x, accounts)) && SortedBy(NamedBefore, excluded)
    ensures forall i, j :: 0 <= i < j < |entries| ==>
              var a, b := entries[i].score, entries[j].score;
              a.net > b.net || (a.net == b.net && a.account <= b.account)
    ensures forall i, j :: 0 <= i < j < |excluded| ==> excluded[i].account <= excluded[j].account
  {
    hide Participated, Total, Doubts;
    var x := Context(period, facts, creators, Controls(accounts), complete);
    var values: seq<Score> := [];
    excluded := [];
    for i := 0 to |accounts|
      invariant values == Scored(x, accounts[..i]) && excluded == Excluded(x, accounts[..i])
    {
      assert accounts[..i + 1][..i] == accounts[..i];
      var a := accounts[i];
      var participated := Participated(x, a);
      if participated == [] { continue; }
      var total, reasons := ScoreMarkets(x, a, participated);
      if reasons != {} {
        excluded := excluded + [Exclusion(a.address, reasons)];
      } else {
        values := values + [Score(a.address, total, |participated|)];
      }
    }
    assert accounts[..|accounts|] == accounts;
    SortSorts(Ahead, values);
    SortSorts(NamedBefore, excluded);
    var sorted := SortBy(Ahead, values);
    entries := Rank(sorted);
    excluded := SortBy(NamedBefore, excluded);
    assert seq(|entries|, i requires 0 <= i < |entries| => entries[i].score) == sorted;
    SortedScores(sorted);
    SortedExclusions(excluded);
  }

  lemma SortedScores(xs: seq<Score>)
    requires SortedBy(Ahead, xs)
    ensures forall i, j :: 0 <= i < j < |xs| ==> xs[i].net > xs[j].net || (xs[i].net == xs[j].net && xs[i].account <= xs[j].account)
  {
    forall i, j | 0 <= i < j < |xs|
      ensures xs[i].net > xs[j].net || (xs[i].net == xs[j].net && xs[i].account <= xs[j].account)
    {
      assert !Ahead(xs[j], xs[i]);
    }
  }

  lemma SortedExclusions(xs: seq<Exclusion>)
    requires SortedBy(NamedBefore, xs)
    ensures forall i, j :: 0 <= i < j < |xs| ==> xs[i].account <= xs[j].account
  {
    forall i, j | 0 <= i < j < |xs| ensures xs[i].account <= xs[j].account { assert !NamedBefore(xs[j], xs[i]); }
  }

  // ---------------------------------------------------------------- who is scored on what

  /** Who controls an address: the controller of the last account with it, or else itself. */
  function ControllerOf(accounts: seq<Account>, address: Address): Address {
    if accounts == [] then address
    else if accounts[|accounts| - 1].address == address then accounts[|accounts| - 1].controller
    else ControllerOf(accounts[..|accounts| - 1], address)
  }

  lemma {:induction false} ControlsAre(accounts: seq<Account>, address: Address)
    ensures ControllerOf(accounts, address)
            == if address in Controls(accounts) then Controls(accounts)[address] else address
  {
    if accounts != [] { ControlsAre(accounts[..|accounts| - 1], address); }
  }

  /** An own or received trade, claim, refund or bonus on the market before the end of the period. */
  predicate TookPart(f: Fact, address: Address, market: Address, endsAt: int) {
    && (f.owner == Some(address) || f.counterparty == Some(address))
    && f.market == Some(market) && f.timestamp < endsAt
    && (f.kind == PrimaryBuy || f.kind == ListingFilled || f.kind == ShareTransfer || f.kind == WinnerClaimed
        || f.kind == EarlyBirdClaimed || f.kind == Refunded || f.kind == TimeoutClaimed)
  }

  /**
    An account is scored on the markets of the period in which it took part and whose creator is known and
    neither the account itself nor controlled by it or by its controller.
   */
  lemma ScoredOnExactly(period: Period, accounts: seq<Account>, facts: seq<Fact>, creators: map<Address, Address>,
                        complete: set<Address>, a: Account, w: Window)
    ensures var x := Context(period, facts, creators, Controls(accounts), complete);
            w in Participated(x, a) <==>
              && w in period.markets && w.market in creators && creators[w.market] != a.address
              && ControllerOf(accounts, creators[w.market]) !in {a.address, a.controller}
              && exists f :: f in facts && TookPart(f, a.address, w.market, period.endsAt)
  {
    var x := Context(period, facts, creators, Controls(accounts), complete);
    FilterMembers(period.markets, Selection(x, a).Scores);
    if w.market in creators { ControlsAre(accounts, creators[w.market]); }
    assert forall f :: Takes(f, a, w, period.endsAt) <==> TookPart(f, a.address, w.market, period.endsAt);
    hide Takes, TookPart;
    if f :| f in facts && TookPart(f, a.address, w.market, period.endsAt) {
      var i :| 0 <= i < |facts| && facts[i] == f;
      assert Participates(x, a, w);
    }
  }

  datatype MarketNets = MarketNets(x: Context, a: Account) {
    function Of(w: Window): int { MarketReport(x, a, w).realizedNet.GetOr(0) }
  }

  /** All markets of an account are reported with certainty. */
  predicate Certain(x: Context, a: Account) {
    forall w :: w in Participated(x, a) ==> MarketReport(x, a, w).complete
  }

  lemma {:induction false} DoubtsAre(x: Context, a: Account, ws: seq<Window>)
    ensures Doubts(x, a, ws) == {} <==> forall w :: w in ws ==> MarketReport(x, a, w).complete
    ensures Doubts(x, a, ws) == {} ==> Total(x, a, ws) == Sum(ws, MarketNets(x, a).Of)
  {
    if ws != [] {
      hide MarketReport;
      var init, w := ws[..|ws| - 1], ws[|ws| - 1];
      assert ws == init + [w];
      DoubtsAre(x, a, init);
      OnlyDoubtsPreventCompleteness(x, a, w);
      CompleteIsKnown(x, a, w);
    }
  }

  lemma CompleteIsKnown(x: Context, a: Account, w: Window)
    ensures var p := MarketReport(x, a, w); p.complete ==> p.realizedNet == Some(p.knownRealizedNet)
  {
    hide Sort, Processed, Run, BooksAfter;
  }

  /**
    A score is listed exactly for each account that took part and whose markets are all certain: the sum of their
    net results. The other accounts that took part are excluded for the reasons of their markets.
   */
  lemma {:induction false} ListedOrExcluded(x: Context, accounts: seq<Account>)
    ensures forall s :: s in Scored(x, accounts) <==>
              exists a :: a in accounts && Participated(x, a) != [] && Certain(x, a)
                && s == Score(a.address, Sum(Participated(x, a), MarketNets(x, a).Of), |Participated(x, a)|)
    ensures forall e :: e in Excluded(x, accounts) <==>
              exists a :: a in accounts && Participated(x, a) != [] && !Certain(x, a)
                && e == Exclusion(a.address, Doubts(x, a, Participated(x, a)))
  {
    if accounts != [] {
      hide Participated, Doubts, Total;
      var init, a := accounts[..|accounts| - 1], accounts[|accounts| - 1];
      assert forall b: Account :: b in accounts <==> b in init || b == a by { assert accounts == init + [a]; }
      hide Certain;
      ListedOrExcluded(x, init);
      CertainIs(x, a);
    }
  }

  lemma CertainIs(x: Context, a: Account)
    ensures Certain(x, a) <==> Doubts(x, a, Participated(x, a)) == {}
    ensures Certain(x, a) ==> Total(x, a, Participated(x, a)) == Sum(Participated(x, a), MarketNets(x, a).Of)
  {
    hide Participated, Doubts, MarketReport;
    DoubtsAre(x, a, Participated(x, a));
  }

  // ---------------------------------------------------------------- meaning of the total

  function MarketsOf(ws: seq<Window>): seq<Address> { seq(|ws|, i requires 0 <= i < |ws| => ws[i].market) }

  /** A market is scored on the same facts, whatever other markets are asked for. */
  lemma MarketNet(x: Context, a: Account, o: Options, w: Window)
    requires o.who == a.address && o.coverageComplete == (a.address in x.complete)
    requires o.until == Some(x.period.endsAt) && o.from == Some(w.startsAt)
    ensures MarketReport(x, a, w) == Report(o.(markets := Some({w.market})), Processed(o, Sort(x.facts)))
  {
    hide Report, Sort, Distinct, Filter;
    assert MarketOptions(x, a, w) == o.(markets := Some({w.market}));
    SameProcessing(Distinct(Sort(x.facts)), o, MarketOptions(x, a, w));
  }

  lemma {:induction false} TotalIsNetOfEach(x: Context, a: Account, o: Options, ws: seq<Window>)
    requires o.who == a.address && o.coverageComplete == (a.address in x.complete) && o.until == Some(x.period.endsAt)
    requires forall i :: 0 <= i < |ws| ==> Some(ws[i].startsAt) == o.from
    ensures Total(x, a, ws) == NetOfEach(o, MarketsOf(ws), Processed(o, Sort(x.facts)))
  {
    hide Report, Sort, Processed, MarketReport;
    if ws != [] {
      var init, w := ws[..|ws| - 1], ws[|ws| - 1];
      TotalIsNetOfEach(x, a, o, init);
      assert MarketsOf(ws)[..|ws| - 1] == MarketsOf(init);
      MarketNet(x, a, o, w);
    }
  }

  /**
    When all windows start together, an account's total is the known result of one report
    over all its markets at once.
   */
  lemma TotalIsOneReport(x: Context, a: Account, ws: seq<Window>, from: int)
    requires NoDuplicates(MarketsOf(ws)) && forall i :: 0 <= i < |ws| ==> ws[i].startsAt == from
    ensures Total(x, a, ws) ==
            ReportOf(Options(a.address, a.address in x.complete, Some(from), Some(x.period.endsAt),
                             Some(Members(MarketsOf(ws)))), x.facts).knownRealizedNet
  {
    hide Report, Sort, Distinct, Total, NetOfEach;
    var o := Options(a.address, a.address in x.complete, Some(from), Some(x.period.endsAt), Some(Members(MarketsOf(ws))));
    TotalIsNetOfEach(x, a, o, ws);
    KnownNetIsAdditiveInMarkets(o, MarketsOf(ws), Processed(o, Sort(x.facts)));
  }
}
