/**
  A run in which a reconciliation that observed a confirmed block before it was final is applied after another
  has recorded the final settlement: the recorded charges of the week then exceed the lane's limit, although
  every observation was true when it was made and the chain charged almost nothing.
 */
module ProtocolStale {
  import opened Prelude
  import opened Operations
  import opened Calendar
  import opened Budget
  import opened Store
  import opened Protocol

  /** Eleven wei a week for the exposure lane, ten for one operation. */
  const LIMITS := Limits(
    LaneLimit(100, 100, 100, 9, 9, 9), LaneLimit(100, 100, 100, 9, 9, 9), 9, 21, 10, 10)

  function Request(account: nat): Operation {
    Operation(account, 0, 0, 0, account, account, 0, 0, None, None, CreateMarket, None, Exposure, Some(Sponsored), 10,
              0, 0, 100, AwaitingSignature, Pending, None, None, None, None, None, None, Some(false), None, None)
  }

  const SIGNED := UserOp(1, 0, 0, None, None, Some(1), Some(0), Some(0), Some(0), Some(0), Some(10), Some(0), Some(7), Some(0))

  /** The receipt before and after its block became final. */
  const SEEN := Receipt(5, 6, 7, 1, true, true, false, true)
  const PAID := Receipt(5, 6, 7, 1, true, true, true, true)

  const KEY := NonceKey(0, 1, 0)

  const SENT := Request(1).(state := Submitted, userOperationHash := Some(SIGNED), providerOperationId := Some(SIGNED))

  const SETTLED := SENT.(state := Confirmed, finality := Finalized, transactionHash := Some(5), blockNumber := Some(6),
    blockHash := Some(7), actualGasCost := Some(1), gasSettledAt := Some(0))

  const UNSETTLED := SETTLED.(finality := ApplicationConfirmed)

  const RUN := [
    Admit(Request(1)), StartSend(0, 0, SIGNED, 0), AdmitSend(0, 0), SendToNetwork(0, true),
    Execute(KEY, Exec(SIGNED, 1, false, 0)),
    StartRefresh(1, 0), StartRefresh(2, 0), Observe(2, SEEN, 0),
    Finalize(KEY), Observe(1, PAID, 0),
    ApplyRefresh(1, 0), Admit(Request(2)), ApplyRefresh(2, 0)]

  predicate Leads(s: State, step: Step, next: State) { Enabled(LIMITS, s, step) && After(LIMITS, s, step) == next }

  /** States that follow one another, step by step, are a run. */
  lemma {:induction false} RunOf(steps: seq<Step>, states: seq<State>)
    requires |states| == |steps| + 1 && states[0] == INITIAL
    requires forall k :: 0 <= k < |steps| ==> Leads(states[k], steps[k], states[k + 1])
    ensures Run(LIMITS, steps) == Some(states[|steps|])
  {
    hide Enabled, After;
    if steps != [] {
      RunOf(steps[..|steps| - 1], states[..|steps|]);
      assert Leads(states[|steps| - 1], steps[|steps| - 1], states[|steps|]);
    }
  }

  const S1 := State(Db([Request(1)], map[]), map[], {}, [], map[])
  const S2 := S1.(procs := map[0 := Sending(0, SIGNED)])
  const S3 := State(Db([SENT], map[]), map[0 := SendAdmitted(0, SIGNED)], {}, [], map[])
  const S4 := State(Db([SENT], map[]), map[], {}, [Send(0, SIGNED)], map[])
  const S5 := S4.(chain := map[KEY := Exec(SIGNED, 1, false, 0)])
  const S6 := S5.(procs := map[1 := Refreshing(0, SENT)])
  const S7 := S5.(procs := map[1 := Refreshing(0, SENT), 2 := Refreshing(0, SENT)])
  const S8 := S5.(procs := map[1 := Refreshing(0, SENT), 2 := Observed(0, SENT, SEEN)])
  const S9 := S8.(chain := map[KEY := Exec(SIGNED, 1, true, 0)])
  const S10 := S9.(procs := map[1 := Observed(0, SENT, PAID), 2 := Observed(0, SENT, SEEN)])
  const S11 := S9.(db := Db([SETTLED], map[]), procs := map[2 := Observed(0, SENT, SEEN)])
  const S12 := S11.(db := Db([SETTLED, Request(2)], map[]))
  const S13 := S9.(db := Db([UNSETTLED, Request(2)], map[]), procs := map[])

  lemma SignedIsBound()
    ensures Bound(Request(1), SIGNED) && WithinCeiling(Request(1), SIGNED, true) && SIGNED.MaxCost() == 10
    ensures Bound(SENT, SIGNED)
  {
  }

  lemma AdmittedAlone(rows: seq<Operation>, o: Operation)
    requires o.session.None? && AssertQuota(Loaded(rows, o.createdAt), o, LIMITS).None?
    requires forall v :: v in rows ==> v.key != o.key || v.subject != o.subject
    ensures Admitted(Db(rows, map[]), o, LIMITS).0 == Db(rows + [o], map[])
  {
    hide AssertQuota, Loaded;
    var prior := FindKey(rows, o.subject, o.key);
    assert forall i :: 0 <= i < |rows| ==> rows[i].key != o.key || rows[i].subject != o.subject;
  }

  lemma AdmissionLeads(s: State, o: Operation, next: State)
    requires Registered(o, LIMITS) && Admitted(s.db, o, LIMITS).0 == next.db && next == s.(db := next.db)
    ensures Leads(s, Admit(o), next)
  {
    hide Admitted, Registered;
  }

  lemma NothingIsCharged(o: Operation)
    requires o.createdAt == 0 && !o.IsSelfFunded() && o.intent == CreateMarket && o.maxGasCost == 10 && o.lane == Exposure
    ensures AssertQuota(Loaded([], 0), o, LIMITS).None?
  {
    hide WeeklyBudgetWindow, QuotaHistoryStart;
    assert Loaded([], 0) == [];
    assert forall g :: Members([], g) == [];
  }

  /** Groups over one settled row of another account charge at most the one wei it cost. */
  lemma OneIsCharged(g: Group)
    ensures |Members([SETTLED], g)| <= 1 && Charged([SETTLED], g) <= 1
  {
    hide Group.Holds;
    FilterSingle(SETTLED, g.Holds);
    SumSingle(SETTLED, BudgetCharges([SETTLED]).Of);
  }

  lemma SettledIsLoaded()
    ensures Loaded([SETTLED], 0) == [SETTLED]
  {
    ModernTimesAreRead(0);
    WeekContains(0);
    hide WeeklyBudgetWindow, WeekStart;
    var h := History(QuotaHistoryStart(0));
    assert DayOf(0) == 0;
    assert h.Loads(SETTLED);
    FilterSingle(SETTLED, h.Loads);
  }

  lemma SecondFits()
    ensures AssertQuota(Loaded([SETTLED], 0), Request(2), LIMITS).None?
  {
    hide Members, Charged, WeeklyBudgetWindow, QuotaHistoryStart, Loaded;
    SettledIsLoaded();
    var o := Request(2);
    assert forall v :: v in [SETTLED] ==> !Blocks(v, o);
    OneIsCharged(CountedWeek(Exposure, WeeklyBudgetWindow(0)));
    OneIsCharged(OfDay(Exposure, DayOf(0)));
    OneIsCharged(OfDayAccount(Exposure, DayOf(0), 2));
    OneIsCharged(OfDaySubject(Exposure, DayOf(0), 2));
    OneIsCharged(OfDayAccountKind(Exposure, DayOf(0), 2, CreateMarket));
    OneIsCharged(OfDaySubjectKind(Exposure, DayOf(0), 2, CreateMarket));
  }

  lemma RequestIsRegistered(account: nat)
    ensures Registered(Request(account), LIMITS)
  {
  }

  lemma FirstAdmission()
    ensures Leads(INITIAL, Admit(Request(1)), S1)
  {
    hide Leads, Admitted, Registered, AssertQuota, Loaded;
    RequestIsRegistered(1);
    NothingIsCharged(Request(1));
    AdmittedAlone([], Request(1));
    AdmissionLeads(INITIAL, Request(1), S1);
  }

  lemma SendStarts()
    ensures Leads(S1, StartSend(0, 0, SIGNED, 0), S2)
  {
    SignedIsBound();
    assert DayOf(0) == 0;
    hide Bound, WithinCeiling, DayOf, DbAfter;
  }

  lemma SendIsAdmitted()
    ensures Leads(S2, AdmitSend(0, 0), S3)
  {
    hide Bound, WithinCeiling, DayOf;
  }

  lemma SendIsDelivered()
    ensures Leads(S3, SendToNetwork(0, true), S4)
  {
  }

  lemma Executes()
    ensures Leads(S4, Execute(KEY, Exec(SIGNED, 1, false, 0)), S5)
  {
    SignedIsBound();
    hide Bound, WithinCeiling, UserOp.MaxCost;
  }

  lemma OneReads()
    ensures Leads(S5, StartRefresh(1, 0), S6)
  {
  }

  lemma AnotherReads()
    ensures Leads(S6, StartRefresh(2, 0), S7)
  {
  }

  lemma ConfirmationIsObserved()
    ensures Leads(S7, Observe(2, SEEN, 0), S8)
  {
  }

  lemma Finalizes()
    ensures Leads(S8, Finalize(KEY), S9)
  {
  }

  lemma FinalityIsObserved()
    ensures Leads(S9, Observe(1, PAID, 0), S10)
  {
  }

  lemma OneSettles()
    ensures Leads(S10, ApplyRefresh(1, 0), S11)
  {
  }

  lemma SecondAdmission()
    ensures Leads(S11, Admit(Request(2)), S12)
  {
    hide Leads, Admitted, Registered, AssertQuota, Loaded;
    RequestIsRegistered(2);
    SecondFits();
    AdmittedAlone([SETTLED], Request(2));
    AdmissionLeads(S11, Request(2), S12);
  }

  lemma TheOtherUnsettles()
    ensures Leads(S12, ApplyRefresh(2, 0), S13)
  {
  }

  lemma TheRunIsPossible()
    ensures Run(LIMITS, RUN) == Some(S13)
  {
    FirstAdmission();
    SendStarts();
    SendIsAdmitted();
    SendIsDelivered();
    Executes();
    OneReads();
    AnotherReads();
    ConfirmationIsObserved();
    Finalizes();
    FinalityIsObserved();
    OneSettles();
    SecondAdmission();
    TheOtherUnsettles();
    hide Leads, Run;
    RunOf(RUN, [INITIAL, S1, S2, S3, S4, S5, S6, S7, S8, S9, S10, S11, S12, S13]);
  }

  /** The week's charges end at 20 wei of 11. */
  lemma StaleRefreshBreaksTheWeek()
    ensures Run(LIMITS, RUN).Some?
    ensures var rows, week := Run(LIMITS, RUN).value.db.rows, CreatedWeek(Exposure, WeeklyBudgetWindow(0));
            Charged(rows, week) == 20 && 20 > WeeklyLaneLimit(LIMITS, Exposure)
  {
    TheRunIsPossible();
    LastCharges();
    hide Run, Charged, WeeklyBudgetWindow;
  }

  lemma LastCharges()
    ensures Charged([UNSETTLED, Request(2)], CreatedWeek(Exposure, WeeklyBudgetWindow(0))) == 20
  {
    hide WeeklyBudgetWindow;
    var g, rows := CreatedWeek(Exposure, WeeklyBudgetWindow(0)), [UNSETTLED, Request(2)];
    BothAreCreated();
    hide Group.Holds;
    BothAreReserved(rows);
    hide BudgetCharges;
    SumOfTwo(UNSETTLED, Request(2), g.Holds, BudgetCharges(rows).Of);
  }

  lemma BothAreCreated()
    ensures var g := CreatedWeek(Exposure, WeeklyBudgetWindow(0)); g.Holds(UNSETTLED) && g.Holds(Request(2))
  {
    CreatedThisWeek(UNSETTLED);
    CreatedThisWeek(Request(2));
    hide WeeklyBudgetWindow, Group.Holds;
  }

  lemma CreatedThisWeek(o: Operation)
    requires o.createdAt >= 0 && !o.IsSelfFunded()
    ensures CreatedWeek(o.lane, WeeklyBudgetWindow(o.createdAt)).Holds(o)
  {
    ModernTimesAreRead(o.createdAt);
    WeekContains(o.createdAt);
    hide WeeklyBudgetWindow, WeekStart;
  }

  lemma SumOfTwo(a: Operation, b: Operation, keep: Operation -> bool, f: Operation -> int)
    requires keep(a) && keep(b)
    ensures Sum(Filter([a, b], keep), f) == f(a) + f(b)
  {
    assert [a, b][..1] == [a];
    FilterSingle(a, keep);
    FilteredSumLast([a, b], f, keep);
    SumSingle(a, f);
  }

  lemma BothAreReserved(rows: seq<Operation>)
    ensures BudgetCharges(rows).Of(UNSETTLED) == 10 && BudgetCharges(rows).Of(Request(2)) == 10
  {
  }
}
