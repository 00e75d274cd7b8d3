/**
  The recorded charges, as reports and admission see them. They stay within the caps exactly as long as
  no reconciliation overwrites a final settlement; one that read its record before the settlement can.
 */
module ProtocolCharges {
  import opened Prelude
  import opened Operations
  import opened Calendar
  import opened Budget
  import opened Store
  import opened Protocol
  import opened ProtocolSafety
  import opened ProtocolBudget

  /** The step replaces a final settlement by something less. */
  predicate Unsettles(limits: Limits, s: State, step: Step) {
    Enabled(limits, s, step) && Wins(limits, s, step)
    && var c := Attempt(limits, s, step).value;
       HasFinalGas(s.db.rows[c.id]) && !HasFinalGas(ApplyPatch(s.db.rows[c.id], c.patch))
  }

  /** Only a reconciliation can, and only one whose reading is older than the settlement. */
  lemma OnlyStaleRefreshesUnsettle(limits: Limits, s: State, step: Step)
    requires Unsettles(limits, s, step)
    ensures step.ApplyRefresh?
    ensures s.procs[step.pid].facts.Expired? || s.procs[step.pid].seen.finality != Finalized ==>
              s.procs[step.pid].seen != s.db.rows[s.procs[step.pid].id]
  {
    hide Admissible, IsPolicyCandidate, Bound, WithinCeiling, Registered, Observable, DayOf, Executable;
  }

  /** And exactly which do: one that found the receipt gone, or anything less than a final receipt with its deposit verified. */
  lemma UnsettlesExactly(limits: Limits, s: State, step: Step)
    requires Enabled(limits, s, step) && Wins(limits, s, step)
    requires HasFinalGas(s.db.rows[Attempt(limits, s, step).value.id])
    ensures Unsettles(limits, s, step)
            <==> step.ApplyRefresh?
                 && var facts := s.procs[step.pid].facts;
                    facts.Gone? || (facts.Receipt? && !(facts.enough && facts.final && facts.depositVerified))
  {
    hide Admissible, IsPolicyCandidate, Bound, WithinCeiling, Registered, Observable, DayOf, Executable;
  }

  /** What a reconciliation has observed, it observed of a record that was not final. */
  ghost predicate ReadingsOk(s: State) {
    forall pid :: pid in s.procs && s.procs[pid].Observed? ==>
      s.procs[pid].facts.Expired? || s.procs[pid].seen.finality != Finalized
  }

  lemma ReadingsStep(limits: Limits, s: State, step: Step)
    requires ReadingsOk(s) && Enabled(limits, s, step)
    ensures ReadingsOk(After(limits, s, step))
  {
    hide Admissible, IsPolicyCandidate, Bound, WithinCeiling, Registered, DayOf, Executable, DbAfter, ChainAfter, Wins;
  }

  lemma {:induction false} ReadingsAlways(limits: Limits, steps: seq<Step>)
    requires Run(limits, steps).Some?
    ensures ReadingsOk(Run(limits, steps).value)
  {
    hide Enabled, After;
    if steps != [] {
      ReadingsAlways(limits, steps[..|steps| - 1]);
      ReadingsStep(limits, Run(limits, steps[..|steps| - 1]).value, steps[|steps| - 1]);
    }
  }

  // ---------------------------------------------------------------- one step

  lemma FinalityLasts(limits: Limits, s: State, step: Step, i: nat)
    requires Inv(s) && Enabled(limits, s, step) && !Unsettles(limits, s, step)
    requires i < |s.db.rows| && HasFinalGas(s.db.rows[i])
    ensures var next := After(limits, s, step); i < |next.db.rows| && HasFinalGas(next.db.rows[i])
  {
    hide Enabled, After, HasFinalGas, Attempt, ApplyPatch;
    InvHasRows(s);
    RowsStep(limits, s, step);
    AttemptWrites(limits, s, step);
    if step.Restart? {
      RestartIsSilent(limits, s, step);
      RestartKeepsFinality(s.db.rows[i]);
    }
    hide Inv;
  }

  lemma FinalsGrow(limits: Limits, s: State, step: Step)
    requires Inv(s) && Enabled(limits, s, step) && !Unsettles(limits, s, step)
    ensures FinalNonces(s.db.rows) <= FinalNonces(After(limits, s, step).db.rows)
  {
    hide Enabled, After, HasFinalGas, Inv, Unsettles;
    var next := After(limits, s, step);
    InvHasRows(s);
    RowsStep(limits, s, step);
    forall key | key in FinalNonces(s.db.rows) ensures key in FinalNonces(next.db.rows) {
      var i :| 0 <= i < |s.db.rows| && HasFinalGas(s.db.rows[i]) && KeyOf(s.db.rows[i]) == key;
      FinalityLasts(limits, s, step, i);
      assert next.db.rows[i] in next.db.rows && KeyOf(next.db.rows[i]) == key;
    }
  }

  /** A row's charge cannot rise while its settlement lasts and more nonces become final. */
  lemma ChargeFalls(a: Operation, b: Operation, few: set<NonceKey>, many: set<NonceKey>, chain: Chain, next: Chain)
    requires RowValid(b) && Evolves(a, b) && few <= many && ChainGrows(chain, next)
    requires FinalTrue(a, chain) && FinalTrue(b, next) && (HasFinalGas(a) ==> HasFinalGas(b))
    requires HasFinalGas(b) ==> b.actualGasCost.value <= b.maxGasCost
    ensures Charges(many).Of(b) <= Charges(few).Of(a)
  {
    hide Bound, WithinCeiling;
  }

  lemma FinalCostIsBounded(s: State, i: nat)
    requires Inv(s) && i < |s.db.rows| && HasFinalGas(s.db.rows[i])
    ensures s.db.rows[i].actualGasCost.value <= s.db.rows[i].maxGasCost
  {
    assert FinalTrue(s.db.rows[i], s.chain) && RowValid(s.db.rows[i]);
    hide Bound, ProcsOk, SendsOk, GrantsOk, RowsOk, FinalsTrue, Backed;
  }

  lemma RecordedFalls(limits: Limits, s: State, step: Step, i: nat)
    requires Inv(s) && Enabled(limits, s, step) && !Unsettles(limits, s, step) && i < |s.db.rows|
    ensures var next := After(limits, s, step);
            i < |next.db.rows| && BudgetCharges(next.db.rows).Of(next.db.rows[i]) <= BudgetCharges(s.db.rows).Of(s.db.rows[i])
  {
    hide Enabled, After, Unsettles, HasFinalGas, RowValid, Evolves, ChainGrows, ProcsOk, SendsOk, GrantsOk, ChainOk,
      FinalTrue, Charges.Of;
    var next := After(limits, s, step);
    RowsStep(limits, s, step);
    ChainStep(limits, s, step);
    InvStep(limits, s, step);
    FinalsGrow(limits, s, step);
    if HasFinalGas(s.db.rows[i]) { FinalityLasts(limits, s, step, i); }
    if HasFinalGas(next.db.rows[i]) { FinalCostIsBounded(next, i); }
    ChargeFalls(s.db.rows[i], next.db.rows[i], FinalNonces(s.db.rows), FinalNonces(next.db.rows), s.chain, next.chain);
  }

  /** Exactly when a step raises what its own row is charged: it unsettles a sponsored row that cost less than its ceiling. */
  lemma ChargeRisesExactlyWhenUnsettled(limits: Limits, s: State, step: Step, finals: set<NonceKey>)
    requires Inv(s) && Enabled(limits, s, step) && Wins(limits, s, step)
    ensures var i := Attempt(limits, s, step).value.id;
            var a, b := s.db.rows[i], After(limits, s, step).db.rows[i];
            Charges(finals).Of(b) > Charges(finals).Of(a)
            <==> Unsettles(limits, s, step) && !a.IsSelfFunded() && a.actualGasCost.value < a.maxGasCost
  {
    hide Enabled, After, Attempt, ApplyPatch, HasFinalGas, ProcsOk, SendsOk, GrantsOk, ChainOk, FinalTrue, Evolves,
      RowValid, ChainGrows, FinalsTrue, RowsOk, Charges.Of;
    var c, next := Attempt(limits, s, step).value, After(limits, s, step);
    AttemptWrites(limits, s, step);
    var a, b := s.db.rows[c.id], next.db.rows[c.id];
    if Unsettles(limits, s, step) {
      UnsettledRow(a, b, c.patch, finals);
    } else {
      InvHasRows(s);
      RowsStep(limits, s, step);
      ChainStep(limits, s, step);
      InvStep(limits, s, step);
      RowFacts(s, c.id);
      RowFacts(next, c.id);
      if HasFinalGas(b) { FinalCostIsBounded(next, c.id); }
      RowsDoEvolve(s.db.rows, next.db.rows, c.id);
      ChargeFalls(a, b, finals, finals, s.chain, next.chain);
    }
  }

  lemma RowsDoEvolve(a: seq<Operation>, b: seq<Operation>, i: nat)
    requires RowsEvolve(a, b) && i < |a|
    ensures Evolves(a[i], b[i])
  {
  }

  lemma RowFacts(s: State, i: nat)
    requires Inv(s) && i < |s.db.rows|
    ensures RowValid(s.db.rows[i]) && FinalTrue(s.db.rows[i], s.chain)
  {
  }

  lemma UnsettledRow(a: Operation, b: Operation, p: Patch, finals: set<NonceKey>)
    requires a.state in From(p) && b == ApplyPatch(a, p) && HasFinalGas(a) && !HasFinalGas(b)
    ensures Charges(finals).Of(b) > Charges(finals).Of(a) <==> !a.IsSelfFunded() && a.actualGasCost.value < a.maxGasCost
  {
  }

  // ---------------------------------------------------------------- whole runs

  /** No step of the run unsettles a row. */
  ghost predicate Orderly(limits: Limits, steps: seq<Step>)
    requires Run(limits, steps).Some?
  {
    steps == [] ||
    (Orderly(limits, steps[..|steps| - 1])
     && !Unsettles(limits, Run(limits, steps[..|steps| - 1]).value, steps[|steps| - 1]))
  }

  /** Every reconciliation is applied to the very record that it read, as if it were one atomic step. */
  ghost predicate RefreshesAreFresh(limits: Limits, steps: seq<Step>)
    requires Run(limits, steps).Some?
  {
    steps == [] ||
    (RefreshesAreFresh(limits, steps[..|steps| - 1])
     && var s, last := Run(limits, steps[..|steps| - 1]).value, steps[|steps| - 1];
        last.ApplyRefresh? ==> s.procs[last.pid].seen == s.db.rows[s.procs[last.pid].id])
  }

  lemma {:induction false} FreshRefreshesAreOrderly(limits: Limits, steps: seq<Step>)
    requires Run(limits, steps).Some? && RefreshesAreFresh(limits, steps)
    ensures Orderly(limits, steps)
  {
    hide Enabled, After, Unsettles;
    if steps != [] {
      var init := steps[..|steps| - 1];
      FreshRefreshesAreOrderly(limits, init);
      ReadingsAlways(limits, init);
      FreshStepIsOrderly(limits, Run(limits, init).value, steps[|steps| - 1]);
    }
  }

  lemma FreshStepIsOrderly(limits: Limits, s: State, step: Step)
    requires Enabled(limits, s, step) && ReadingsOk(s)
    requires step.ApplyRefresh? ==> s.procs[step.pid].seen == s.db.rows[s.procs[step.pid].id]
    ensures !Unsettles(limits, s, step)
  {
    hide Unsettles;
    if Unsettles(limits, s, step) { OnlyStaleRefreshesUnsettle(limits, s, step); }
    hide Enabled;
  }

  ghost predicate ChargesCapped(limits: Limits, rows: seq<Operation>) {
    forall g :: Stable(g) && WeiCap(limits, g).Some? ==> Charged(rows, g) <= Max(0, WeiCap(limits, g).value)
  }

  lemma ChargesCappedStep(limits: Limits, s: State, step: Step)
    requires Inv(s) && Enabled(limits, s, step) && !Unsettles(limits, s, step) && ChargesCapped(limits, s.db.rows)
    ensures ChargesCapped(limits, After(limits, s, step).db.rows)
  {
    hide Enabled, After, Inv, Stable, WeiCap, Members, Charges.Of, BudgetCharges, Unsettles;
    var rows, next := s.db.rows, After(limits, s, step).db.rows;
    KeptRows(limits, s, step);
    forall i | 0 <= i < |rows| ensures BudgetCharges(next).Of(next[i]) <= BudgetCharges(rows).Of(rows[i]) {
      RecordedFalls(limits, s, step, i);
    }
    if step.Admit? {
      RegisteredWhenEnabled(limits, s, step);
      RegisteredIsReserved(step.o, limits, next);
    }
    forall g | Stable(g) && WeiCap(limits, g).Some? ensures Charged(next, g) <= Max(0, WeiCap(limits, g).value) {
      assert Charged(rows, g) <= Max(0, WeiCap(limits, g).value);
      CapStep(limits, s, step, next, g, Max(0, WeiCap(limits, g).value), BudgetCharges(rows).Of, BudgetCharges(next).Of);
    }
  }

  lemma RegisteredIsReserved(o: Operation, limits: Limits, rows: seq<Operation>)
    requires Registered(o, limits)
    ensures BudgetCharges(rows).Of(o) <= o.maxGasCost
  {
  }

  /**
    In every state reached without unsettling a row, in particular while each reconciliation works on the
    current record, the recorded charges of a week, a day, an account's day and a user's day are within their caps.
   */
  lemma {:induction false} RecordedChargesAreCapped(limits: Limits, steps: seq<Step>)
    requires Run(limits, steps).Some? && Orderly(limits, steps)
    ensures ChargesCapped(limits, Run(limits, steps).value.db.rows)
  {
    if steps == [] {
      assert forall g :: Members([], g) == [];
    } else {
      hide Enabled, After, Inv, ChargesCapped, Unsettles;
      var init := steps[..|steps| - 1];
      RecordedChargesAreCapped(limits, init);
      InvAlways(limits, init);
      ChargesCappedStep(limits, Run(limits, init).value, steps[|steps| - 1]);
    }
  }

  /** The two lanes of a week together stay within the project's weekly budget. */
  lemma RecordedWeekIsCapped(limits: Limits, steps: seq<Step>, t: int)
    requires Run(limits, steps).Some? && Orderly(limits, steps) && 0 <= t
    requires 0 <= limits.weeklyExitReserveWei <= limits.weeklyProjectWei
    ensures var rows, week := Run(limits, steps).value.db.rows, WeeklyBudgetWindow(t);
            && Charged(rows, CreatedWeek(Exit, week)) <= WeeklyLaneLimit(limits, Exit)
            && Charged(rows, CreatedWeek(Exposure, week)) <= WeeklyLaneLimit(limits, Exposure)
            && Charged(rows, CreatedWeek(Exposure, week)) + Charged(rows, CreatedWeek(Exit, week))
               <= limits.weeklyProjectWei
  {
    hide Run, Charged, WeeklyBudgetWindow, Misread, Orderly;
    ModernTimesAreRead(t);
    WeekContains(t);
    WeeksPartitionTime(t, WeekStart(t));
    RecordedChargesAreCapped(limits, steps);
    var rows, week := Run(limits, steps).value.db.rows, WeeklyBudgetWindow(t);
    assert Stable(CreatedWeek(Exit, week)) && Stable(CreatedWeek(Exposure, week));
    assert Charged(rows, CreatedWeek(Exit, week)) <= Max(0, WeeklyLaneLimit(limits, Exit));
    assert Charged(rows, CreatedWeek(Exposure, week)) <= Max(0, WeeklyLaneLimit(limits, Exposure));
  }
}
