/** Trading sessions over every interleaving: their budgets hold, and disabling one is final. */
module ProtocolSessions {
  import opened Prelude
  import opened Operations
  import opened Budget
  import opened Store
  import opened Protocol
  import opened ProtocolSafety
  import opened ProtocolBudget

  // ---------------------------------------------------------------- sessions

  /** Terms are fixed, no session disappears, and a disabled one stays disabled. */
  ghost predicate SessionsContinue(a: map<nat, Session>, b: map<nat, Session>) {
    forall id :: id in a ==>
      && id in b
      && b[id] == a[id].(state := b[id].state)
      && (a[id].state == Disabled ==> b[id].state == Disabled)
      && (b[id].state == Prepared ==> a[id].state == Prepared)
  }

  lemma SessionsStep(limits: Limits, s: State, step: Step)
    requires Enabled(limits, s, step)
    ensures SessionsContinue(s.db.sessions, After(limits, s, step).db.sessions)
  {
    hide ProcsAfter, ChainAfter, Attempt, Registered, Admissible, Observable, Executable, IsPolicyCandidate,
      SessionsContinue;
    StepContinuesSessions(limits, s.db, step, Attempt(limits, s, step));
  }

  lemma StepContinuesSessions(limits: Limits, db: Db, step: Step, attempt: Option<Change>)
    requires attempt.Some? ==> attempt.value.id < |db.rows|
    requires step.SetSession? ==> step.state != Prepared
    requires step.NewSession? ==> step.id !in db.sessions
    ensures SessionsContinue(db.sessions, DbAfter(limits, db, step, attempt).sessions)
  {
    hide Refusal, ApplyPatch, RestartedRows;
  }

  // ---------------------------------------------------------------- what is spent

  lemma CountsOnlyShrink(id: nat, a: Operation, b: Operation)
    requires RowValid(a) && RowValid(b) && Evolves(a, b)
    ensures SessionUse(id).Counts(b) ==> SessionUse(id).Counts(a)
    ensures SpendOf(a) == SpendOf(b)
  {
    hide Bound, WithinCeiling, SessionSpend;
  }

  lemma {:induction false} SpentFalls(a: seq<Operation>, b: seq<Operation>, id: nat)
    requires |a| == |b| && RowsOk(a) && RowsOk(b) && RowsEvolve(a, b)
    ensures Spent(b, id) <= Spent(a, id)
  {
    if a != [] {
      var n := |a| - 1;
      SpentFalls(a[..n], b[..n], id);
      CountsOnlyShrink(id, a[n], b[n]);
      FilteredSumLast(a, SpendOf, SessionUse(id).Counts);
      FilteredSumLast(b, SpendOf, SessionUse(id).Counts);
    }
  }

  ghost predicate SessionsOk(db: Db) {
    && (forall i :: 0 <= i < |db.rows| && db.rows[i].session.Some? ==>
          var id := db.rows[i].session.value;
          id in db.sessions && SpendOf(db.rows[i]) <= db.sessions[id].perOperation)
    && (forall id :: id in db.sessions ==> Spent(db.rows, id) <= db.sessions[id].total)
  }

  lemma NothingSpentWithoutRows(rows: seq<Operation>, id: nat)
    requires forall i :: 0 <= i < |rows| ==> rows[i].session != Some(id)
    ensures Spent(rows, id) == 0
  {
    if rows != [] {
      NothingSpentWithoutRows(rows[..|rows| - 1], id);
      FilteredSumLast(rows, SpendOf, SessionUse(id).Counts);
    }
  }

  lemma SpentWithNew(rows: seq<Operation>, o: Operation, id: nat)
    ensures Spent(rows + [o], id) <= Spent(rows, id) + if o.session == Some(id) then SpendOf(o) else 0
  {
    assert (rows + [o])[..|rows|] == rows;
    FilteredSumLast(rows + [o], SpendOf, SessionUse(id).Counts);
  }

  lemma SessionsOkStep(limits: Limits, s: State, step: Step)
    requires Inv(s) && SessionsOk(s.db) && Enabled(limits, s, step)
    ensures SessionsOk(After(limits, s, step).db)
  {
    hide Enabled, After, Inv, Spent, SpendOf, Evolves, RowValid;
    var next := After(limits, s, step);
    InvHasRows(s);
    RowsStep(limits, s, step);
    SessionsStep(limits, s, step);
    SpendsLast(s.db.rows, next.db.rows);
    if |next.db.rows| == |s.db.rows| {
      forall id | id in next.db.sessions ensures Spent(next.db.rows, id) <= next.db.sessions[id].total {
        SpentFalls(s.db.rows, next.db.rows, id);
        if id !in s.db.sessions { NothingSpentWithoutRows(s.db.rows, id); }
      }
    } else {
      AdmittedWithinQuota(limits, s, step);
      AdmissionKeepsSessions(limits, s, step);
      NewOperationFits(s.db, step.o);
      assert next.db == Db(s.db.rows + [step.o], s.db.sessions);
    }
  }

  lemma SpendsLast(a: seq<Operation>, b: seq<Operation>)
    requires RowsEvolve(a, b)
    ensures |a| <= |b|
    ensures forall i :: 0 <= i < |a| ==> a[i].session == b[i].session && SpendOf(a[i]) == SpendOf(b[i])
  {
  }

  lemma AdmissionKeepsSessions(limits: Limits, s: State, step: Step)
    requires Enabled(limits, s, step) && step.Admit?
    ensures After(limits, s, step).db.sessions == s.db.sessions
  {
    hide Refusal;
  }

  lemma NewOperationFits(db: Db, o: Operation)
    requires SessionsOk(db)
    requires o.session.Some? ==> AssertSessionQuota(db.rows, OwnSession(db, o), o.session.value, o).None?
    ensures SessionsOk(db.(rows := db.rows + [o]))
  {
    hide Spent, SessionSpend;
    forall id | id in db.sessions ensures Spent(db.rows + [o], id) <= db.sessions[id].total {
      SpentWithNew(db.rows, o, id);
    }
  }

  /** In every reachable state each session's operations are within its per-operation and total budgets. */
  lemma {:induction false} SessionBudgetsHold(limits: Limits, steps: seq<Step>)
    requires Run(limits, steps).Some?
    ensures SessionsOk(Run(limits, steps).value.db)
  {
    if steps == [] {
    } else {
      hide Enabled, After, Inv, SessionsOk;
      var init := steps[..|steps| - 1];
      SessionBudgetsHold(limits, init);
      InvAlways(limits, init);
      SessionsOkStep(limits, Run(limits, init).value, steps[|steps| - 1]);
    }
  }

  // ---------------------------------------------------------------- disabled is final

  /** No row of b beyond those of a belongs to a session that is disabled in a, and those stay disabled. */
  ghost predicate NoneAdmittedSince(a: Db, b: Db) {
    && SessionsContinue(a.sessions, b.sessions)
    && |a.rows| <= |b.rows|
    && forall i :: |a.rows| <= i < |b.rows| && b.rows[i].session.Some? ==>
         b.rows[i].session.value in a.sessions ==> a.sessions[b.rows[i].session.value].state != Disabled
  }

  lemma NoneAdmittedStep(limits: Limits, s: State, step: Step)
    requires Inv(s) && Enabled(limits, s, step)
    ensures NoneAdmittedSince(s.db, After(limits, s, step).db)
  {
    hide Enabled, After, Inv, RowsEvolve, AssertQuota, Spent, SessionsContinue, SessionsOk;
    InvHasRows(s);
    RowsStep(limits, s, step);
    RowsGrow(s.db.rows, After(limits, s, step).db.rows);
    SessionsStep(limits, s, step);
    if |After(limits, s, step).db.rows| != |s.db.rows| { AdmittedWithinQuota(limits, s, step); }
  }

  lemma NoneAdmittedReflexive(db: Db)
    ensures NoneAdmittedSince(db, db)
  {
  }

  lemma NoneAdmittedTransitive(a: State, b: State, c: State)
    requires NoneAdmittedSince(a.db, b.db) && NoneAdmittedSince(b.db, c.db) && Continues(b, c)
    ensures NoneAdmittedSince(a.db, c.db)
  {
    hide ChainGrows;
    forall i | |a.db.rows| <= i < |c.db.rows| && c.db.rows[i].session.Some? && c.db.rows[i].session.value in a.db.sessions
      ensures a.db.sessions[c.db.rows[i].session.value].state != Disabled
    {
      if i < |b.db.rows| { assert Descends(b.db.rows[i], c.db.rows[i]); }
    }
  }

  /** Once a session is disabled, it stays disabled, and no operation is admitted for it any more. */
  lemma {:induction false} DisabledIsFinal(limits: Limits, steps: seq<Step>, k: nat)
    requires k <= |steps| && Run(limits, steps).Some?
    ensures Run(limits, steps[..k]).Some?
    ensures NoneAdmittedSince(Run(limits, steps[..k]).value.db, Run(limits, steps).value.db)
  {
    hide Enabled, After, Inv, NoneAdmittedSince, Continues;
    if k == |steps| {
      assert steps[..k] == steps;
      NoneAdmittedReflexive(Run(limits, steps).value.db);
    } else {
      var init := steps[..|steps| - 1];
      assert init[..k] == steps[..k];
      DisabledIsFinal(limits, init, k);
      InvAlways(limits, init);
      var s := Run(limits, init).value;
      NoneAdmittedStep(limits, s, steps[|steps| - 1]);
      ContinuesStep(limits, s, steps[|steps| - 1]);
      NoneAdmittedTransitive(Run(limits, steps[..k]).value, s, Run(limits, steps).value);
    }
  }
}
