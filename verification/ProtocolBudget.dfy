/**
  The gas budget over every interleaving. A row's potential is the most it can still cost the project;
  it never exceeds what the row is charged, and it never rises. So the caps checked at admission bound
  what the chain actually charges, in every reachable state.
 */
module ProtocolBudget {
  import opened Prelude
  import opened Operations
  import opened Calendar
  import opened Budget
  import opened Store
  import opened Protocol
  import opened ProtocolSafety

  // ---------------------------------------------------------------- potential

  datatype Potential = Potential(chain: Chain, held: set<(NonceKey, UserOp)>) {
    /** Nothing once released; the final cost once paid; nothing if the nonce was finally paid for another row. */
    function Of(o: Operation): int {
      if o.IsSelfFunded() || o.gasReleasedAt.Some? then 0
      else if KeyOf(o) in chain && chain[KeyOf(o)].final then
        var e := chain[KeyOf(o)];
        if o.userOperationHash == Some(e.op) then e.cost
        else if o.state == Cancelled && o.userOperationHash.None? && (KeyOf(o), e.op) in held then 0
        else o.maxGasCost
      else o.maxGasCost
    }
  }

  /** The operations that some row was submitted as. */
  function Held(rows: seq<Operation>): set<(NonceKey, UserOp)> {
    set o | o in rows && o.userOperationHash.Some? :: (KeyOf(o), o.userOperationHash.value)
  }

  function PotentialIn(s: State): Potential { Potential(s.chain, Held(s.db.rows)) }

  lemma PotentialIsBounded(s: State, o: Operation)
    requires Inv(s) && RowValid(o)
    ensures 0 <= PotentialIn(s).Of(o) <= o.maxGasCost
  {
    hide ProcsOk, GrantsOk, SendsOk, FinalsTrue, RowsOk, Held, Backed;
  }

  /** No row can cost more than it is charged. */
  lemma PotentialBelowCharge(s: State, o: Operation)
    requires Inv(s) && o in s.db.rows
    ensures PotentialIn(s).Of(o) <= BudgetCharges(s.db.rows).Of(o)
  {
    hide Bound, WithinCeiling;
    PotentialIsBounded(s, o);
    if Free(o, FinalNonces(s.db.rows)) && o.gasReleasedAt.None? {
      var paid :| paid in s.db.rows && HasFinalGas(paid) && KeyOf(paid) == KeyOf(o);
      assert (KeyOf(paid), paid.userOperationHash.value) in Held(s.db.rows);
    }
    hide ProcsOk, GrantsOk, SendsOk, ChainOk, Held;
  }

  lemma HeldGrows(a: seq<Operation>, b: seq<Operation>)
    requires RowsEvolve(a, b)
    ensures Held(a) <= Held(b)
  {
    forall h | h in Held(a) ensures h in Held(b) {
      var i :| 0 <= i < |a| && a[i].userOperationHash == Some(h.1) && KeyOf(a[i]) == h.0;
      assert KeyOf(b[i]) == h.0 && b[i].userOperationHash == Some(h.1);
    }
  }

  /** The potential of a row never rises. */
  lemma PotentialFalls(limits: Limits, s: State, step: Step, i: nat)
    requires Inv(s) && Enabled(limits, s, step) && i < |s.db.rows|
    ensures var next := After(limits, s, step);
            i < |next.db.rows| && PotentialIn(next).Of(next.db.rows[i]) <= PotentialIn(s).Of(s.db.rows[i])
  {
    hide Enabled, After, Held, SendsOk, GrantsOk, ProcsOk, FinalsTrue, Bound, WithinCeiling;
    var next := After(limits, s, step);
    RowsStep(limits, s, step);
    ChainStep(limits, s, step);
    HeldGrows(s.db.rows, next.db.rows);
    InvStep(limits, s, step);
    PotentialIsBounded(next, next.db.rows[i]);
  }

  // ---------------------------------------------------------------- groups whose members never change

  predicate Aligned(week: Window) { WeekStart(week.start) == week.start && week.end == week.start + WEEK }

  /** Groups that depend on registered fields alone, over real weeks. */
  predicate Stable(g: Group) {
    match g
    case CountedWeek(_, _) => false
    case CreatedWeek(_, week) => Aligned(week)
    case _ => true
  }

  /** The wei that a group may be charged. */
  function WeiCap(limits: Limits, g: Group): Option<int> {
    match g
    case CreatedWeek(lane, _) => Some(WeeklyLaneLimit(limits, lane))
    case OfDay(lane, _) => Some(limits.Lane(lane).projectWei)
    case OfDayAccount(lane, _, _) => Some(limits.Lane(lane).accountWei)
    case OfDaySubject(lane, _, _) => Some(limits.Lane(lane).subjectWei)
    case _ => None
  }

  lemma GroupsAreStable(g: Group, a: Operation, b: Operation)
    requires Stable(g) && SameRegistration(a, b)
    ensures g.Holds(a) == g.Holds(b)
  {
  }

  /** A stable group that holds a modern operation is measured over that operation's own week or day. */
  lemma StableIsCurrent(g: Group, o: Operation)
    requires Stable(g) && g.Holds(o) && 0 <= o.createdAt
    ensures IsCurrent(g, o)
  {
    hide WeeklyBudgetWindow, Misread;
    if g.CreatedWeek? {
      WeeksPartitionTime(g.week.start, o.createdAt);
      ModernTimesAreRead(o.createdAt);
      hide WeekStart;
    }
  }

  lemma ChargesAreNatural(rows: seq<Operation>, o: Operation)
    ensures 0 <= BudgetCharges(rows).Of(o)
  {
  }

  /** What is created in a week counts toward it. */
  lemma CreatedIsCounted(rows: seq<Operation>, lane: Lane, week: Window)
    ensures Charged(rows, CreatedWeek(lane, week)) <= Charged(rows, CountedWeek(lane, week))
  {
    forall o | o in rows ensures 0 <= BudgetCharges(rows).Of(o) { ChargesAreNatural(rows, o); }
    SumOfSubset(rows, BudgetCharges(rows).Of, CreatedWeek(lane, week).Holds, CountedWeek(lane, week).Holds);
  }

  /** An admitted operation fits under every cap that it counts toward, on the charges of the whole history. */
  lemma AdmissionFits(rows: seq<Operation>, o: Operation, limits: Limits, g: Group)
    requires AssertQuota(Loaded(rows, o.createdAt), o, limits).None?
    requires 0 <= o.createdAt && Stable(g) && g.Holds(o) && WeiCap(limits, g).Some?
    ensures Charged(rows, g) + o.maxGasCost <= WeiCap(limits, g).value
  {
    hide Loaded, WeeklyBudgetWindow, Charged, Members, IsCurrent, Blocks, CoolsDown;
    StableIsCurrent(g, o);
    GroupSurvivesLoading(rows, o, g);
    var loaded := Loaded(rows, o.createdAt);
    match g {
      case CreatedWeek(lane, week) =>
        assert week == WeeklyBudgetWindow(o.createdAt) by { assert IsCurrent(g, o); CurrentWeek(g, o); }
        CreatedIsCounted(loaded, lane, week);
      case OfDay(lane, day) => assert HasRoom(loaded, g, limits.Lane(lane).projectOperations, WeiCap(limits, g).value, o.maxGasCost);
      case OfDayAccount(lane, day, account) => assert HasRoom(loaded, g, limits.Lane(lane).accountOperations, WeiCap(limits, g).value, o.maxGasCost);
      case OfDaySubject(lane, day, subject) => assert HasRoom(loaded, g, limits.Lane(lane).subjectOperations, WeiCap(limits, g).value, o.maxGasCost);
      case _ =>
    }
  }

  lemma CurrentWeek(g: Group, o: Operation)
    requires IsCurrent(g, o) && g.CreatedWeek?
    ensures g.week == WeeklyBudgetWindow(o.createdAt)
  {
  }

  // ---------------------------------------------------------------- caps over runs

  /**
    One step keeps a cap, for any valuation of rows that never rises, never exceeds the charge of a row
    already there, and values a new row at no more than its reservation.
   */
  lemma CapStep(limits: Limits, s: State, step: Step, all: seq<Operation>, g: Group, cap: int,
                f: Operation -> int, next: Operation -> int)
    requires Inv(s) && Enabled(limits, s, step) && all == After(limits, s, step).db.rows
    requires Stable(g) && WeiCap(limits, g).Some? && WeiCap(limits, g).value <= cap
    requires |s.db.rows| <= |all| && forall i :: 0 <= i < |s.db.rows| ==> next(all[i]) <= f(s.db.rows[i])
    requires forall o :: o in s.db.rows ==> f(o) <= BudgetCharges(s.db.rows).Of(o)
    requires step.Admit? ==> next(step.o) <= step.o.maxGasCost
    requires Sum(Members(s.db.rows, g), f) <= cap
    ensures Sum(Members(all, g), next) <= cap
  {
    hide Enabled, After, Inv, Group.Holds, AssertQuota, Stable, WeiCap, Members, BudgetCharges, Registered;
    var rows := s.db.rows;
    RegistrationsLast(limits, s, step, g);
    if |all| == |rows| {
      MembersOnlyFall(rows, all, g, f, next);
    } else {
      AdmittedWithinQuota(limits, s, step);
      assert all[..|rows|] == rows;
      MembersOnlyFall(rows, rows, g, f, next);
      forall v | v in rows ensures next(v) <= BudgetCharges(rows).Of(v) {
        var i :| 0 <= i < |rows| && rows[i] == v;
        assert all[i] == v;
      }
      NewMemberFits(rows, step.o, limits, g, next);
    }
  }

  lemma MembersOnlyFall(rows: seq<Operation>, all: seq<Operation>, g: Group, f: Operation -> int, next: Operation -> int)
    requires |rows| == |all|
    requires forall i :: 0 <= i < |rows| ==> g.Holds(rows[i]) == g.Holds(all[i]) && next(all[i]) <= f(rows[i])
    ensures Sum(Members(all, g), next) <= Sum(Members(rows, g), f)
  {
    SumPointwise(rows, all, g.Holds, f, next);
  }

  /** A new member fits, since the members before it are worth no more than they are charged. */
  lemma NewMemberFits(rows: seq<Operation>, o: Operation, limits: Limits, g: Group, f: Operation -> int)
    requires AssertQuota(Loaded(rows, o.createdAt), o, limits).None? && Registered(o, limits)
    requires Stable(g) && WeiCap(limits, g).Some?
    requires forall v :: v in rows ==> f(v) <= BudgetCharges(rows).Of(v)
    requires f(o) <= o.maxGasCost
    ensures Sum(Members(rows + [o], g), f) <= Max(Sum(Members(rows, g), f), WeiCap(limits, g).value)
  {
    hide AssertQuota, Stable, WeiCap, Group.Holds, Loaded, BudgetCharges;
    assert (rows + [o])[..|rows|] == rows;
    FilteredSumLast(rows + [o], f, g.Holds);
    if g.Holds(o) {
      AdmissionFits(rows, o, limits, g);
      FilterMembers(rows, g.Holds);
      SumMonotone(Members(rows, g), f, BudgetCharges(rows).Of);
    }
  }

  lemma RegistrationsLast(limits: Limits, s: State, step: Step, g: Group)
    requires Inv(s) && Enabled(limits, s, step) && Stable(g)
    ensures var rows, next := s.db.rows, After(limits, s, step).db.rows;
            |rows| <= |next| && forall i :: 0 <= i < |rows| ==> g.Holds(rows[i]) == g.Holds(next[i])
  {
    hide Enabled, After, Inv, Group.Holds;
    assert RowsOk(s.db.rows) && ProcsOk(s) by { InvHasRows(s); }
    RowsStep(limits, s, step);
    var rows, next := s.db.rows, After(limits, s, step).db.rows;
    forall i | 0 <= i < |rows| ensures g.Holds(rows[i]) == g.Holds(next[i]) {
      GroupsAreStable(g, rows[i], next[i]);
    }
  }

  lemma InvHasRows(s: State)
    requires Inv(s)
    ensures RowsOk(s.db.rows) && ProcsOk(s)
  {
  }

  /** A new row is a registered operation that passed the quota on the loaded history. */
  lemma AdmittedWithinQuota(limits: Limits, s: State, step: Step)
    requires Inv(s) && Enabled(limits, s, step) && |After(limits, s, step).db.rows| != |s.db.rows|
    ensures step.Admit? && After(limits, s, step).db.rows == s.db.rows + [step.o]
    ensures Registered(step.o, limits)
    ensures AssertQuota(Loaded(s.db.rows, step.o.createdAt), step.o, limits).None?
    ensures step.o.session.Some? ==>
              AssertSessionQuota(s.db.rows, OwnSession(s.db, step.o), step.o.session.value, step.o).None?
  {
    assert step.Admit? by {
      hide Enabled, After, Inv;
      InvHasRows(s);
      RowsStep(limits, s, step);
    }
    hide AssertQuota, AssertSessionQuota, Loaded, Inv, ProcsAfter, ChainAfter, FindKey;
  }

  lemma KeptRows(limits: Limits, s: State, step: Step)
    requires Inv(s) && Enabled(limits, s, step)
    ensures |s.db.rows| <= |After(limits, s, step).db.rows|
    ensures |After(limits, s, step).db.rows| != |s.db.rows| ==> After(limits, s, step).db.rows[..|s.db.rows|] == s.db.rows
  {
    hide Enabled, After, Inv;
    InvHasRows(s);
    RowsStep(limits, s, step);
  }

  /** The wei that a group's rows can still cost. */
  ghost function AtRisk(s: State, g: Group): int { Sum(Members(s.db.rows, g), PotentialIn(s).Of) }

  ghost predicate Capped(limits: Limits, s: State) {
    forall g :: Stable(g) && WeiCap(limits, g).Some? ==> AtRisk(s, g) <= Max(0, WeiCap(limits, g).value)
  }

  lemma CappedStep(limits: Limits, s: State, step: Step)
    requires Inv(s) && Enabled(limits, s, step) && Capped(limits, s)
    ensures Capped(limits, After(limits, s, step))
  {
    hide Enabled, After, Inv, Stable, WeiCap, Members, PotentialIn, Potential.Of;
    var next := After(limits, s, step);
    KeptRows(limits, s, step);
    forall i | 0 <= i < |s.db.rows| ensures PotentialIn(next).Of(next.db.rows[i]) <= PotentialIn(s).Of(s.db.rows[i]) {
      PotentialFalls(limits, s, step, i);
    }
    forall o | o in s.db.rows ensures PotentialIn(s).Of(o) <= BudgetCharges(s.db.rows).Of(o) {
      PotentialBelowCharge(s, o);
    }
    if step.Admit? { NewRowIsBounded(limits, s, step); }
    forall g | Stable(g) && WeiCap(limits, g).Some? ensures AtRisk(next, g) <= Max(0, WeiCap(limits, g).value) {
      assert AtRisk(s, g) <= Max(0, WeiCap(limits, g).value);
      CapStep(limits, s, step, next.db.rows, g, Max(0, WeiCap(limits, g).value), PotentialIn(s).Of, PotentialIn(next).Of);
    }
  }

  lemma NewRowIsBounded(limits: Limits, s: State, step: Step)
    requires Inv(s) && Enabled(limits, s, step) && step.Admit?
    ensures PotentialIn(After(limits, s, step)).Of(step.o) <= step.o.maxGasCost
  {
    hide Enabled, After, Inv, Potential.Of;
    RegisteredWhenEnabled(limits, s, step);
    RegisteredIsValid(step.o, limits);
    InvStep(limits, s, step);
    PotentialIsBounded(After(limits, s, step), step.o);
  }

  lemma RegisteredIsValid(o: Operation, limits: Limits)
    requires Registered(o, limits)
    ensures RowValid(o)
  {
  }

  /** In every reachable state, what a group's rows can still cost is within the group's cap. */
  lemma {:induction false} PotentialIsCapped(limits: Limits, steps: seq<Step>)
    requires Run(limits, steps).Some?
    ensures Inv(Run(limits, steps).value) && Capped(limits, Run(limits, steps).value)
  {
    InvAlways(limits, steps);
    if steps == [] {
      assert forall g :: Members([], g) == [];
    } else {
      hide Enabled, After, Inv, Capped;
      var init := steps[..|steps| - 1];
      InvAlways(limits, init);
      PotentialIsCapped(limits, init);
      CappedStep(limits, Run(limits, init).value, steps[|steps| - 1]);
    }
  }

  // ---------------------------------------------------------------- what the chain charges

  predicate Holder(o: Operation, key: NonceKey, u: UserOp) { KeyOf(o) == key && o.userOperationHash == Some(u) }

  function FirstHolder(rows: seq<Operation>, key: NonceKey, u: UserOp): (i: nat)
    ensures i <= |rows|
    ensures i < |rows| ==> Holder(rows[i], key, u)
    ensures i == |rows| ==> forall o :: o in rows ==> !Holder(o, key, u)
  {
    if rows == [] then 0
    else
      var i := FirstHolder(rows[..|rows| - 1], key, u);
      if i < |rows| - 1 || Holder(rows[|rows| - 1], key, u) then i else |rows|
  }

  /** The row that a sponsored execution is paid for: the one submitted as it, or else the one that backed it. */
  function Payer(s: State, key: NonceKey): nat
    requires key in s.chain
  {
    var i := FirstHolder(s.db.rows, key, s.chain[key].op);
    if i < |s.db.rows| then i else s.chain[key].backer
  }

  /** What the chain has charged the project for row i. */
  function PaidFor(s: State, i: nat): int
    requires i < |s.db.rows|
  {
    var key := KeyOf(s.db.rows[i]);
    if key in s.chain && s.chain[key].op.paymaster.Some? && Payer(s, key) == i then s.chain[key].cost else 0
  }

  /** What the chain has charged for the members of a group among the first n rows. */
  function PaidIn(s: State, g: Group, n: nat): int
    requires n <= |s.db.rows|
  {
    if n == 0 then 0
    else PaidIn(s, g, n - 1) + if g.Holds(s.db.rows[n - 1]) then PaidFor(s, n - 1) else 0
  }

  /** No sponsored execution is left out: each is paid for a row with its own nonce. */
  lemma EveryExecutionIsPaidFor(s: State, key: NonceKey)
    requires Inv(s) && key in s.chain && s.chain[key].op.paymaster.Some?
    ensures Payer(s, key) < |s.db.rows| && KeyOf(s.db.rows[Payer(s, key)]) == key
    ensures PaidFor(s, Payer(s, key)) == s.chain[key].cost
  {
    hide ProcsOk, GrantsOk, SendsOk, FinalsTrue, RowsOk, Bound;
  }

  /** What a row has cost, it could still cost before. A grant is what keeps a cancelled row from being free. */
  lemma PaidIsAtRisk(s: State, i: nat)
    requires Inv(s) && i < |s.db.rows|
    ensures PaidFor(s, i) <= PotentialIn(s).Of(s.db.rows[i])
  {
    var o := s.db.rows[i];
    assert RowValid(o);
    if PaidFor(s, i) == 0 {
      PotentialIsBounded(s, o);
    } else {
      var key := KeyOf(o);
      var e := s.chain[key];
      assert e.cost <= e.op.MaxCost();
      if FirstHolder(s.db.rows, key, e.op) == |s.db.rows| {
        assert Backed(s, key, e);
        UnheldIsNotHeld(s.db.rows, key, e.op);
        hide Bound, UserOp.MaxCost, ProcsOk, SendsOk, ChainOk, FinalsTrue, RowsOk, Held;
      } else {
        hide Bound, UserOp.MaxCost, ProcsOk, SendsOk, GrantsOk, ChainOk, FinalsTrue, RowsOk, Held;
      }
    }
  }

  lemma UnheldIsNotHeld(rows: seq<Operation>, key: NonceKey, u: UserOp)
    requires forall o :: o in rows ==> !Holder(o, key, u)
    ensures (key, u) !in Held(rows)
  {
  }

  lemma {:induction false} PaidIsWithinRisk(s: State, g: Group, n: nat)
    requires Inv(s) && n <= |s.db.rows|
    ensures PaidIn(s, g, n) <= Sum(Members(s.db.rows[..n], g), PotentialIn(s).Of)
  {
    hide Inv, Potential.Of, PotentialIn, Group.Holds, PaidFor;
    if n > 0 {
      PaidIsWithinRisk(s, g, n - 1);
      PaidIsAtRisk(s, n - 1);
      var rows := s.db.rows[..n];
      assert rows[..n - 1] == s.db.rows[..n - 1];
      FilteredSumLast(rows, PotentialIn(s).Of, g.Holds);
    }
  }

  /**
    Budget safety: in every reachable state, under every interleaving and any clock, the gas that the
    chain has charged for the operations of a week, a day, an account's day or a user's day is within the cap.
   */
  lemma SpendingIsCapped(limits: Limits, steps: seq<Step>, g: Group)
    requires Run(limits, steps).Some? && Stable(g) && WeiCap(limits, g).Some?
    ensures var s := Run(limits, steps).value; PaidIn(s, g, |s.db.rows|) <= Max(0, WeiCap(limits, g).value)
  {
    hide Inv, Run, Stable, WeiCap, PaidIn;
    PotentialIsCapped(limits, steps);
    var s := Run(limits, steps).value;
    PaidIsWithinRisk(s, g, |s.db.rows|);
    assert s.db.rows[..|s.db.rows|] == s.db.rows;
    assert AtRisk(s, g) <= Max(0, WeiCap(limits, g).value);
  }

  /** The two lanes of a week together stay within the project's weekly budget. */
  lemma WeeklySpendingIsCapped(limits: Limits, steps: seq<Step>, t: int)
    requires Run(limits, steps).Some? && 0 <= t
    requires 0 <= limits.weeklyExitReserveWei <= limits.weeklyProjectWei
    ensures var s, week := Run(limits, steps).value, WeeklyBudgetWindow(t);
            && PaidIn(s, CreatedWeek(Exit, week), |s.db.rows|) <= limits.weeklyExitReserveWei
            && PaidIn(s, CreatedWeek(Exposure, week), |s.db.rows|) + PaidIn(s, CreatedWeek(Exit, week), |s.db.rows|)
               <= limits.weeklyProjectWei
  {
    hide Run, PaidIn, WeeklyBudgetWindow, Misread;
    ModernTimesAreRead(t);
    WeekContains(t);
    WeeksPartitionTime(t, WeekStart(t));
    SpendingIsCapped(limits, steps, CreatedWeek(Exit, WeeklyBudgetWindow(t)));
    SpendingIsCapped(limits, steps, CreatedWeek(Exposure, WeeklyBudgetWindow(t)));
    hide WeekStart;
  }
}
