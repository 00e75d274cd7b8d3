/** The daily operation counts over every interleaving. Unlike wei, a count is never given back. */
module ProtocolCounts {
  import opened Prelude
  import opened Operations
  import opened Calendar
  import opened Budget
  import opened Store
  import opened Protocol
  import opened ProtocolSafety
  import opened ProtocolBudget

  /** The operations that a group may have; for operations without a source the last group is empty. */
  function CountCap(limits: Limits, g: Group): Option<nat> {
    match g
    case OfDay(lane, _) => Some(limits.Lane(lane).projectOperations)
    case OfDayAccount(lane, _, _) => Some(limits.Lane(lane).accountOperations)
    case OfDaySubject(lane, _, _) => Some(limits.Lane(lane).subjectOperations)
    case OfDayAccountKind(_, _, _, _) => Some(limits.methodDailyOperations)
    case OfDaySubjectKind(_, _, _, _) => Some(limits.methodDailyOperations)
    case OfDaySource(_, _, _) => Some(limits.methodDailyOperations)
    case _ => None
  }

  /** The group as admission measures it: named by the operation's own kind. */
  function Renamed(g: Group, o: Operation): Group {
    match g
    case OfDayAccountKind(lane, day, account, _) => OfDayAccountKind(lane, day, account, o.intent)
    case OfDaySubjectKind(lane, day, subject, _) => OfDaySubjectKind(lane, day, subject, o.intent)
    case _ => g
  }

  lemma RenamingKeepsMembers(rows: seq<Operation>, g: Group, o: Operation)
    requires g.Holds(o)
    ensures Members(rows, Renamed(g, o)) == Members(rows, g)
  {
    FilterAgree(rows, Renamed(g, o).Holds, g.Holds);
  }

  /** An admitted operation finds room in every group that it joins. */
  lemma AdmissionFindsRoom(rows: seq<Operation>, o: Operation, limits: Limits, g: Group)
    requires AssertQuota(Loaded(rows, o.createdAt), o, limits).None?
    requires CountCap(limits, g).Some? && g.Holds(o)
    ensures |Members(rows, g)| < CountCap(limits, g).value
  {
    var named, loaded := Renamed(g, o), Loaded(rows, o.createdAt);
    RenamingKeepsMembers(rows, g, o);
    hide Loaded, WeeklyBudgetWindow, Charged, Members, Blocks, CoolsDown;
    GroupSurvivesLoading(rows, o, named);
    assert Members(loaded, named) == Members(rows, g);
  }

  ghost predicate Counted(limits: Limits, rows: seq<Operation>) {
    forall g :: CountCap(limits, g).Some? ==> |Members(rows, g)| <= CountCap(limits, g).value
  }

  function Unit(o: Operation): int { 1 }

  lemma CountedStep(limits: Limits, s: State, step: Step)
    requires Inv(s) && Enabled(limits, s, step) && Counted(limits, s.db.rows)
    ensures Counted(limits, After(limits, s, step).db.rows)
  {
    hide Enabled, After, Inv, AssertQuota, CountCap, Group.Holds, Stable;
    var rows, next := s.db.rows, After(limits, s, step).db.rows;
    if |next| != |rows| { AdmittedWithinQuota(limits, s, step); }
    forall g | CountCap(limits, g).Some? ensures |Members(next, g)| <= CountCap(limits, g).value {
      assert |Members(rows, g)| <= CountCap(limits, g).value;
      DailyIsStable(limits, g);
      RegistrationsLast(limits, s, step, g);
      if |next| == |rows| {
        SumPointwise(rows, next, g.Holds, Unit, Unit);
      } else {
        assert next[..|rows|] == rows;
        if g.Holds(step.o) { AdmissionFindsRoom(rows, step.o, limits, g); }
      }
    }
  }

  lemma DailyIsStable(limits: Limits, g: Group)
    requires CountCap(limits, g).Some?
    ensures Stable(g)
  {
  }

  /** In every reachable state no day has more operations than allowed, for any account, user, kind or source. */
  lemma {:induction false} DailyCountsAreCapped(limits: Limits, steps: seq<Step>)
    requires Run(limits, steps).Some?
    ensures Counted(limits, Run(limits, steps).value.db.rows)
  {
    if steps == [] {
      assert forall g :: Members([], g) == [];
    } else {
      hide Enabled, After, Inv, Counted;
      var init := steps[..|steps| - 1];
      DailyCountsAreCapped(limits, init);
      InvAlways(limits, init);
      CountedStep(limits, Run(limits, init).value, steps[|steps| - 1]);
    }
  }
}
