/**
  While clock readings do not go back from one write to the next, no settlement is recorded later than its
  row's last update; so what admission loads is enough in every reachable state.
 */
module ProtocolTime {
  import opened Prelude
  import opened Operations
  import opened Budget
  import opened Store
  import opened Protocol
  import opened ProtocolSafety

  /** The clock reading that a step writes. */
  function Reading(step: Step): Option<int> {
    match step
    case Admit(o) => Some(o.updatedAt)
    case SponsorMark(_, at) => Some(at)
    case PolicyMark(_, at) => Some(at)
    case AdmitSend(_, at) => Some(at)
    case RecordFailure(_, at) => Some(at)
    case Cancel(_, at) => Some(at)
    case ApplyRefresh(_, at) => Some(at)
    case _ => None
  }

  /** The latest reading written so far. */
  function Latest(steps: seq<Step>): int {
    if steps == [] then 0
    else
      var before, last := Latest(steps[..|steps| - 1]), steps[|steps| - 1];
      if Reading(last).Some? then Max(before, Reading(last).value) else before
  }

  /** Every write to an existing row carries a reading no earlier than all before it; a new row may carry an earlier one. */
  predicate Ticking(steps: seq<Step>) {
    steps == [] ||
    (Ticking(steps[..|steps| - 1])
     && var last := steps[|steps| - 1];
        Reading(last).Some? && !last.Admit? ==> Latest(steps[..|steps| - 1]) <= Reading(last).value)
  }

  predicate Timed(o: Operation, latest: int) { o.updatedAt <= latest && SettledOnTime(o) }

  /** Rows, and the readings of rows that reconciliations work on, are settled on time. */
  ghost predicate AllTimed(s: State, latest: int) {
    && (forall i :: 0 <= i < |s.db.rows| ==> Timed(s.db.rows[i], latest))
    && (forall pid :: pid in s.procs && (s.procs[pid].Refreshing? || s.procs[pid].Observed?) ==>
          Timed(s.procs[pid].seen, latest))
  }

  lemma PatchIsTimed(o: Operation, p: Patch, latest: int)
    requires Timed(o, latest) && latest <= p.at && (p.Settle? && p.settledAt.Some? ==> p.settledAt.value <= p.at)
    ensures Timed(ApplyPatch(o, p), p.at)
  {
    TimelyPatchSettlesOnTime(o, p);
  }

  /** The patch of an attempt carries the step's reading, and settles no later. */
  lemma AttemptIsTimely(limits: Limits, s: State, step: Step, latest: int)
    requires Enabled(limits, s, step) && Attempt(limits, s, step).Some? && AllTimed(s, latest)
    requires latest <= Reading(step).GetOr(latest)
    ensures var p := Attempt(limits, s, step).value.patch;
            Reading(step) == Some(p.at) && (p.Settle? && p.settledAt.Some? ==> p.settledAt.value <= p.at)
  {
    hide Admissible, IsPolicyCandidate, Bound, WithinCeiling, Registered, Observable, DayOf, Executable;
  }

  lemma RowsStayTimed(limits: Limits, s: State, step: Step, latest: int, next: int)
    requires Inv(s) && Enabled(limits, s, step) && AllTimed(s, latest)
    requires latest <= next && Reading(step).GetOr(next) <= next
    requires Attempt(limits, s, step).Some? ==> Reading(step) == Some(next)
    ensures forall i :: 0 <= i < |After(limits, s, step).db.rows| ==> Timed(After(limits, s, step).db.rows[i], next)
  {
    hide Enabled, After, Attempt, ApplyPatch, Evolves, RowValid, ProcsOk, GrantsOk, SendsOk, ChainOk, FinalsTrue, SettledOnTime;
    RowsStep(limits, s, step);
    AttemptWrites(limits, s, step);
    if step.Admit? {
      RegisteredWhenEnabled(limits, s, step);
      RegisteredIsTimed(step.o, limits);
    } else if step.Restart? {
      RestartIsSilent(limits, s, step);
      forall i | 0 <= i < |s.db.rows| ensures Timed(Restarted(s.db.rows[i]), latest) { RestartIsTimed(s.db.rows[i], latest); }
    } else if Attempt(limits, s, step).Some? {
      AttemptIsTimely(limits, s, step, latest);
      var c := Attempt(limits, s, step).value;
      PatchIsTimed(s.db.rows[c.id], c.patch, latest);
    }
  }

  lemma RegisteredIsTimed(o: Operation, limits: Limits)
    requires Registered(o, limits)
    ensures Timed(o, o.updatedAt)
  {
  }

  lemma RestartIsTimed(o: Operation, latest: int)
    requires Timed(o, latest)
    ensures Timed(Restarted(o), latest)
  {
  }

  lemma ReadingsStayTimed(limits: Limits, s: State, step: Step, latest: int, next: int)
    requires Enabled(limits, s, step) && AllTimed(s, latest) && latest <= next
    ensures forall pid :: pid in After(limits, s, step).procs
                          && (After(limits, s, step).procs[pid].Refreshing? || After(limits, s, step).procs[pid].Observed?) ==>
                            Timed(After(limits, s, step).procs[pid].seen, next)
  {
    hide SettledOnTime, After, Enabled;
    var procs := After(limits, s, step).procs;
    forall pid | pid in procs && (procs[pid].Refreshing? || procs[pid].Observed?) ensures Timed(procs[pid].seen, next) {
      ProcsChange(limits, s, step, pid);
      if Advances(limits, s, step, pid) { AdvancedReading(limits, s, step, pid, latest); }
    }
  }

  lemma AdvancedReading(limits: Limits, s: State, step: Step, pid: nat, latest: int)
    requires Enabled(limits, s, step) && AllTimed(s, latest) && Advances(limits, s, step, pid)
    requires var p := After(limits, s, step).procs[pid]; p.Refreshing? || p.Observed?
    ensures Timed(After(limits, s, step).procs[pid].seen, latest)
  {
    hide Admissible, IsPolicyCandidate, Bound, WithinCeiling, Registered, Observable, DayOf, DbAfter, ChainAfter,
      SettledOnTime, Executable;
  }

  lemma {:induction false} TickingRunsAreTimed(limits: Limits, steps: seq<Step>)
    requires Run(limits, steps).Some? && Ticking(steps)
    ensures AllTimed(Run(limits, steps).value, Latest(steps))
  {
    if steps != [] {
      hide Enabled, After, Attempt, Inv, AllTimed;
      var init, last := steps[..|steps| - 1], steps[|steps| - 1];
      TickingRunsAreTimed(limits, init);
      InvAlways(limits, init);
      var s := Run(limits, init).value;
      AttemptsAreRead(limits, s, last);
      StepStaysTimed(limits, s, last, Latest(init), Latest(steps));
    }
  }

  lemma AttemptsAreRead(limits: Limits, s: State, step: Step)
    requires Enabled(limits, s, step)
    ensures Attempt(limits, s, step).Some? ==> Reading(step).Some? && !step.Admit?
  {
    hide Enabled;
  }

  lemma StepStaysTimed(limits: Limits, s: State, step: Step, latest: int, next: int)
    requires Inv(s) && Enabled(limits, s, step) && AllTimed(s, latest)
    requires latest <= next && Reading(step).GetOr(next) <= next
    requires Attempt(limits, s, step).Some? ==> Reading(step) == Some(next)
    ensures AllTimed(After(limits, s, step), next)
  {
    hide Enabled, After, Attempt, Inv, Timed;
    RowsStayTimed(limits, s, step, latest, next);
    ReadingsStayTimed(limits, s, step, latest, next);
  }

  /** In every state reached with such a clock, the loaded history decides admission no more generously than the whole one. */
  lemma LoadedHistoryAlwaysSuffices(limits: Limits, steps: seq<Step>, o: Operation)
    requires Run(limits, steps).Some? && Ticking(steps)
    ensures var rows := Run(limits, steps).value.db.rows;
            AllSettledOnTime(rows)
            && (AssertQuota(Loaded(rows, o.createdAt), o, limits).None? ==> AssertQuota(rows, o, limits).None?)
  {
    hide Run, AssertQuota, Loaded, Latest, Ticking;
    TickingRunsAreTimed(limits, steps);
    var rows := Run(limits, steps).value.db.rows;
    if AssertQuota(Loaded(rows, o.createdAt), o, limits).None? { LoadedHistorySuffices(rows, o, limits); }
  }
}
