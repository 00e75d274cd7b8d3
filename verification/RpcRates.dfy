/** How much RPC work is admitted over time, in total and for each client, in every run. */
module RpcRates {
  import opened Prelude
  import opened RpcAdmission

  datatype Step = Enter(e: Entry) | Release(permit: nat, now: int) {
    function Time(): int { if Enter? then e.now else now }
  }

  function Next(cfg: Config, s: State, step: Step): State {
    if step.Enter? then Entered(cfg, s, step.e) else Released(s, step.permit)
  }

  function After(cfg: Config, start: int, steps: seq<Step>): State {
    if steps == [] then Started(cfg, start)
    else Next(cfg, After(cfg, start, steps[..|steps| - 1]), steps[|steps| - 1])
  }

  /** In every run: slots in flight are those of unreleased permits, within the bound; buckets and their LRU are in order. */
  lemma {:induction false} RunsAreOk(cfg: Config, start: int, steps: seq<Step>)
    ensures StateOk(cfg, After(cfg, start, steps))
  {
    hide StateOk, Entered, Released;
    if steps == [] {
      StartedIsOk(cfg, start);
    } else {
      var init, last := steps[..|steps| - 1], steps[|steps| - 1];
      RunsAreOk(cfg, start, init);
      if last.Enter? { EnteredIsOk(cfg, After(cfg, start, init), last.e); }
      else { ReleasedIsOk(cfg, After(cfg, start, init), last.permit); }
    }
  }

  lemma StartedIsOk(cfg: Config, start: int)
    ensures StateOk(cfg, Started(cfg, start))
  {
  }

  // ---------------------------------------------------------------- the quantities compared

  /** One client, or all of them. */
  type Scope = Option<string>

  predicate Covers(who: Scope, client: string) { who.None? || who.value == client }

  function CapacityOf(cfg: Config, who: Scope): nat { if who.None? then cfg.globally else cfg.perClient }

  function BucketOf(s: State, who: Scope): Option<Bucket> {
    if who.None? then Some(s.global) else if who.value in s.clients then Some(s.clients[who.value]) else None
  }

  /** The units that the last step admits. */
  function AdmittedBy(cfg: Config, s: State, step: Step, who: Scope): int {
    if step.Enter? && Covers(who, step.e.client) && step.e.calls != [] && Allowed(cfg, s, step.e)
    then Units(step.e.calls) else 0
  }

  /** The units admitted from step k on. */
  function AdmittedSince(cfg: Config, start: int, steps: seq<Step>, k: nat, who: Scope): int {
    if |steps| <= k then 0
    else
      var init := steps[..|steps| - 1];
      AdmittedSince(cfg, start, init, k, who) + AdmittedBy(cfg, After(cfg, start, init), steps[|steps| - 1], who)
  }

  /** How far the clock has moved forward since step k, adding up over any jumps back. */
  function ForwardSince(steps: seq<Step>, k: nat): (d: int)
    ensures d >= 0
  {
    if |steps| <= k + 1 then 0
    else ForwardSince(steps[..|steps| - 1], k) + Forward(steps[|steps| - 2].Time(), steps[|steps| - 1].Time())
  }

  /** The scope's bucket, once there, has not been evicted since step k. */
  predicate KeptSince(cfg: Config, start: int, steps: seq<Step>, k: nat, who: Scope) {
    |steps| <= k
    || (KeptSince(cfg, start, steps[..|steps| - 1], k, who)
        && (BucketOf(After(cfg, start, steps[..|steps| - 1]), who).Some? ==> BucketOf(After(cfg, start, steps), who).Some?))
  }

  // ---------------------------------------------------------------- arithmetic

  lemma PerMinuteAdds(capacity: nat, a: int, b: int)
    ensures PerMinute(capacity, a + b) == PerMinute(capacity, a) + PerMinute(capacity, b)
  {
    assert (a + b) as real == a as real + b as real;
  }

  lemma PerMinuteGrows(capacity: nat, a: int, b: int)
    requires a <= b
    ensures PerMinute(capacity, a) <= PerMinute(capacity, b)
  {
    PerMinuteAdds(capacity, a, b - a);
    assert PerMinute(capacity, b - a) >= 0.0;
  }

  /** What has been admitted, and what the bucket still holds, fit the time that has passed up to its last refill. */
  ghost predicate Balanced(capacity: nat, admitted: int, b: Bucket, passed: int, time: int) {
    admitted as real + b.tokens <= capacity as real + PerMinute(capacity, passed - Forward(b.updatedAt, time))
  }

  /** Time passing over an untouched bucket keeps the balance. */
  lemma WaitingBalances(capacity: nat, admitted: int, b: Bucket, passed: int, time: int, now: int)
    requires Balanced(capacity, admitted, b, passed, time)
    ensures Balanced(capacity, admitted, b, passed + Forward(time, now), now)
  {
    hide PerMinute;
    PerMinuteGrows(capacity, passed - Forward(b.updatedAt, time), passed + Forward(time, now) - Forward(b.updatedAt, now));
  }

  /** A refill, and an admission of no more than the bucket then holds, keep the balance. */
  lemma SpendingBalances(capacity: nat, admitted: int, b: Bucket, passed: int, time: int, now: int, units: int)
    requires Balanced(capacity, admitted, b, passed, time)
    requires 0 <= units && units as real <= Refill(b, capacity, now).tokens
    ensures Balanced(capacity, admitted + units, Spend(Refill(b, capacity, now), units), passed + Forward(time, now), now)
  {
    hide PerMinute;
    var wait := Forward(b.updatedAt, now);
    PerMinuteAdds(capacity, passed - Forward(b.updatedAt, time), wait);
    PerMinuteGrows(capacity, passed - Forward(b.updatedAt, time) + wait, passed + Forward(time, now));
  }

  /** A first use of a bucket within the window is balanced whatever happened before. */
  lemma FirstUseBalances(capacity: nat, b: Bucket, passed: int, now: int, units: int)
    requires 0 <= passed && 0 <= units && units as real <= Refill(b, capacity, now).tokens
    ensures Balanced(capacity, units, Spend(Refill(b, capacity, now), units), passed, now)
  {
    assert PerMinute(capacity, passed) >= 0.0;
    hide PerMinute;
  }

  // ---------------------------------------------------------------- steps and buckets

  predicate Uses(step: Step, who: Scope) { step.Enter? && Covers(who, step.e.client) && step.e.calls != [] }

  /** The bucket that an entry draws on: a client without one gets a full one. */
  function Drawn(cfg: Config, s: State, step: Step, who: Scope): Bucket {
    BucketOf(s, who).GetOr(Bucket(CapacityOf(cfg, who) as real, step.Time()))
  }

  /** An enforced entry takes what it is admitted for, and never more than is there. */
  lemma UseOfBucket(cfg: Config, s: State, step: Step, who: Scope)
    requires cfg.enforce && StateOk(cfg, s) && Uses(step, who)
    ensures var units, b := AdmittedBy(cfg, s, step, who), Refill(Drawn(cfg, s, step, who), CapacityOf(cfg, who), step.Time());
            && 0 <= units && units as real <= b.tokens
            && BucketOf(Next(cfg, s, step), who) == Some(Spend(b, units))
  {
    hide Refill, StateOk, Units, Sum;
    UnitsAreNatural(step.e.calls);
    RefilledIsOk(cfg, s, step.e);
    RefilledBucket(cfg, s, step.e, who);
    TokensAreNatural(cfg, Refilled(cfg, s, step.e), who);
    hide Refilled;
  }

  lemma RefilledBucket(cfg: Config, s: State, e: Entry, who: Scope)
    requires Covers(who, e.client)
    ensures BucketOf(Refilled(cfg, s, e), who)
            == Some(Refill(BucketOf(s, who).GetOr(Bucket(CapacityOf(cfg, who) as real, e.now)), CapacityOf(cfg, who), e.now))
  {
    hide Refill;
  }

  /** Every other step leaves the bucket alone, or evicts it. */
  lemma OtherStep(cfg: Config, s: State, step: Step, who: Scope)
    requires !Uses(step, who)
    ensures AdmittedBy(cfg, s, step, who) == 0
    ensures BucketOf(Next(cfg, s, step), who).Some? ==> BucketOf(Next(cfg, s, step), who) == BucketOf(s, who)
  {
    hide Refill;
  }

  ghost predicate Settled(cfg: Config, start: int, steps: seq<Step>, k: nat, who: Scope)
    requires k < |steps|
  {
    var admitted, b := AdmittedSince(cfg, start, steps, k, who), BucketOf(After(cfg, start, steps), who);
    || admitted == 0
    || (b.Some? && Balanced(CapacityOf(cfg, who), admitted, b.value, ForwardSince(steps, k), steps[|steps| - 1].Time()))
  }

  lemma {:induction false} AlwaysSettled(cfg: Config, start: int, steps: seq<Step>, k: nat, who: Scope)
    requires cfg.enforce && k < |steps| && KeptSince(cfg, start, steps, k, who)
    ensures Settled(cfg, start, steps, k, who) && 0 <= AdmittedSince(cfg, start, steps, k, who)
  {
    hide Balanced, Refill, Spend, Next, StateOk, AdmittedBy, BucketOf, Covers;
    var init, last := steps[..|steps| - 1], steps[|steps| - 1];
    var s := After(cfg, start, init);
    RunsAreOk(cfg, start, init);
    var before := if k < |init| then AdmittedSince(cfg, start, init, k, who) else 0;
    if k < |init| {
      AlwaysSettled(cfg, start, init, k, who);
    }
    var capacity, drawn, units := CapacityOf(cfg, who), Drawn(cfg, s, last, who), AdmittedBy(cfg, s, last, who);
    assert AdmittedSince(cfg, start, steps, k, who) == before + units;
    assert BucketOf(After(cfg, start, steps), who) == BucketOf(Next(cfg, s, last), who);
    if Uses(last, who) {
      UseOfBucket(cfg, s, last, who);
      if before == 0 {
        FirstUseBalances(capacity, drawn, ForwardSince(steps, k), last.Time(), units);
      } else {
        SpendingBalances(capacity, before, drawn, ForwardSince(init, k), init[|init| - 1].Time(), last.Time(), units);
      }
    } else {
      OtherStep(cfg, s, last, who);
      if before != 0 {
        WaitingBalances(capacity, before, BucketOf(s, who).value, ForwardSince(init, k), init[|init| - 1].Time(), last.Time());
      }
    }
  }

  /**
    The rate bound, under any clock: what is admitted from step k on, in total or for a client whose bucket
    is not evicted meanwhile, is at most one full bucket and what refills while the clock moves forward.
   */
  lemma AdmissionIsRateBounded(cfg: Config, start: int, steps: seq<Step>, k: nat, who: Scope)
    requires cfg.enforce && k < |steps| && KeptSince(cfg, start, steps, k, who)
    ensures AdmittedSince(cfg, start, steps, k, who) as real
            <= CapacityOf(cfg, who) as real + PerMinute(CapacityOf(cfg, who), ForwardSince(steps, k))
  {
    hide After, StateOk, AdmittedSince, ForwardSince, KeptSince, PerMinute, BucketOf, Balanced;
    AlwaysSettled(cfg, start, steps, k, who);
    RunsAreOk(cfg, start, steps);
    var admitted, passed, capacity := AdmittedSince(cfg, start, steps, k, who), ForwardSince(steps, k), CapacityOf(cfg, who);
    PerMinuteIsNatural(capacity, passed);
    if admitted != 0 {
      TokensAreNatural(cfg, After(cfg, start, steps), who);
      BalancedIsBounded(capacity, admitted, BucketOf(After(cfg, start, steps), who).value, passed, steps[|steps| - 1].Time());
    }
  }

  lemma PerMinuteIsNatural(capacity: nat, passed: int)
    requires 0 <= passed
    ensures PerMinute(capacity, passed) >= 0.0
  {
  }

  lemma BalancedIsBounded(capacity: nat, admitted: int, b: Bucket, passed: int, time: int)
    requires Balanced(capacity, admitted, b, passed, time) && b.tokens >= 0.0
    ensures admitted as real <= capacity as real + PerMinute(capacity, passed)
  {
    hide PerMinute;
    PerMinuteGrows(capacity, passed - Forward(b.updatedAt, time), passed);
  }

  lemma TokensAreNatural(cfg: Config, s: State, who: Scope)
    requires StateOk(cfg, s) && BucketOf(s, who).Some?
    ensures BucketOf(s, who).value.tokens >= 0.0
  {
  }

  /** With a clock that does not go back, that is the time between the first and the last step. */
  lemma {:induction false} ForwardIsElapsed(steps: seq<Step>, k: nat)
    requires k < |steps| && forall i :: k <= i < |steps| - 1 ==> steps[i].Time() <= steps[i + 1].Time()
    ensures ForwardSince(steps, k) == steps[|steps| - 1].Time() - steps[k].Time()
  {
    if k < |steps| - 1 {
      var init := steps[..|steps| - 1];
      assert forall i :: k <= i < |init| - 1 ==> init[i].Time() <= steps[i + 1].Time();
      ForwardIsElapsed(init, k);
    }
  }

  /** The bucket for everyone is never evicted, so the total needs no condition but the mode and the clock. */
  lemma TotalIsRateBounded(cfg: Config, start: int, steps: seq<Step>, k: nat)
    requires cfg.enforce && k < |steps| && forall i :: k <= i < |steps| - 1 ==> steps[i].Time() <= steps[i + 1].Time()
    ensures AdmittedSince(cfg, start, steps, k, None) as real
            <= cfg.globally as real + cfg.globally as real * (steps[|steps| - 1].Time() - steps[k].Time()) as real / 60000.0
  {
    hide AdmittedSince, ForwardSince, KeptSince;
    GlobalIsKept(cfg, start, steps, k);
    AdmissionIsRateBounded(cfg, start, steps, k, None);
    ForwardIsElapsed(steps, k);
  }

  lemma {:induction false} GlobalIsKept(cfg: Config, start: int, steps: seq<Step>, k: nat)
    ensures KeptSince(cfg, start, steps, k, None)
  {
    if |steps| > k { GlobalIsKept(cfg, start, steps[..|steps| - 1], k); }
  }
}
