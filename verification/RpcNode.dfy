/**
  One provider of the failover pool: how faults disqualify its capabilities, for how long, and how probes
  restore them. Requests and probes interleave; at most one probe of a node is in progress.
 */
module RpcNode {
  import opened Prelude

  datatype Capability = Read | History | Receipt | Logs

  datatype Reason =
    | Network | Timeout | RateLimit | QuotaExceeded | Auth | Server | InvalidResponse | WrongChain | Stale | Incapable

  predicate Immediate(r: Reason) { r in {RateLimit, QuotaExceeded, Auth, WrongChain, Stale, Incapable} }

  /** These faults concern the provider, not one capability. */
  predicate AcrossCapabilities(r: Reason) { r in {RateLimit, QuotaExceeded, Auth, WrongChain} }

  datatype CapState = CapState(
    failures: nat, until: int, qualified: bool, successes: nat, nextProbe: int, recovering: bool,
    capabilityFailures: nat, quotaFailures: nat)

  datatype Probe = Probe(c: Capability, initial: bool, began: int)

  /** probe is the qualification in progress. */
  datatype Node = Node(
    logsOnly: bool, disabled: set<Capability>, head: nat,
    read: CapState, history: CapState, receipt: CapState, logs: CapState, probe: Option<Probe>)
  {
    function Get(c: Capability): CapState {
      match c case Read => read case History => history case Receipt => receipt case Logs => logs
    }
    function Set(c: Capability, s: CapState): Node {
      match c
      case Read => this.(read := s)
      case History => this.(history := s)
      case Receipt => this.(receipt := s)
      case Logs => this.(logs := s)
    }
    predicate Serves(c: Capability) { c !in disabled && (logsOnly ==> c == Logs) }
    predicate Eligible(c: Capability, now: int) { Serves(c) && Get(c).qualified && Get(c).until <= now }
  }

  // ---------------------------------------------------------------- faults

  const HOUR := 3_600_000
  const MINUTE := 60_000

  function Power2(n: nat): nat { if n == 0 then 1 else 2 * Power2(n - 1) }

  /** The cooldown for a fault, where count is how often this reason has now occurred in a row. */
  function Cooldown(r: Reason, count: nat): (ms: nat) {
    match r
    case Auth => 86_400_000
    case QuotaExceeded => Min(HOUR, 900_000 * Power2(Max(0, Min(2, count - 1))))
    case Incapable => Min(HOUR, 300_000 * Power2(Max(0, Min(4, count - 1))))
    case _ => MINUTE
  }

  /** Cooldowns never shrink as faults repeat, and stay between a minute and a day. */
  lemma CooldownGrows(r: Reason, count: nat)
    ensures MINUTE <= Cooldown(r, count) <= Cooldown(r, count + 1) <= 24 * HOUR
    ensures r != Auth ==> Cooldown(r, count) <= HOUR
  {
    assert Power2(0) == 1 && Power2(1) == 2 && Power2(2) == 4 && Power2(3) == 8 && Power2(4) == 16;
  }

  /** Fifteen, thirty and sixty minutes for quotas; five, ten, twenty, forty and sixty for capabilities. */
  lemma CooldownTable(count: nat)
    ensures Cooldown(QuotaExceeded, count) == if count <= 1 then 900_000 else if count == 2 then 1_800_000 else HOUR
    ensures Cooldown(Incapable, count)
            == if count <= 1 then 300_000 else if count == 2 then 600_000 else if count == 3 then 1_200_000
               else if count == 4 then 2_400_000 else HOUR
  {
    assert Power2(0) == 1 && Power2(1) == 2 && Power2(2) == 4 && Power2(3) == 8 && Power2(4) == 16;
  }

  datatype Fault = Fault(reason: Reason, retryAfter: nat)

  function Counted(s: CapState, r: Reason): CapState {
    s.(failures := s.failures + 1,
       capabilityFailures := if r == Incapable then s.capabilityFailures + 1 else s.capabilityFailures,
       quotaFailures := if r == QuotaExceeded then s.quotaFailures + 1 else s.quotaFailures,
       recovering := true, successes := 0)
  }

  function UntilOf(s: CapState, f: Fault, now: int): int {
    now + Max(Cooldown(f.reason, if f.reason == Incapable then s.capabilityFailures else s.quotaFailures), f.retryAfter)
  }

  /** The second failure in a row, or one that speaks for itself. */
  predicate Disqualifies(s: CapState, f: Fault) { s.failures + 1 >= 2 || Immediate(f.reason) }

  function OwnFault(s: CapState, f: Fault, now: int): CapState {
    var counted := Counted(s, f.reason);
    if Disqualifies(s, f) then
      var until := UntilOf(counted, f, now);
      counted.(qualified := false, until := until, nextProbe := until)
    else counted
  }

  function OtherFault(s: CapState, from: CapState): CapState {
    s.(qualified := false, until := from.until, nextProbe := from.nextProbe, successes := 0, recovering := true)
  }

  function AfterFault(n: Node, c: Capability, f: Fault, now: int): Node {
    var own := OwnFault(n.Get(c), f, now);
    var m := n.Set(c, own);
    if !AcrossCapabilities(f.reason) then m
    else
      m.(read := if c == Read then own else OtherFault(m.read, own),
         history := if c == History then own else OtherFault(m.history, own),
         receipt := if c == Receipt then own else OtherFault(m.receipt, own),
         logs := if c == Logs then own else OtherFault(m.logs, own))
  }

  // ---------------------------------------------------------------- probes

  predicate MayProbe(n: Node, c: Capability, initial: bool, now: int) {
    var s := n.Get(c);
    && n.probe.None? && n.Serves(c) && s.until <= now
    && (initial || (!(s.qualified && s.failures == 0 && !s.recovering) && s.nextProbe <= now))
  }

  function AfterSuccess(s: CapState, initial: bool, now: int): CapState {
    var t := s.(successes := s.successes + 1, nextProbe := now + 30_000);
    if initial || t.successes >= 3 then
      t.(qualified := true, until := 0, failures := 0, recovering := false, capabilityFailures := 0, quotaFailures := 0)
    else t
  }

  /** A failed probe disqualifies; only provider errors count as faults. */
  function AfterFailure(n: Node, c: Capability, error: Option<Fault>, now: int): Node {
    var m := n.Set(c, n.Get(c).(qualified := false, successes := 0));
    var k := if error.Some? then AfterFault(m, c, error.value, now) else m;
    k.Set(c, k.Get(c).(nextProbe := Max(k.Get(c).until, now + 30_000)))
  }

  datatype Event =
    | RequestFault(c: Capability, fault: Fault, now: int)
    | RequestOk(c: Capability)
    | Selected(c: Capability)
    | Begin(c: Capability, initial: bool, now: int)
    | Good(head: nat, now: int)
    | Bad(error: Option<Fault>, head: nat, now: int)
    | Lagging(now: int)
    | SeenHead(head: nat)

  predicate Possible(n: Node, e: Event) {
    match e
    case Begin(c, initial, now) => MayProbe(n, c, initial, now)
    case Good(_, _) => n.probe.Some?
    case Bad(_, _, _) => n.probe.Some?
    case _ => true
  }

  function LagState(s: CapState, now: int): CapState {
    if s.qualified then s.(qualified := false, nextProbe := now + 30_000) else s
  }

  function After(n: Node, e: Event): Node
    requires Possible(n, e)
  {
    match e
    case RequestFault(c, fault, now) => AfterFault(n, c, fault, now)
    case RequestOk(c) => n.Set(c, n.Get(c).(failures := 0))
    case Selected(c) => n.Set(c, n.Get(c).(recovering := false))
    case Begin(c, initial, now) => n.(probe := Some(Probe(c, initial, now)))
    case Good(head, now) =>
      var p := n.probe.value;
      n.Set(p.c, AfterSuccess(n.Get(p.c), p.initial, now)).(probe := None, head := head)
    case Bad(error, head, now) => AfterFailure(n, n.probe.value.c, error, now).(probe := None, head := head)
    case Lagging(now) =>
      n.(read := LagState(n.read, now), history := LagState(n.history, now),
         receipt := LagState(n.receipt, now), logs := LagState(n.logs, now))
    case SeenHead(head) => n.(head := head)
  }

  // ---------------------------------------------------------------- what the history says of a capability

  /** The fault that an event is for the node, and where it strikes. */
  datatype Strike = Strike(c: Capability, fault: Fault, now: int)

  function StrikeOf(n: Node, e: Event): Option<Strike>
    requires Possible(n, e)
  {
    match e
    case RequestFault(c, fault, now) => Some(Strike(c, fault, now))
    case Bad(Some(fault), _, now) => Some(Strike(n.probe.value.c, fault, now))
    case _ => None
  }

  /** A capability's past: the end of its pending cooldown, if a fault disqualified it, and its good probes in a row. */
  datatype Past = Past(pending: Option<int>, good: nat)

  /** The cooldown that an event imposes on a capability, if it is a fault that disqualifies it. */
  function Imposed(n: Node, e: Event, c: Capability): Option<int>
    requires Possible(n, e)
  {
    var strike := StrikeOf(n, e);
    if strike.None? then None
    else
      var Strike(own, f, now) := strike.value;
      if (own == c || AcrossCapabilities(f.reason)) && Disqualifies(n.Get(own), f) then
        Some(UntilOf(Counted(n.Get(own), f.reason), f, now))
      else None
  }

  /** A fault or a failed probe breaks the row of good ones. */
  predicate Breaks(n: Node, e: Event, c: Capability)
    requires Possible(n, e)
  {
    var strike := StrikeOf(n, e);
    || (e.Bad? && n.probe.value.c == c)
    || (strike.Some? && (strike.value.c == c || AcrossCapabilities(strike.value.fault.reason)))
  }

  function NextPast(n: Node, e: Event, c: Capability, past: Past): Past
    requires Possible(n, e)
  {
    var imposed := Imposed(n, e, c);
    if imposed.Some? then Past(imposed, 0)
    else if Breaks(n, e, c) then past.(good := 0)
    else if e.Good? && n.probe.value.c == c then
      Past(if After(n, e).Get(c).qualified then None else past.pending, past.good + 1)
    else past
  }

  datatype Run = Run(node: Node, past: Past)

  /** A node's life as seen by one capability, if every event is possible in turn. */
  function Live(start: Node, c: Capability, events: seq<Event>): Option<Run> {
    if events == [] then Some(Run(start, Past(None, 0)))
    else
      var before := Live(start, c, events[..|events| - 1]);
      var last := events[|events| - 1];
      if before.Some? && Possible(before.value.node, last) then
        Some(Run(After(before.value.node, last), NextPast(before.value.node, last, c, before.value.past)))
      else None
  }

  /** A new node has no probes behind it. */
  predicate Fresh(n: Node) { n.probe.None? && forall c :: n.Get(c).successes == 0 }

  /** A pending cooldown is the recorded one; good probes are counted; one in progress after a good one began out of cooldown. */
  ghost predicate Tracks(r: Run, c: Capability) {
    var s := r.node.Get(c);
    && (r.past.pending.Some? ==> !s.qualified && s.until == r.past.pending.value)
    && s.successes == r.past.good
    && (r.node.probe.Some? && r.node.probe.value.c == c && s.successes > 0 && r.past.pending.Some? ==>
          s.until <= r.node.probe.value.began)
  }

  /** What a fault does to each capability. */
  lemma FaultOn(n: Node, c: Capability, f: Fault, now: int, d: Capability)
    ensures var own := OwnFault(n.Get(c), f, now);
            AfterFault(n, c, f, now).Get(d)
            == if d == c then own else if AcrossCapabilities(f.reason) then OtherFault(n.Get(d), own) else n.Get(d)
    ensures AfterFault(n, c, f, now).probe == n.probe
  {
    hide OwnFault, OtherFault, AcrossCapabilities;
  }

  /** A fault disqualifies a capability: it is a disqualifying one, of that capability or of the whole provider. */
  predicate Reaches(n: Node, c: Capability, f: Fault, d: Capability) {
    Disqualifies(n.Get(c), f) && (d == c || AcrossCapabilities(f.reason))
  }

  /**
    What a fault means for later requests and probes: where it reaches, the capability is not eligible at any time
    until a probe restores it, and none may begin for a minute, or as long as the provider asked; elsewhere
    eligibility is as before. Either way the good probes of the faulted capability no longer count.
   */
  lemma FaultReach(n: Node, c: Capability, f: Fault, now: int, d: Capability, t: int)
    ensures var m := AfterFault(n, c, f, now);
            && (Reaches(n, c, f, d) ==>
                  !m.Eligible(d, t) && (t < now + Max(MINUTE, f.retryAfter) ==> forall initial :: !MayProbe(m, d, initial, t)))
            && (!Reaches(n, c, f, d) ==> (m.Eligible(d, t) <==> n.Eligible(d, t)))
            && (d == c || Reaches(n, c, f, d) ==> m.Get(d).successes == 0)
  {
    FaultOn(n, c, f, now, d);
    var counted := Counted(n.Get(c), f.reason);
    CooldownGrows(f.reason, if f.reason == Incapable then counted.capabilityFailures else counted.quotaFailures);
    hide AfterFault, Cooldown;
    FaultKeepsServices(n, c, f, now, d);
  }

  lemma FaultKeepsServices(n: Node, c: Capability, f: Fault, now: int, d: Capability)
    ensures AfterFault(n, c, f, now).Serves(d) == n.Serves(d)
  {
    hide OwnFault, OtherFault;
  }

  /** A fault on c changes the state of d to this. */
  function Struck(n: Node, strike: Strike, d: Capability): CapState {
    var own := OwnFault(n.Get(strike.c), strike.fault, strike.now);
    if d == strike.c then own
    else if AcrossCapabilities(strike.fault.reason) then OtherFault(n.Get(d), own) else n.Get(d)
  }

  /** Up to the next probe time, every strike does just that, from a request or a probe. */
  lemma StrikeOn(n: Node, e: Event, d: Capability)
    requires Possible(n, e) && StrikeOf(n, e).Some?
    ensures var s, t := After(n, e).Get(d), Struck(n, StrikeOf(n, e).value, d);
            s.qualified == (t.qualified && !(e.Bad? && n.probe.value.c == d))
            && s.until == t.until && s.successes == (if e.Bad? && n.probe.value.c == d then 0 else t.successes)
    ensures After(n, e).probe == if e.Bad? then None else n.probe
  {
    hide AfterFault, Cooldown, Immediate, AcrossCapabilities;
    var strike := StrikeOf(n, e).value;
    if e.Bad? {
      var m := n.Set(strike.c, n.Get(strike.c).(qualified := false, successes := 0));
      FaultOn(m, strike.c, strike.fault, strike.now, d);
      FaultOn(m, strike.c, strike.fault, strike.now, strike.c);
    } else {
      FaultOn(n, strike.c, strike.fault, strike.now, d);
    }
  }

  lemma FaultTracks(n: Node, e: Event, c: Capability, past: Past)
    requires Possible(n, e) && StrikeOf(n, e).Some? && Tracks(Run(n, past), c)
    ensures Tracks(Run(After(n, e), NextPast(n, e, c, past)), c)
    ensures After(n, e).Get(c).qualified ==> n.Get(c).qualified
  {
    StrikeOn(n, e, c);
    hide After, Cooldown, UntilOf;
  }

  lemma OtherTracks(n: Node, e: Event, c: Capability, past: Past)
    requires Possible(n, e) && StrikeOf(n, e).None? && Tracks(Run(n, past), c)
    ensures Tracks(Run(After(n, e), NextPast(n, e, c, past)), c)
  {
    hide UntilOf, AfterFault, Node.Serves, Node.Eligible;
  }

  lemma {:induction false} AlwaysTracks(start: Node, c: Capability, events: seq<Event>)
    requires Fresh(start) && Live(start, c, events).Some?
    ensures Tracks(Live(start, c, events).value, c)
  {
    hide Tracks, After, NextPast, Possible;
    if events == [] {
      FreshTracks(start, c);
    } else {
      var before, last := Live(start, c, events[..|events| - 1]).value, events[|events| - 1];
      AlwaysTracks(start, c, events[..|events| - 1]);
      if StrikeOf(before.node, last).Some? {
        FaultTracks(before.node, last, c, before.past);
      } else {
        OtherTracks(before.node, last, c, before.past);
      }
    }
  }

  lemma FreshTracks(start: Node, c: Capability)
    requires Fresh(start)
    ensures Tracks(Run(start, Past(None, 0)), c)
  {
  }

  /**
    A capability becomes qualified only when a probe of it succeeds. Outside start-up that takes three good
    probes since its last fault or failed probe; and if a fault had disqualified it, the one that restores it
    began after the cooldown set by the latest such fault.
   */
  lemma RestoredOnlyByProbes(start: Node, c: Capability, events: seq<Event>)
    requires Fresh(start) && Live(start, c, events).Some? && events != []
    requires !Live(start, c, events[..|events| - 1]).value.node.Get(c).qualified
    requires Live(start, c, events).value.node.Get(c).qualified
    ensures var before, r, last := Live(start, c, events[..|events| - 1]).value, Live(start, c, events).value, events[|events| - 1];
            && last.Good? && before.node.probe.Some? && before.node.probe.value.c == c
            && (before.node.probe.value.initial
                || (r.past.good >= 3 && (before.past.pending.Some? ==> before.past.pending.value <= before.node.probe.value.began)))
  {
    hide Live, After, NextPast, Tracks, Possible;
    var init, last := events[..|events| - 1], events[|events| - 1];
    LiveStep(start, c, events);
    AlwaysTracks(start, c, init);
    var before := Live(start, c, init).value;
    if StrikeOf(before.node, last).Some? {
      FaultTracks(before.node, last, c, before.past);
    } else {
      ProbeRestores(before.node, last, c, before.past);
    }
  }

  lemma LiveStep(start: Node, c: Capability, events: seq<Event>)
    requires Live(start, c, events).Some? && events != []
    ensures Live(start, c, events[..|events| - 1]).Some?
    ensures var before, last := Live(start, c, events[..|events| - 1]).value, events[|events| - 1];
            Possible(before.node, last)
            && Live(start, c, events) == Some(Run(After(before.node, last), NextPast(before.node, last, c, before.past)))
  {
    hide After, NextPast, Possible;
  }

  lemma ProbeRestores(n: Node, e: Event, c: Capability, past: Past)
    requires Possible(n, e) && StrikeOf(n, e).None? && Tracks(Run(n, past), c)
    requires !n.Get(c).qualified && After(n, e).Get(c).qualified
    ensures e.Good? && n.probe.Some? && n.probe.value.c == c
    ensures n.probe.value.initial
            || (NextPast(n, e, c, past).good >= 3 && (past.pending.Some? ==> past.pending.value <= n.probe.value.began))
  {
  }

  /** So while a cooldown is pending the capability is not eligible, at any time. */
  lemma PendingIsNotEligible(start: Node, c: Capability, events: seq<Event>, now: int)
    requires Fresh(start) && Live(start, c, events).Some? && Live(start, c, events).value.past.pending.Some?
    ensures !Live(start, c, events).value.node.Eligible(c, now)
  {
    AlwaysTracks(start, c, events);
  }

  /** Step m of a run ends a pending cooldown: by a good start-up probe, or by a third good one begun after it. */
  ghost predicate EndsCooldown(start: Node, c: Capability, events: seq<Event>, m: nat) {
    && m < |events| && Live(start, c, events[..m]).Some? && Live(start, c, events[..m + 1]).Some?
    && var before, r := Live(start, c, events[..m]).value, Live(start, c, events[..m + 1]).value;
       && before.past.pending.Some? && events[m].Good? && before.node.probe.Some? && before.node.probe.value.c == c
       && (before.node.probe.value.initial
           || (r.past.good >= 3 && before.past.pending.value <= before.node.probe.value.began))
  }

  /** Once a fault has disqualified a capability, it is not eligible again before some step has ended the cooldown. */
  lemma {:induction false} CooldownEndsBeforeUse(start: Node, c: Capability, events: seq<Event>, k: nat)
    requires Fresh(start) && k <= |events| && Live(start, c, events).Some?
    requires Live(start, c, events[..k]).Some? && Live(start, c, events[..k]).value.past.pending.Some?
    ensures Live(start, c, events).value.past.pending.Some? || exists m :: k <= m && EndsCooldown(start, c, events, m)
    ensures forall now :: Live(start, c, events).value.node.Eligible(c, now) ==>
                            exists m :: k <= m && EndsCooldown(start, c, events, m)
  {
    hide After, NextPast, Tracks, Possible, Live;
    if k == |events| {
      assert events[..k] == events;
    } else {
      var init, last := events[..|events| - 1], events[|events| - 1];
      assert init[..k] == events[..k];
      LiveStep(start, c, events);
      CooldownEndsBeforeUse(start, c, init, k);
      var before := Live(start, c, init).value;
      AlwaysTracks(start, c, init);
      if before.past.pending.None? {
        var m :| k <= m && EndsCooldown(start, c, init, m);
        assert init[..m] == events[..m] && init[..m + 1] == events[..m + 1];
        assert EndsCooldown(start, c, events, m);
      } else if Live(start, c, events).value.past.pending.None? {
        PendingEnds(before.node, last, c, before.past);
        assert events[..|init|] == init && events[..|init| + 1] == events;
        assert EndsCooldown(start, c, events, |init|);
      }
    }
    if Live(start, c, events).value.past.pending.Some? {
      forall now ensures !Live(start, c, events).value.node.Eligible(c, now) { PendingIsNotEligible(start, c, events, now); }
    }
  }

  lemma PendingEnds(n: Node, e: Event, c: Capability, past: Past)
    requires Possible(n, e) && Tracks(Run(n, past), c) && past.pending.Some? && NextPast(n, e, c, past).pending.None?
    ensures e.Good? && n.probe.Some? && n.probe.value.c == c
    ensures n.probe.value.initial || (NextPast(n, e, c, past).good >= 3 && past.pending.value <= n.probe.value.began)
  {
    if StrikeOf(n, e).None? { assert !n.Get(c).qualified; }
    hide Cooldown, UntilOf;
  }

  // ---------------------------------------------------------------- start-up is different

  /** While a cooldown is pending, a good probe ends it exactly if it is one of start-up or the third in a row. */
  lemma GoodProbeEndsExactly(n: Node, head: nat, now: int, c: Capability, past: Past)
    requires n.probe.Some? && n.probe.value.c == c && Tracks(Run(n, past), c) && past.pending.Some?
    ensures NextPast(n, Good(head, now), c, past).pending.None? <==> n.probe.value.initial || past.good >= 2
    ensures NextPast(n, Good(head, now), c, past).good == past.good + 1
    ensures n.probe.value.initial ==>
              After(n, Good(head, now)).Get(c).qualified && After(n, Good(head, now)).Get(c).until == 0
  {
  }

  /** A probe in progress is of a capability that the node serves. */
  lemma {:induction false} ProbesAreServed(start: Node, c: Capability, events: seq<Event>)
    requires Fresh(start) && Live(start, c, events).Some?
    ensures var n := Live(start, c, events).value.node; n.probe.Some? ==> n.Serves(n.probe.value.c)
  {
    if events != [] {
      hide After, NextPast, Possible;
      LiveStep(start, c, events);
      ProbesAreServed(start, c, events[..|events| - 1]);
      ServedStep(Live(start, c, events[..|events| - 1]).value.node, events[|events| - 1]);
    }
  }

  lemma ServedStep(n: Node, e: Event)
    requires Possible(n, e) && (n.probe.Some? ==> n.Serves(n.probe.value.c))
    ensures var next := After(n, e); next.probe.Some? ==> next.Serves(next.probe.value.c)
  {
    hide OwnFault, OtherFault, AfterSuccess, LagState;
  }

  /** Every good probe of start-up makes its capability eligible at once, whatever cooldown is pending. */
  lemma StartUpProbesRestoreAtOnce(start: Node, c: Capability, events: seq<Event>, now: int)
    requires Fresh(start) && Live(start, c, events).Some? && events != [] && events[|events| - 1].Good? && 0 <= now
    requires var n := Live(start, c, events[..|events| - 1]).value.node;
             n.probe.Some? && n.probe.value.c == c && n.probe.value.initial
    ensures Live(start, c, events).value.node.Eligible(c, now)
  {
    LiveStep(start, c, events);
    ProbesAreServed(start, c, events[..|events| - 1]);
    hide Live;
  }

  /** Step m ends a pending cooldown. */
  ghost predicate Ends(start: Node, c: Capability, events: seq<Event>, m: nat) {
    && m < |events| && Live(start, c, events[..m]).Some? && Live(start, c, events[..m + 1]).Some?
    && Live(start, c, events[..m]).value.past.pending.Some? && Live(start, c, events[..m + 1]).value.past.pending.None?
  }

  /** By then three probes in a row were good, and the last of them began after the cooldown. */
  ghost predicate Honoured(start: Node, c: Capability, events: seq<Event>, m: nat)
    requires Ends(start, c, events, m)
  {
    var before, r := Live(start, c, events[..m]).value, Live(start, c, events[..m + 1]).value;
    r.past.good >= 3 && before.node.probe.Some? && before.past.pending.value <= before.node.probe.value.began
  }

  /** At step m a start-up probe succeeds during a cooldown, with fewer than two good probes before it. */
  ghost predicate StartUpIntervenes(start: Node, c: Capability, events: seq<Event>, m: nat) {
    && m < |events| && events[m].Good? && Live(start, c, events[..m]).Some?
    && var before := Live(start, c, events[..m]).value;
       before.node.probe.Some? && before.node.probe.value.c == c && before.node.probe.value.initial
       && before.past.pending.Some? && before.past.good < 2
  }

  /** Every cooldown of a run is honoured exactly if no start-up probe intervenes in one. */
  lemma CooldownsAreHonouredExactly(start: Node, c: Capability, events: seq<Event>)
    requires Fresh(start) && Live(start, c, events).Some?
    ensures (forall m :: Ends(start, c, events, m) ==> Honoured(start, c, events, m))
            <==> forall m :: !StartUpIntervenes(start, c, events, m)
  {
    hide Live, After, NextPast, Possible, Tracks;
    forall m: nat
      ensures StartUpIntervenes(start, c, events, m) ==> Ends(start, c, events, m) && !Honoured(start, c, events, m)
      ensures Ends(start, c, events, m) && !StartUpIntervenes(start, c, events, m) ==> Honoured(start, c, events, m)
    {
      if m < |events| { EndingIsHonoured(start, c, events, m); }
    }
  }

  lemma EndingIsHonoured(start: Node, c: Capability, events: seq<Event>, m: nat)
    requires Fresh(start) && Live(start, c, events).Some? && m < |events|
    ensures StartUpIntervenes(start, c, events, m) ==> Ends(start, c, events, m) && !Honoured(start, c, events, m)
    ensures Ends(start, c, events, m) && !StartUpIntervenes(start, c, events, m) ==> Honoured(start, c, events, m)
  {
    hide After, NextPast, Possible, Tracks;
    PrefixLives(start, c, events, m + 1);
    assert events[..m + 1][..m] == events[..m];
    LiveStep(start, c, events[..m + 1]);
    AlwaysTracks(start, c, events[..m]);
    hide Live;
    var before, e := Live(start, c, events[..m]).value, events[m];
    if StartUpIntervenes(start, c, events, m) {
      GoodProbeEndsExactly(before.node, e.head, e.now, c, before.past);
    } else if Ends(start, c, events, m) {
      PendingEnds(before.node, e, c, before.past);
      GoodProbeEndsExactly(before.node, e.head, e.now, c, before.past);
      BeganAfterCooldown(before, c);
    }
  }

  lemma BeganAfterCooldown(r: Run, c: Capability)
    requires Tracks(r, c) && r.past.pending.Some? && r.node.probe.Some? && r.node.probe.value.c == c && r.past.good > 0
    ensures r.past.pending.value <= r.node.probe.value.began
  {
  }

  lemma {:induction false} PrefixLives(start: Node, c: Capability, events: seq<Event>, m: nat)
    requires m <= |events| && Live(start, c, events).Some?
    ensures Live(start, c, events[..m]).Some?
    decreases |events|
  {
    hide After, NextPast, Possible;
    if m == |events| {
      assert events[..m] == events;
    } else {
      LiveStep(start, c, events);
      assert events[..|events| - 1][..m] == events[..m];
      PrefixLives(start, c, events[..|events| - 1], m);
    }
  }

  const NEW := CapState(0, 0, false, 0, 0, false, 0, 0)

  const NODE := Node(false, {}, 0, NEW, NEW, NEW, NEW, None)

  const RACE := [
    Begin(Read, true, 0), Good(5, 0), Begin(Logs, true, 0), RequestFault(Read, Fault(RateLimit, 0), 1), Good(5, 2)]

  /** A request that races with start-up: the fault's cooldown of a minute is over after one millisecond. */
  lemma StartUpSkipsTheCooldown()
    ensures Fresh(NODE) && Live(NODE, Logs, RACE[..4]).Some? && Live(NODE, Logs, RACE).Some?
    ensures Live(NODE, Logs, RACE[..4]).value.past.pending == Some(60_001)
    ensures Live(NODE, Logs, RACE).value.node.Eligible(Logs, 2)
  {
    var r := RACE;
    assert r[..1] == [r[0]] && r[..2][..1] == r[..1] && r[..3][..2] == r[..2] && r[..4][..3] == r[..3] && r[..5][..4] == r[..4];
    assert r[..5] == r && r[..1][..0] == [];
    var a := NODE.(probe := Some(Probe(Read, true, 0)));
    assert Live(NODE, Logs, []) == Some(Run(NODE, Past(None, 0)));
    assert Live(NODE, Logs, r[..1]) == Some(Run(a, Past(None, 0)));
    var ready := CapState(0, 0, true, 1, 30_000, false, 0, 0);
    var b := NODE.(read := ready, head := 5);
    assert Live(NODE, Logs, r[..2]) == Some(Run(b, Past(None, 0)));
    var d := b.(probe := Some(Probe(Logs, true, 0)));
    assert Live(NODE, Logs, r[..3]) == Some(Run(d, Past(None, 0)));
    assert Live(NODE, Logs, r[..4]).Some?;
  }
}
