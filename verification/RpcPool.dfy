/**
  The failover pool: requests go to the preferred provider first and then to every other eligible one, and
  the head that has been exposed never goes back.
 */
module RpcPool {
  import opened Prelude
  import opened RpcNode

  /** What a provider answers to a request for its head. */
  datatype Answer = Head(value: nat) | Malformed | Failing(fault: Fault) | Refused

  datatype HeadError = Unavailable(last: Option<Fault>) | RequestRefused

  /** The fault that an answer amounts to, when heads below the high water mark are stale. */
  function FaultOf(a: Answer, highWater: nat): Option<Fault> {
    match a
    case Head(value) => if value < highWater then Some(Fault(Stale, 0)) else None
    case Malformed => Some(Fault(InvalidResponse, 0))
    case Failing(fault) => Some(fault)
    case Refused => None
  }

  function EligibleNodes(nodes: seq<Node>, c: Capability, now: int, n: nat): (r: seq<nat>)
    requires n <= |nodes|
    ensures forall i :: i in r <==> 0 <= i < n && nodes[i].Eligible(c, now)
    ensures |r| <= n
  {
    if n == 0 then []
    else EligibleNodes(nodes, c, now, n - 1) + if nodes[n - 1].Eligible(c, now) then [n - 1] else []
  }

  function Dropped(xs: seq<nat>, x: nat): (r: seq<nat>)
    ensures forall y :: y in r <==> y in xs && y != x
    ensures |r| <= |xs| - if x in xs then 1 else 0
  {
    if xs == [] then []
    else
      assert xs == xs[..|xs| - 1] + [xs[|xs| - 1]];
      Dropped(xs[..|xs| - 1], x) + if xs[|xs| - 1] == x then [] else [xs[|xs| - 1]]
  }

  predicate SameFrame(a: Node, b: Node) {
    a.logsOnly == b.logsOnly && a.disabled == b.disabled && a.head == b.head && a.probe == b.probe
  }

  lemma SetOne(n: Node, c: Capability, s: CapState)
    ensures SameFrame(n, n.Set(c, s)) && forall d :: n.Set(c, s).Get(d) == if d == c then s else n.Get(d)
  {
  }

  lemma FaultFrame(n: Node, c: Capability, f: Fault, now: int)
    ensures SameFrame(n, AfterFault(n, c, f, now))
  {
    hide OwnFault, OtherFault;
  }

  lemma AllListed(all: seq<Capability>)
    requires all == [Read, History, Receipt, Logs]
    ensures forall d :: d in all[..4]
  {
    assert all[..4] == all;
    assert Read in all && History in all && Receipt in all && Logs in all by {
      assert all[0] == Read && all[1] == History && all[2] == Receipt && all[3] == Logs;
    }
    forall d: Capability ensures d in all[..4] {
      match d case Read => case History => case Receipt => case Logs =>
    }
  }

  lemma NodesAgree(a: Node, b: Node)
    requires SameFrame(a, b) && forall d :: a.Get(d) == b.Get(d)
    ensures a == b
  {
    assert a.Get(Read) == b.Get(Read) && a.Get(History) == b.Get(History);
    assert a.Get(Receipt) == b.Get(Receipt) && a.Get(Logs) == b.Get(Logs);
  }

  /** One node after a fault, capability by capability. */
  method FaultNode(n: Node, c: Capability, f: Fault, now: int) returns (m: Node)
    ensures m == AfterFault(n, c, f, now)
  {
    hide UntilOf, OtherFault, AfterFault, AcrossCapabilities, Immediate, Node.Get, Node.Set;
    var s := Counted(n.Get(c), f.reason);
    if s.failures >= 2 || Immediate(f.reason) {
      var until := UntilOf(s, f, now);
      s := s.(qualified := false, until := until, nextProbe := until);
    }
    m := n.Set(c, s);
    SetOne(n, c, s);
    if AcrossCapabilities(f.reason) {
      var all := [Read, History, Receipt, Logs];
      for k := 0 to 4
        invariant forall d ::
            m.Get(d) == if d == c then s else if d in all[..k] then OtherFault(n.Get(d), s) else n.Get(d)
        invariant SameFrame(n, m)
      {
        if all[k] != c {
          SetOne(m, all[k], OtherFault(m.Get(all[k]), s));
          m := m.Set(all[k], OtherFault(m.Get(all[k]), s));
        }
      }
      AllListed(all);
    }
    forall d { FaultOn(n, c, f, now, d); }
    FaultFrame(n, c, f, now);
    NodesAgree(m, AfterFault(n, c, f, now));
  }

  // ---------------------------------------------------------------- the exposed head

  /** What changes the mark: an answer about to be served, a probe that reports a head, the end of start-up. */
  datatype HeadEvent = Offered(i: nat, head: nat) | Probed(i: nat, head: nat) | StartFinished

  datatype HeadState = HeadState(heads: seq<nat>, highWater: nat, results: seq<nat>)

  function MaxOf(heads: seq<nat>): nat {
    if heads == [] then 0 else Max(MaxOf(heads[..|heads| - 1]), heads[|heads| - 1])
  }

  /** An answer below the mark is a stale fault; any other is returned to the caller and becomes the mark. */
  function AfterHead(s: HeadState, e: HeadEvent): HeadState {
    match e
    case Offered(i, head) =>
      var heads := if i < |s.heads| then s.heads[i := head] else s.heads;
      if head < s.highWater then s.(heads := heads) else HeadState(heads, head, s.results + [head])
    case Probed(i, head) => if i < |s.heads| then s.(heads := s.heads[i := head]) else s
    case StartFinished => s.(highWater := MaxOf(s.heads))
  }

  function HeadsAfter(nodes: nat, events: seq<HeadEvent>): HeadState {
    if events == [] then HeadState(seq(nodes, i => 0), 0, [])
    else AfterHead(HeadsAfter(nodes, events[..|events| - 1]), events[|events| - 1])
  }

  lemma HeadsNext(nodes: nat, events: seq<HeadEvent>, e: HeadEvent)
    ensures HeadsAfter(nodes, events + [e]) == AfterHead(HeadsAfter(nodes, events), e)
  {
    assert (events + [e])[..|events|] == events;
  }

  function HeadsOf(nodes: seq<Node>): seq<nat> { seq(|nodes|, i requires 0 <= i < |nodes| => nodes[i].head) }

  lemma OneHead(nodes: seq<Node>, i: nat, n: Node)
    requires i < |nodes|
    ensures HeadsOf(nodes[i := n]) == HeadsOf(nodes)[i := n.head]
  {
  }

  datatype Tried = Served(value: nat) | RefusedByNode | Faulty(fault: Fault)

  /** More has happened, but not the end of start-up. */
  ghost predicate Extends(a: seq<HeadEvent>, b: seq<HeadEvent>) {
    a <= b && forall k :: |a| <= k < |b| ==> !b[k].StartFinished?
  }

  // ---------------------------------------------------------------- the lives of the nodes

  /** These events lead from one node to the other, whichever capability looks on. */
  ghost predicate Leads(start: Node, events: seq<Event>, n: Node) {
    forall c: Capability :: Live(start, c, events).Some? && Live(start, c, events).value.node == n
  }

  lemma NothingHappened(start: Node)
    ensures Leads(start, [], start)
  {
  }

  lemma LifeGoesOn(start: Node, events: seq<Event>, n: Node, e: Event)
    requires Leads(start, events, n) && Possible(n, e)
    ensures Leads(start, events + [e], After(n, e))
  {
    assert (events + [e])[..|events|] == events;
    forall c: Capability
      ensures Live(start, c, events + [e]).Some? && Live(start, c, events + [e]).value.node == After(n, e)
    {
      hide After, Possible, NextPast;
      assert Live(start, c, events).Some? && Live(start, c, events).value.node == n;
    }
  }

  /** Every node has lived the life that is recorded for it. */
  ghost predicate AllLead(initial: seq<Node>, lives: seq<seq<Event>>, nodes: seq<Node>) {
    && |initial| == |lives| == |nodes|
    && forall i :: 0 <= i < |nodes| ==> Fresh(initial[i]) && Leads(initial[i], lives[i], nodes[i])
  }

  /** Lives are only added to. */
  ghost predicate LiveOn(a: seq<seq<Event>>, b: seq<seq<Event>>) {
    |a| == |b| && forall i :: 0 <= i < |a| ==> a[i] <= b[i]
  }

  lemma LiveOnTransitive(a: seq<seq<Event>>, b: seq<seq<Event>>, c: seq<seq<Event>>)
    requires LiveOn(a, b) && LiveOn(b, c)
    ensures LiveOn(a, c)
  {
  }

  lemma OneLivesOn(initial: seq<Node>, lives: seq<seq<Event>>, nodes: seq<Node>, i: nat, e: Event)
    requires AllLead(initial, lives, nodes) && i < |nodes| && Possible(nodes[i], e)
    ensures AllLead(initial, lives[i := lives[i] + [e]], nodes[i := After(nodes[i], e)])
    ensures |lives| == |nodes| && LiveOn(lives, lives[i := lives[i] + [e]])
  {
    hide Leads, After, Possible, Fresh;
    LifeGoesOn(initial[i], lives[i], nodes[i], e);
  }

  // ---------------------------------------------------------------- what a request does to a node

  /** The fault with which a node fails a request: that of the check made before switching to it, or else of its answer. */
  function Verdict(checked: bool, check: Answer, answer: Answer, highWater: nat): Option<Fault> {
    if checked && FaultOf(check, highWater).Some? then FaultOf(check, highWater) else FaultOf(answer, highWater)
  }

  /** No use at any time until a probe succeeds, and no ordinary or start-up probe before the time given. */
  ghost predicate Barred(n: Node, c: Capability, until: int) {
    && (forall t :: !n.Eligible(c, t))
    && forall t, initial :: t < until ==> !MayProbe(n, c, initial, t)
  }

  /** How long a fault sets a capability aside, given how often it had that kind of fault before. */
  function Wait(s: CapState, f: Fault): int {
    var least := match f.reason
      case Auth => 24 * 60 * 60_000
      case QuotaExceeded => if s.quotaFailures == 0 then 15 * 60_000 else if s.quotaFailures == 1 then 30 * 60_000 else 60 * 60_000
      case Incapable =>
        if s.capabilityFailures == 0 then 5 * 60_000 else if s.capabilityFailures == 1 then 10 * 60_000
        else if s.capabilityFailures == 2 then 20 * 60_000 else if s.capabilityFailures == 3 then 40 * 60_000
        else 60 * 60_000
      case _ => 60_000;
    Max(least, f.retryAfter)
  }

  /**
    A node that failed a request. It is barred at its second failure in a row, or at once for a fault that
    speaks for itself, and for every capability if the fault is the provider's; otherwise it has one failure.
   */
  ghost predicate StruckBy(before: Node, after: Node, own: Capability, f: Fault, now: int) {
    var s, until := before.Get(own), now + Wait(before.Get(own), f);
    && (forall c :: after.Serves(c) == before.Serves(c))
    && after.Get(own).failures == s.failures + 1 && after.Get(own).successes == 0 && after.Get(own).recovering
    && after.Get(own).quotaFailures == s.quotaFailures + (if f.reason == QuotaExceeded then 1 else 0)
    && after.Get(own).capabilityFailures == s.capabilityFailures + (if f.reason == Incapable then 1 else 0)
    && (if s.failures >= 1 || f.reason in {RateLimit, QuotaExceeded, Auth, WrongChain, Stale, Incapable} then
          Barred(after, own, until) && after.Get(own).until == until
        else after.Get(own).qualified == s.qualified && after.Get(own).until == s.until)
    && forall c :: c != own ==>
         if f.reason in {RateLimit, QuotaExceeded, Auth, WrongChain} then
           Barred(after, c, until) && after.Get(c).until == until && after.Get(c).successes == 0
         else after.Get(c) == before.Get(c)
  }

  lemma WaitIsCooldown(s: CapState, f: Fault, now: int)
    ensures UntilOf(Counted(s, f.reason), f, now) == now + Wait(s, f)
  {
    var counted := Counted(s, f.reason);
    CooldownTable(counted.quotaFailures);
    CooldownTable(counted.capabilityFailures);
    hide Cooldown;
    assert f.reason != Auth && f.reason != QuotaExceeded && f.reason != Incapable ==> Cooldown(f.reason, counted.quotaFailures) == MINUTE
      by { OtherCooldown(f.reason, counted.quotaFailures); }
    assert f.reason == Auth ==> Cooldown(f.reason, counted.quotaFailures) == 24 * HOUR by { OtherCooldown(f.reason, counted.quotaFailures); }
  }

  lemma OtherCooldown(r: Reason, count: nat)
    ensures r == Auth ==> Cooldown(r, count) == 24 * HOUR
    ensures r != Auth && r != QuotaExceeded && r != Incapable ==> Cooldown(r, count) == MINUTE
  {
  }

  lemma FaultStrikes(n: Node, head: nat, own: Capability, f: Fault, now: int)
    ensures StruckBy(n, AfterFault(n.(head := head), own, f, now), own, f, now)
  {
    var m := n.(head := head);
    var after, until := AfterFault(m, own, f, now), now + Wait(n.Get(own), f);
    WaitIsCooldown(n.Get(own), f, now);
    hide UntilOf, Wait, AfterFault, StruckBy;
    forall c
      ensures after.Serves(c) == n.Serves(c)
      ensures after.Get(c) == if c == own then OwnFault(n.Get(own), f, now)
                              else if AcrossCapabilities(f.reason) then OtherFault(n.Get(c), OwnFault(n.Get(own), f, now))
                              else n.Get(c)
    {
      FaultOn(m, own, f, now, c);
      FaultKeepsServices(m, own, f, now, c);
      assert m.Get(c) == n.Get(c) && m.Get(own) == n.Get(own);
    }
    StrikesAre(n, after, own, f, now);
  }

  lemma StrikesAre(n: Node, after: Node, own: Capability, f: Fault, now: int)
    requires forall c :: after.Serves(c) == n.Serves(c)
    requires forall c :: after.Get(c) == if c == own then OwnFault(n.Get(own), f, now)
                                         else if AcrossCapabilities(f.reason) then OtherFault(n.Get(c), OwnFault(n.Get(own), f, now))
                                         else n.Get(c)
    requires UntilOf(Counted(n.Get(own), f.reason), f, now) == now + Wait(n.Get(own), f)
    ensures StruckBy(n, after, own, f, now)
  {
    hide UntilOf, Wait, Node.Serves, Node.Get;
  }

  /** A good probe: the third in a row, or one of start-up, restores the capability; the next is due in half a minute. */
  ghost predicate PassedBy(before: Node, after: Node, c: Capability, initially: bool, now: int) {
    var s, t := before.Get(c), after.Get(c);
    && after.probe.None? && (forall d :: after.Serves(d) == before.Serves(d))
    && (forall d :: d != c ==> after.Get(d) == before.Get(d))
    && t.successes == s.successes + 1 && t.nextProbe == now + 30_000
    && if initially || t.successes >= 3 then
         t.qualified && t.until == 0 && !t.recovering && t.failures == 0 && t.quotaFailures == 0 && t.capabilityFailures == 0
       else t == s.(successes := t.successes, nextProbe := t.nextProbe)
  }

  /** The node without the probe, and without the capability that it was for. */
  function Disqualified(n: Node, c: Capability): Node {
    n.Set(c, n.Get(c).(qualified := false, successes := 0)).(probe := None)
  }

  /** A bad probe: the capability is barred for half a minute at least, and a provider's fault counts as in a request. */
  ghost predicate FlunkedBy(before: Node, after: Node, c: Capability, error: Option<Fault>, now: int) {
    && after.probe.None? && after.Get(c).successes == 0
    && Barred(after.(probe := None), c, after.Get(c).until)
    && (forall t :: t < now + 30_000 ==> !MayProbe(after, c, false, t))
    && match error
       case None =>
         && (forall d :: after.Serves(d) == before.Serves(d)) && (forall d :: d != c ==> after.Get(d) == before.Get(d))
         && after.Get(c) == before.Get(c).(qualified := false, successes := 0, nextProbe := after.Get(c).nextProbe)
       case Some(f) => StruckBy(Disqualified(before, c), after, c, f, now)
  }

  /** What is due in a node's life after it has fallen behind: nothing of it is eligible, and probes restore it. */
  predicate LaggedBy(before: Node, after: Node, now: int) {
    && after.probe == before.probe && after.head == before.head && (forall c :: after.Serves(c) == before.Serves(c))
    && forall c :: after.Get(c) == if before.Get(c).qualified
                                   then before.Get(c).(qualified := false, nextProbe := now + 30_000) else before.Get(c)
  }

  /** The node that served: no failures in a row, and if it was switched to, no longer recovering. */
  predicate ServedBy(before: Node, after: Node, wasActive: bool) {
    && after.read == before.read.(failures := 0, recovering := wasActive && before.read.recovering)
    && (forall c :: c != Read ==> after.Get(c) == before.Get(c))
    && (forall c :: after.Serves(c) == before.Serves(c))
  }

  /** A node that failed a request was struck by its fault; without fallbacks nothing is held against it. */
  ghost predicate FailedBy(fallback: bool, before: Node, after: Node, verdict: Option<Fault>, now: int) {
    && verdict.Some?
    && if fallback then StruckBy(before, after, Read, verdict.value, now) else after == before.(head := after.head)
  }

  /** A head below the mark bars a node from reads for a minute at once. */
  lemma StaleHeadBars(before: Node, after: Node, check: Answer, head: nat, highWater: nat, now: int)
    requires head < highWater && FailedBy(true, before, after, Verdict(false, check, Head(head), highWater), now)
    ensures Barred(after, Read, now + 60_000)
  {
  }

  /** A malformed answer is held against a node only if it failed the request before, too. */
  lemma MalformedIsForgivenOnce(before: Node, after: Node, check: Answer, highWater: nat, now: int)
    requires FailedBy(true, before, after, Verdict(false, check, Malformed, highWater), now)
    ensures if before.read.failures == 0 then forall t :: after.Eligible(Read, t) == before.Eligible(Read, t)
            else Barred(after, Read, now + 60_000)
  {
  }

  /** The head check does not change what serving means for the node. */
  lemma HeadDoesNotMatter(n: Node, noted: Node, after: Node, wasActive: bool)
    requires noted == n.(head := noted.head) && ServedBy(noted, after, wasActive)
    ensures ServedBy(n, after, wasActive)
  {
  }

  lemma FaultsOf(a: Answer, highWater: nat)
    ensures FaultOf(a, highWater).None? <==> a == Refused || (a.Head? && a.value >= highWater)
  {
  }

  /** One request for the head: the pool before it, and what every node would answer. */
  datatype Round = Round(fallback: bool, nodes: seq<Node>, active: map<Capability, nat>, highWater: nat,
                         checks: seq<Answer>, answers: seq<Answer>, now: int)
  {
    ghost predicate WellFormed() { |checks| == |nodes| == |answers| }

    /** A node is asked for its head before a request is switched to it. */
    predicate ChecksFirst(i: nat) { fallback && Read in active && i != active[Read] && highWater > 0 }

    function VerdictOn(i: nat): Option<Fault>
      requires WellFormed()
    {
      if i < |nodes| then Verdict(ChecksFirst(i), checks[i], answers[i], highWater) else None
    }

    /** These nodes failed, and no other node has changed. */
    ghost predicate AllFailed(after: seq<Node>, failed: seq<nat>)
      requires WellFormed()
    {
      && |after| == |nodes|
      && (forall j :: 0 <= j < |failed| ==>
            failed[j] < |nodes| && FailedBy(fallback, nodes[failed[j]], after[failed[j]], VerdictOn(failed[j]), now))
      && forall i :: 0 <= i < |nodes| && i !in failed ==> after[i] == nodes[i]
    }

    lemma NoneFailed()
      requires WellFormed()
      ensures AllFailed(nodes, [])
    {
    }

    lemma UntriedIsAsBefore(after: seq<Node>, failed: seq<nat>, i: nat)
      requires WellFormed() && AllFailed(after, failed) && i !in failed && i < |nodes|
      ensures |after| == |nodes| && after[i] == nodes[i]
    {
    }

    lemma VerdictIs(i: nat, checking: bool)
      requires WellFormed() && i < |nodes| && checking == ChecksFirst(i)
      ensures VerdictOn(i) == Verdict(checking, checks[i], answers[i], highWater)
    {
    }

    lemma EveryOneFailed(after: seq<Node>, failed: seq<nat>)
      requires WellFormed() && AllFailed(after, failed)
      ensures forall i :: i in failed ==> VerdictOn(i).Some?
    {
      hide VerdictOn;
    }

    lemma OneMoreFailed(after: seq<Node>, failed: seq<nat>, i: nat, n: Node)
      requires WellFormed() && AllFailed(after, failed) && i !in failed && i < |nodes|
      requires FailedBy(fallback, nodes[i], n, VerdictOn(i), now)
      ensures AllFailed(after[i := n], failed + [i])
    {
      hide FailedBy, VerdictOn;
    }
  }

  // ---------------------------------------------------------------- candidates

  /** The nodes to try: every eligible one in order, the preferred one first. */
  function CandidateOrder(nodes: seq<Node>, active: map<Capability, nat>, c: Capability, now: int): seq<nat> {
    var order := EligibleNodes(nodes, c, now, |nodes|);
    if c in active && active[c] in order then [active[c]] + Dropped(order, active[c]) else order
  }

  ghost predicate Increasing(xs: seq<nat>) { forall j, k :: 0 <= j < k < |xs| ==> xs[j] < xs[k] }

  lemma {:induction false} EligibleIncrease(nodes: seq<Node>, c: Capability, now: int, n: nat)
    requires n <= |nodes|
    ensures Increasing(EligibleNodes(nodes, c, now, n))
  {
    if n != 0 {
      hide Node.Eligible;
      EligibleIncrease(nodes, c, now, n - 1);
      var before := EligibleNodes(nodes, c, now, n - 1);
      forall j | 0 <= j < |before| ensures before[j] < n - 1 { assert before[j] in before; }
    }
  }

  lemma {:induction false} DroppedIncrease(xs: seq<nat>, x: nat)
    requires Increasing(xs)
    ensures Increasing(Dropped(xs, x))
  {
    if xs != [] {
      var init := xs[..|xs| - 1];
      DroppedIncrease(init, x);
      forall j | 0 <= j < |Dropped(init, x)| ensures Dropped(init, x)[j] < xs[|xs| - 1] {
        assert Dropped(init, x)[j] in init;
      }
    }
  }

  lemma IncreasingIsDistinct(xs: seq<nat>)
    requires Increasing(xs)
    ensures NoDuplicates(xs)
  {
  }

  lemma PutFirst(x: nat, rest: seq<nat>)
    requires Increasing(rest) && x !in rest
    ensures var order := [x] + rest;
            && NoDuplicates(order) && order[0] == x && order[1..] == rest
            && forall i :: i in order <==> i == x || i in rest
  {
    forall j, k | 0 <= j < k < |[x] + rest| ensures ([x] + rest)[j] != ([x] + rest)[k] {
      assert ([x] + rest)[k] == rest[k - 1];
    }
  }

  /** Exactly the eligible nodes, each once; the active one first, and the rest in their order. */
  lemma CandidatesAreEligible(nodes: seq<Node>, active: map<Capability, nat>, c: Capability, now: int)
    ensures var order := CandidateOrder(nodes, active, c, now);
            && (forall i :: i in order <==> 0 <= i < |nodes| && nodes[i].Eligible(c, now))
            && (forall i :: i in order <==> 0 <= i < |nodes| && c !in nodes[i].disabled && (nodes[i].logsOnly ==> c == Logs)
                                            && nodes[i].Get(c).qualified && nodes[i].Get(c).until <= now)
            && |order| <= |nodes| && NoDuplicates(order)
            && (c in active && active[c] < |nodes| && nodes[active[c]].Eligible(c, now) ==>
                  order[0] == active[c] && Increasing(order[1..]))
            && (!(c in active && active[c] < |nodes| && nodes[active[c]].Eligible(c, now)) ==> Increasing(order))
  {
    assert forall i :: 0 <= i < |nodes| ==>
        nodes[i].Eligible(c, now) == (c !in nodes[i].disabled && (nodes[i].logsOnly ==> c == Logs)
                                      && nodes[i].Get(c).qualified && nodes[i].Get(c).until <= now);
    hide Node.Eligible, Increasing, NoDuplicates, EligibleNodes, Dropped;
    var all := EligibleNodes(nodes, c, now, |nodes|);
    EligibleIncrease(nodes, c, now, |nodes|);
    IncreasingIsDistinct(all);
    if c in active && active[c] in all {
      DroppedIncrease(all, active[c]);
      PutFirst(active[c], Dropped(all, active[c]));
    }
  }

  // ---------------------------------------------------------------- choosing the active node

  predicate Fits(n: Node, c: Capability, now: int, healthy: bool) {
    n.Eligible(c, now) && (healthy ==> n.Get(c).failures == 0)
  }

  /** The first node that fits, if any does. */
  ghost predicate IsFirstFit(nodes: seq<Node>, c: Capability, now: int, healthy: bool, best: Option<nat>) {
    match best
    case Some(i) => i < |nodes| && Fits(nodes[i], c, now, healthy) && forall j :: 0 <= j < i ==> !Fits(nodes[j], c, now, healthy)
    case None => forall j :: 0 <= j < |nodes| ==> !Fits(nodes[j], c, now, healthy)
  }

  predicate SameChoice(c: Capability, active: map<Capability, nat>, since: map<Capability, int>,
                       next: map<Capability, nat>, nextSince: map<Capability, int>)
  {
    && (c in next <==> c in active) && (c in active ==> next[c] == active[c])
    && (c in nextSince <==> c in since) && (c in since ==> nextSince[c] == since[c])
  }

  /** How the choice for a capability follows from the first node that fits. */
  predicate Reselected(c: Capability, recovery: bool, best: Option<nat>, active: map<Capability, nat>, since: map<Capability, int>,
                       next: map<Capability, nat>, nextSince: map<Capability, int>, now: int)
  {
    if best.None? then SameChoice(c, active, since, next, nextSince)
    else if c !in active then c in next && next[c] == best.value && c in nextSince && nextSince[c] == now
    else if best.value == active[c] then SameChoice(c, active, since, next, nextSince)
    else if !recovery || (best.value < active[c] && (if c in since then since[c] else 0) + 300_000 <= now) then
      c in next && next[c] == best.value && c in nextSince && nextSince[c] == now
    else SameChoice(c, active, since, next, nextSince)
  }

  /** A node that is chosen is no longer recovering; nothing else about it changes. */
  predicate OnlyRecovers(a: Node, b: Node) {
    && b.logsOnly == a.logsOnly && b.disabled == a.disabled && b.head == a.head && b.probe == a.probe
    && forall c :: b.Get(c) == a.Get(c).(recovering := b.Get(c).recovering) && (b.Get(c).recovering ==> a.Get(c).recovering)
  }

  lemma SelfRecovers(n: Node)
    ensures OnlyRecovers(n, n)
  {
  }

  lemma SelectionRecovers(a: Node, b: Node, d: Node, c: Capability)
    requires OnlyRecovers(a, b) && (d == b || d == After(b, Selected(c)))
    ensures OnlyRecovers(a, d)
  {
  }

  lemma FitsStay(before: seq<Node>, after: seq<Node>, c: Capability, now: int, healthy: bool, best: Option<nat>)
    requires |after| == |before| && forall i :: 0 <= i < |after| ==> OnlyRecovers(before[i], after[i])
    ensures IsFirstFit(before, c, now, healthy, best) <==> IsFirstFit(after, c, now, healthy, best)
  {
    forall i | 0 <= i < |after| ensures Fits(after[i], c, now, healthy) == Fits(before[i], c, now, healthy) {
      assert after[i].Get(c) == before[i].Get(c).(recovering := after[i].Get(c).recovering);
    }
    hide Fits, OnlyRecovers;
  }

  lemma BestIsNode(nodes: seq<Node>, c: Capability, now: int, healthy: bool, best: Option<nat>)
    requires IsFirstFit(nodes, c, now, healthy, best) && best.Some?
    ensures best.value < |nodes|
  {
  }

  lemma FirstFitIsUnique(nodes: seq<Node>, c: Capability, now: int, healthy: bool, a: Option<nat>, b: Option<nat>)
    requires IsFirstFit(nodes, c, now, healthy, a) && IsFirstFit(nodes, c, now, healthy, b)
    ensures a == b
  {
    hide Fits;
  }

  lemma OneReselected(c: Capability, recovery: bool, best: Option<nat>, active: map<Capability, nat>, since: map<Capability, int>,
                      a: map<Capability, nat>, s: map<Capability, int>, next: map<Capability, nat>, nextSince: map<Capability, int>,
                      now: int)
    requires SameChoice(c, active, since, a, s)
    requires var moves := best.Some?
               && (!recovery || c !in a || (best.value < a[c] && now - (if c in s then s[c] else 0) >= 300_000));
             if !moves then next == a && nextSince == s
             else next == a[c := best.value] && nextSince == if c in a && a[c] == best.value then s else s[c := now]
    ensures Reselected(c, recovery, best, active, since, next, nextSince, now)
  {
  }

  lemma OthersReselected(d: Capability, c: Capability, recovery: bool, best: Option<nat>, active: map<Capability, nat>,
                         since: map<Capability, int>, a: map<Capability, nat>, s: map<Capability, int>,
                         next: map<Capability, nat>, nextSince: map<Capability, int>, now: int)
    requires Reselected(d, recovery, best, active, since, a, s, now) && d != c && SameChoice(d, a, s, next, nextSince)
    ensures Reselected(d, recovery, best, active, since, next, nextSince, now)
  {
  }

  /** A finished probe. */
  datatype ProbeResult = Passed | Failed(error: Option<Fault>)

  class RpcReadPool {
    const fallback: bool
    var nodes: seq<Node>
    var active: map<Capability, nat>
    var highWater: nat
    /** When each active node was chosen. */
    var selectedAt: map<Capability, int>
    /** What has happened to the mark so far, and to each node since it was new. */
    ghost var events: seq<HeadEvent>
    ghost const initial: seq<Node>
    ghost var lives: seq<seq<Event>>

    /** The heads and the mark are those that the events lead to. */
    ghost predicate MarkValid()
      reads this
    {
      var s := HeadsAfter(|nodes|, events); s.heads == HeadsOf(nodes) && s.highWater == highWater
    }

    ghost predicate Valid()
      reads this
    {
      MarkValid() && AllLead(initial, lives, nodes)
    }

    /** Every head returned so far. */
    ghost function Results(): seq<nat>
      reads this
    {
      HeadsAfter(|nodes|, events).results
    }

    constructor (hasFallback: bool, newNodes: seq<Node>)
      requires forall n :: n in newNodes ==> n.head == 0 && Fresh(n)
      ensures Valid() && events == [] && fallback == hasFallback && nodes == initial == newNodes && active == map[] == selectedAt
      ensures highWater == 0 && lives == seq(|newNodes|, i => [])
    {
      fallback := hasFallback;
      nodes, active, highWater, events, selectedAt := newNodes, map[], 0, [], map[];
      initial := newNodes;
      lives := seq(|newNodes|, i => []);
      new;
      assert HeadsOf(nodes) == seq(|nodes|, i => 0);
      forall i | 0 <= i < |nodes| ensures Leads(initial[i], lives[i], nodes[i]) { NothingHappened(nodes[i]); }
    }

    /** One event of one node that leaves its head alone. */
    method Change(i: nat, m: Node, ghost e: Event)
      requires Valid() && i < |nodes| && Possible(nodes[i], e) && m == After(nodes[i], e) && m.head == nodes[i].head
      modifies this`nodes, this`lives
      ensures Valid() && nodes == old(nodes)[i := m] && LiveOn(old(lives), lives) && Results() == old(Results())
    {
      hide After, Possible, AllLead, LiveOn;
      OneLivesOn(initial, lives, nodes, i, e);
      lives := lives[i := lives[i] + [e]];
      OneHead(nodes, i, m);
      nodes := nodes[i := m];
    }

    /** A head is reported by node i, by a probe or in answer to a request; an answer that is not stale becomes the mark. */
    method Report(i: nat, m: Node, offered: bool, ghost e: Event)
      requires Valid() && i < |nodes| && Possible(nodes[i], e) && m == After(nodes[i], e)
      modifies this`nodes, this`events, this`lives, this`highWater
      ensures Valid() && nodes == old(nodes)[i := m] && LiveOn(old(lives), lives)
      ensures events == old(events) + [if offered then Offered(i, m.head) else Probed(i, m.head)]
      ensures highWater == if offered && m.head >= old(highWater) then m.head else old(highWater)
      ensures Results() == old(Results()) + if offered && m.head >= old(highWater) then [m.head] else []
    {
      hide After, Possible, AllLead, LiveOn;
      ghost var h := if offered then Offered(i, m.head) else Probed(i, m.head);
      OneLivesOn(initial, lives, nodes, i, e);
      lives := lives[i := lives[i] + [e]];
      HeadsNext(|nodes|, events, h);
      OneHead(nodes, i, m);
      nodes := nodes[i := m];
      events := events + [h];
      if offered && m.head >= highWater { highWater := m.head; }
    }

    /** Only a pool with fallbacks disqualifies its nodes. */
    method Strike(i: nat, c: Capability, f: Fault, now: int)
      requires Valid() && i < |nodes|
      modifies this`nodes, this`lives
      ensures Valid() && LiveOn(old(lives), lives) && Results() == old(Results())
      ensures nodes == if fallback then old(nodes)[i := AfterFault(old(nodes)[i], c, f, now)] else old(nodes)
    {
      if !fallback { return; }
      var m := FaultNode(nodes[i], c, f, now);
      FaultFrame(nodes[i], c, f, now);
      hide AfterFault;
      Change(i, m, RequestFault(c, f, now));
    }

    /** Make a node the active one, from now on; nothing changes if it is already. */
    method Select(i: nat, c: Capability, now: int)
      requires Valid() && i < |nodes|
      modifies this`nodes, this`active, this`selectedAt, this`lives
      ensures selectedAt == if c in old(active) && old(active)[c] == i then old(selectedAt) else old(selectedAt)[c := now]
      ensures Valid() && active == old(active)[c := i] && LiveOn(old(lives), lives) && Results() == old(Results())
      ensures nodes == if c in old(active) && old(active)[c] == i then old(nodes)
                       else old(nodes)[i := After(old(nodes)[i], Selected(c))]
    {
      if c in active && active[c] == i { return; }
      var n := nodes[i].Set(c, nodes[i].Get(c).(recovering := false));
      SetOne(nodes[i], c, nodes[i].Get(c).(recovering := false));
      Change(i, n, Selected(c));
      active, selectedAt := active[c := i], selectedAt[c := now];
    }

    /** The nodes to try: every eligible one, the preferred one first. */
    method Candidates(c: Capability, now: int) returns (order: seq<nat>)
      ensures order == CandidateOrder(nodes, active, c, now)
      ensures forall i :: i in order <==> 0 <= i < |nodes| && nodes[i].Eligible(c, now)
      ensures |order| <= |nodes| && NoDuplicates(order)
      ensures c in active && active[c] < |nodes| && nodes[active[c]].Eligible(c, now) ==>
                order[0] == active[c] && Increasing(order[1..])
    {
      order := EligibleNodes(nodes, c, now, |nodes|);
      if c in active && active[c] in order { order := [active[c]] + Dropped(order, active[c]); }
      CandidatesAreEligible(nodes, active, c, now);
    }

    /** A head reported by a check is noted, and is stale below the mark; the mark does not move. */
    method NoteHead(i: nat, a: Answer) returns (fault: Option<Fault>)
      requires Valid() && i < |nodes|
      modifies this`nodes, this`events, this`lives, this`highWater
      ensures Valid() && highWater == old(highWater) && fault == FaultOf(a, highWater) && LiveOn(old(lives), lives)
      ensures nodes == if a.Head? then old(nodes)[i := old(nodes)[i].(head := a.value)] else old(nodes)
      ensures events == old(events) + if a.Head? then [Probed(i, a.value)] else []
      ensures Results() == old(Results())
    {
      if a.Head? { Report(i, nodes[i].(head := a.value), false, SeenHead(a.value)); }
      fault := FaultOf(a, highWater);
    }

    /** An answer is returned to the caller, and becomes the mark, exactly if it is a head not below it. */
    method ServeHead(i: nat, a: Answer) returns (fault: Option<Fault>)
      requires Valid() && i < |nodes| && a != Refused
      modifies this`nodes, this`highWater, this`events, this`lives
      ensures Valid() && fault == FaultOf(a, old(highWater)) && LiveOn(old(lives), lives)
      ensures nodes == if a.Head? then old(nodes)[i := old(nodes)[i].(head := a.value)] else old(nodes)
      ensures events == old(events) + if a.Head? then [Offered(i, a.value)] else []
      ensures fault.None? ==> a.Head? && highWater == a.value >= old(highWater) && Results() == old(Results()) + [a.value]
      ensures fault.Some? ==> highWater == old(highWater) && Results() == old(Results())
    {
      fault := FaultOf(a, highWater);
      if a.Head? { Report(i, nodes[i].(head := a.value), true, SeenHead(a.value)); }
    }

    /** The node that has served becomes the active one. */
    method Settle(i: nat, now: int)
      requires Valid() && i < |nodes|
      modifies this`nodes, this`active, this`selectedAt, this`lives
      ensures Valid() && active == old(active)[Read := i] && LiveOn(old(lives), lives) && Results() == old(Results())
      ensures |nodes| == |old(nodes)| && nodes == old(nodes)[i := nodes[i]]
      ensures ServedBy(old(nodes)[i], nodes[i], Read in old(active) && old(active)[Read] == i)
    {
      hide LiveOn, Valid, Results;
      ghost var before := lives;
      Change(i, nodes[i].(read := nodes[i].read.(failures := 0)), RequestOk(Read));
      ghost var between := lives;
      Select(i, Read, now);
      LiveOnTransitive(before, between, lives);
    }

    /**
      One attempt: check the node's head if it is switched to, then ask it. A fault strikes the node; a node that
      serves has no failures; a node that refuses the request keeps its state.
     */
    method TryNode(index: nat, checking: bool, check: Answer, answer: Answer, now: int) returns (tried: Tried)
      requires Valid() && index < |nodes|
      modifies this`nodes, this`active, this`selectedAt, this`highWater, this`events, this`lives
      ensures Valid() && Extends(old(events), events) && LiveOn(old(lives), lives)
      ensures |nodes| == |old(nodes)| && nodes == old(nodes)[index := nodes[index]]
      ensures match tried
              case Served(value) =>
                && answer == Head(value) && value >= old(highWater) && highWater == value
                && Verdict(checking, check, answer, old(highWater)).None?
                && Results() == old(Results()) + [value] && active == old(active)[Read := index]
                && ServedBy(old(nodes)[index], nodes[index], Read in old(active) && old(active)[Read] == index)
              case RefusedByNode =>
                && highWater == old(highWater) && active == old(active) && Results() == old(Results())
                && ((checking && check == Refused) || answer == Refused)
                && nodes[index] == old(nodes)[index].(head := nodes[index].head)
              case Faulty(fault) =>
                && highWater == old(highWater) && active == old(active) && Results() == old(Results())
                && Verdict(checking, check, answer, highWater) == Some(fault)
                && if fallback then StruckBy(old(nodes)[index], nodes[index], Read, fault, now)
                   else nodes[index] == old(nodes)[index].(head := nodes[index].head)
    {
      hide HeadsAfter, HeadsOf, Valid, Results, FaultOf, LiveOn, StruckBy, After;
      ghost var n, before := nodes[index], lives;
      FaultsOf(check, highWater);
      FaultsOf(answer, highWater);
      var fault: Option<Fault> := None;
      NoLifeLost(lives);
      if checking {
        if check == Refused { return RefusedByNode; }
        fault := NoteHead(index, check);
      }
      ghost var between := lives;
      if fault.None? {
        if answer == Refused { return RefusedByNode; }
        fault := ServeHead(index, answer);
        LiveOnTransitive(before, between, lives);
        if fault.None? {
          ghost var served := lives;
          ghost var was := nodes[index];
          Settle(index, now);
          LiveOnTransitive(before, served, lives);
          HeadDoesNotMatter(n, was, nodes[index], Read in old(active) && old(active)[Read] == index);
          return Served(highWater);
        }
      }
      ghost var struck := lives;
      FaultStrikes(n, nodes[index].head, Read, fault.value, now);
      Strike(index, Read, fault.value, now);
      LiveOnTransitive(before, struck, lives);
      tried := Faulty(fault.value);
    }

    /**
      A request for the head, with what each node would answer to the head check made before switching to it
      and to the request; at most limit nodes are tried before the deadline. Nodes are tried in order until one
      serves or refuses; those before it have failed and are struck, and the others are as before. A result is
      never below the mark, which it raises; a failure leaves the mark alone.
     */
    method RequestHead(checks: seq<Answer>, answers: seq<Answer>, limit: nat, now: int)
      returns (r: Result<nat, HeadError>, ghost failed: seq<nat>)
      requires Valid() && |checks| == |nodes| == |answers|
      modifies this`nodes, this`active, this`selectedAt, this`highWater, this`events, this`lives
      ensures Valid() && Extends(old(events), events) && LiveOn(old(lives), lives)
      ensures Results() == old(Results()) + if r.Ok? then [r.value] else []
      ensures var round := Round(fallback, old(nodes), old(active), old(highWater), checks, answers, now);
              var order := CandidateOrder(old(nodes), old(active), Read, now);
              && |failed| <= Min(limit, |order|) && failed == order[..|failed|]
              && match r
                 case Ok(head) =>
                   && |failed| < Min(limit, |order|)
                   && var i := order[|failed|];
                      && i < |nodes| && round.AllFailed(nodes[i := old(nodes)[i]], failed)
                      && head >= old(highWater) && highWater == head && active == old(active)[Read := i]
                      && answers[i] == Head(head) && round.VerdictOn(i).None?
                      && ServedBy(old(nodes)[i], nodes[i], Read in old(active) && old(active)[Read] == i)
                 case Err(error) =>
                   && highWater == old(highWater) && active == old(active)
                   && match error
                      case RequestRefused =>
                        && |failed| < Min(limit, |order|)
                        && var i := order[|failed|];
                           && i < |nodes| && round.AllFailed(nodes[i := old(nodes)[i]], failed)
                           && ((round.ChecksFirst(i) && checks[i] == Refused) || answers[i] == Refused)
                           && nodes[i] == old(nodes)[i].(head := nodes[i].head)
                      case Unavailable(last) =>
                        && |failed| == Min(limit, |order|) && round.AllFailed(nodes, failed)
                        && last == (if failed == [] then None else round.VerdictOn(failed[|failed| - 1]))
                        && (limit >= |nodes| ==>
                              forall i :: 0 <= i < |nodes| && old(nodes)[i].Eligible(Read, now) ==> round.VerdictOn(i).Some?)
    {
      hide Node.Eligible, Valid, Results, StruckBy, ServedBy, LiveOn, CandidateOrder, Round.AllFailed, Round.VerdictOn;
      var order := Candidates(Read, now);
      ghost var round := Round(fallback, nodes, active, highWater, checks, answers, now);
      var preferred := if Read in active then Some(active[Read]) else None;
      var last: Option<Fault> := None;
      failed := [];
      NoLifeLost(lives);
      round.NoneFailed();
      for position := 0 to |order|
        invariant Valid() && |nodes| == |old(nodes)| && active == old(active) && highWater == old(highWater)
        invariant Results() == old(Results()) && Extends(old(events), events) && LiveOn(old(lives), lives)
        invariant failed == order[..position] && position <= limit
        invariant round.AllFailed(nodes, failed)
        invariant last == if position == 0 then None else round.VerdictOn(failed[position - 1])
      {
        if position >= limit { return Err(Unavailable(last)), failed; }
        var index := order[position];
        assert index in order && index !in order[..position];
        var checking := fallback && preferred.Some? && index != preferred.value && highWater > 0;
        ghost var before, nodesBefore := lives, nodes;
        round.UntriedIsAsBefore(nodes, failed, index);
        var attempt := TryNode(index, checking, checks[index], answers[index], now);
        LiveOnTransitive(old(lives), before, lives);
        round.VerdictIs(index, checking);
        assert nodesBefore == nodes[index := old(nodes)[index]];
        match attempt {
          case Served(value) => return Ok(value), failed;
          case RefusedByNode => return Err(RequestRefused), failed;
          case Faulty(fault) =>
            last := Some(fault);
            round.OneMoreFailed(nodesBefore, failed, index, nodes[index]);
            failed := failed + [index];
            assert failed == order[..position + 1];
        }
      }
      r := Err(Unavailable(last));
      assert failed == order;
      round.EveryOneFailed(nodes, failed);
    }

    /** A probe may begin when none is in progress, the capability is served and not cooling down, and one is due. */
    method BeginProbe(i: nat, c: Capability, initially: bool, now: int) returns (began: bool)
      requires Valid() && i < |nodes|
      modifies this`nodes, this`lives
      ensures Valid() && LiveOn(old(lives), lives) && Results() == old(Results())
      ensures began == (fallback && MayProbe(old(nodes)[i], c, initially, now))
      ensures var n := old(nodes)[i];
              began <==> && fallback && n.probe.None? && c !in n.disabled && (n.logsOnly ==> c == Logs) && n.Get(c).until <= now
                         && (initially || (n.Get(c).nextProbe <= now
                                           && (!n.Get(c).qualified || n.Get(c).failures > 0 || n.Get(c).recovering)))
      ensures nodes == if began then old(nodes)[i := old(nodes)[i].(probe := Some(Probe(c, initially, now)))] else old(nodes)
    {
      began := false;
      NoLifeLost(lives);
      if !fallback || nodes[i].probe.Some? { return; }
      if c in nodes[i].disabled || (nodes[i].logsOnly && c != Logs) { return; }
      var s := nodes[i].Get(c);
      if s.until > now { return; }
      if !initially && ((s.qualified && s.failures == 0 && !s.recovering) || s.nextProbe > now) { return; }
      Change(i, nodes[i].(probe := Some(Probe(c, initially, now))), Begin(c, initially, now));
      began := true;
    }

    /** The probe in progress ends: a success counts toward restoring its capability, a failure disqualifies it. */
    method EndProbe(i: nat, result: ProbeResult, head: nat, now: int)
      requires Valid() && i < |nodes| && fallback && nodes[i].probe.Some?
      modifies this`nodes, this`events, this`lives, this`highWater
      ensures Valid() && LiveOn(old(lives), lives) && Results() == old(Results()) && highWater == old(highWater)
      ensures events == old(events) + [Probed(i, head)]
      ensures nodes == old(nodes)[i := After(old(nodes)[i],
                match result case Passed => Good(head, now) case Failed(error) => Bad(error, head, now))]
      ensures var before, after, probe := old(nodes)[i], nodes[i], old(nodes)[i].probe.value;
              && after.head == head
              && match result
                 case Passed => PassedBy(before, after, probe.c, probe.initial, now)
                 case Failed(error) => FlunkedBy(before, after, probe.c, error, now)
    {
      ProbeEnds(nodes[i], head, match result case Passed => None case Failed(error) => error, now);
      hide PassedBy, FlunkedBy;
      var n := nodes[i];
      var Probe(c, initially, began) := n.probe.value;
      var s := n.Get(c);
      match result {
        case Passed =>
          s := s.(successes := s.successes + 1, nextProbe := now + 30_000);
          if initially || s.successes >= 3 {
            s := s.(qualified := true, until := 0, failures := 0, recovering := false);
            s := s.(capabilityFailures := 0, quotaFailures := 0);
          }
          n := n.Set(c, s).(probe := None, head := head);
          Report(i, n, false, Good(head, now));
        case Failed(error) =>
          n := n.Set(c, s.(qualified := false, successes := 0));
          if error.Some? { n := FaultNode(n, c, error.value, now); }
          s := n.Get(c);
          n := n.Set(c, s.(nextProbe := Max(s.until, now + 30_000))).(probe := None, head := head);
          Report(i, n, false, Bad(error, head, now));
      }
    }

    method FirstFit(c: Capability, now: int, healthy: bool) returns (best: Option<nat>)
      ensures IsFirstFit(nodes, c, now, healthy, best)
    {
      for i := 0 to |nodes|
        invariant forall j :: 0 <= j < i ==> !Fits(nodes[j], c, now, healthy)
      {
        if nodes[i].Eligible(c, now) && (healthy ==> nodes[i].Get(c).failures == 0) { return Some(i); }
      }
      best := None;
    }

    /**
      Choose the active nodes anew. Start-up takes the first eligible node of each capability. Recovery takes the
      first one without failures, but leaves an active node only for an earlier one, and not within five minutes.
     */
    method Reselect(recovery: bool, now: int) returns (ready: bool)
      requires Valid()
      modifies this`nodes, this`active, this`selectedAt, this`lives
      ensures Valid() && LiveOn(old(lives), lives) && Results() == old(Results()) && ready == (Read in active)
      ensures |nodes| == |old(nodes)| && forall i :: 0 <= i < |nodes| ==> OnlyRecovers(old(nodes)[i], nodes[i])
      ensures forall c, best :: IsFirstFit(old(nodes), c, now, recovery, best) ==>
                Reselected(c, recovery, best, old(active), old(selectedAt), active, selectedAt, now)
    {
      hide Valid, Results, LiveOn, IsFirstFit, OnlyRecovers, Reselected;
      var all := [Read, History, Receipt, Logs];
      NoLifeLost(lives);
      forall n { SelfRecovers(n); }
      for k := 0 to 4
        invariant Valid() && LiveOn(old(lives), lives) && Results() == old(Results())
        invariant |nodes| == |old(nodes)| && forall i :: 0 <= i < |nodes| ==> OnlyRecovers(old(nodes)[i], nodes[i])
        invariant forall c :: c !in all[..k] ==> SameChoice(c, old(active), old(selectedAt), active, selectedAt)
        invariant forall c, best :: c in all[..k] && IsFirstFit(old(nodes), c, now, recovery, best) ==>
                    Reselected(c, recovery, best, old(active), old(selectedAt), active, selectedAt, now)
      {
        var c := all[k];
        assert all[..k + 1] == all[..k] + [c] && c !in all[..k];
        var best := FirstFit(c, now, recovery);
        FitsStay(old(nodes), nodes, c, now, recovery, best);
        ghost var lived, chosen, since, before := lives, active, selectedAt, nodes;
        if best.Some? && (!recovery || c !in active || (best.value < active[c] && now - (if c in selectedAt then selectedAt[c] else 0) >= 300_000)) {
          BestIsNode(nodes, c, now, recovery, best);
          Select(best.value, c, now);
          LiveOnTransitive(old(lives), lived, lives);
          SelectionRecovers(old(nodes)[best.value], before[best.value], nodes[best.value], c);
        }
        OneReselected(c, recovery, best, old(active), old(selectedAt), chosen, since, active, selectedAt, now);
        forall d, b | d in all[..k] && IsFirstFit(old(nodes), d, now, recovery, b)
          ensures Reselected(d, recovery, b, old(active), old(selectedAt), active, selectedAt, now)
        {
          OthersReselected(d, c, recovery, b, old(active), old(selectedAt), chosen, since, active, selectedAt, now);
        }
        forall d | d !in all[..k + 1] ensures SameChoice(d, old(active), old(selectedAt), active, selectedAt) {}
        forall b | IsFirstFit(old(nodes), c, now, recovery, b) ensures b == best { FirstFitIsUnique(old(nodes), c, now, recovery, b, best); }
      }
      AllListed(all);
      ready := Read in active;
    }

    /** The end of start-up: the mark becomes the highest head reported, and nodes far behind it are set aside. */
    method FinishStart(now: int)
      requires Valid()
      modifies this`nodes, this`highWater, this`events, this`lives
      ensures Valid() && |nodes| == |old(nodes)| && highWater == MaxOf(HeadsOf(old(nodes))) && LiveOn(old(lives), lives)
      ensures events == old(events) + [StartFinished] && Results() == old(Results())
      ensures forall i :: 0 <= i < |nodes| ==>
                nodes[i] == if old(nodes)[i].head + 120 < highWater then After(old(nodes)[i], Lagging(now)) else old(nodes)[i]
      ensures forall i :: 0 <= i < |nodes| && old(nodes)[i].head + 120 < highWater ==> LaggedBy(old(nodes)[i], nodes[i], now)
    {
      forall n { LaggingIs(n, now); }
      hide After, AllLead, LiveOn, LaggedBy;
      HeadsNext(|nodes|, events, StartFinished);
      highWater := HighestHead(nodes);
      var kept := SetAside(nodes, highWater, now);
      forall i | 0 <= i < |nodes| ensures kept[i].head == nodes[i].head { LaggingKeepsHead(nodes[i], now); }
      assert HeadsOf(kept) == HeadsOf(nodes);
      lives := Laggards(initial, lives, nodes, kept, highWater, now);
      nodes := kept;
      events := events + [StartFinished];
    }
  }

  lemma LaggingIs(n: Node, now: int)
    ensures LaggedBy(n, After(n, Lagging(now)), now)
  {
  }

  lemma ProbeEnds(n: Node, head: nat, error: Option<Fault>, now: int)
    requires n.probe.Some?
    ensures PassedBy(n, After(n, Good(head, now)), n.probe.value.c, n.probe.value.initial, now)
    ensures FlunkedBy(n, After(n, Bad(error, head, now)), n.probe.value.c, error, now)
  {
    ProbePasses(n, head, now);
    ProbeFlunks(n, head, error, now);
    hide PassedBy, FlunkedBy;
  }

  lemma ProbePasses(n: Node, head: nat, now: int)
    requires n.probe.Some?
    ensures PassedBy(n, After(n, Good(head, now)), n.probe.value.c, n.probe.value.initial, now)
  {
  }

  lemma ProbeFlunks(n: Node, head: nat, error: Option<Fault>, now: int)
    requires n.probe.Some?
    ensures FlunkedBy(n, After(n, Bad(error, head, now)), n.probe.value.c, error, now)
  {
    var c := n.probe.value.c;
    if error.Some? {
      var m := Disqualified(n, c);
      FailureIs(n, c, error.value, head, now);
      FaultStrikes(m, m.head, c, error.value, now);
      assert m.(head := m.head) == m;
      FaultFrame(m, c, error.value, now);
      var k := AfterFault(m, c, error.value, now);
      hide AfterFault, Wait, After;
      RetryStrikes(m, k, c, error.value, head, now);
    }
  }

  /** Half a minute at least until the next probe. */
  function Retry(k: Node, c: Capability, head: nat, now: int): Node {
    k.Set(c, k.Get(c).(nextProbe := Max(k.Get(c).until, now + 30_000))).(head := head)
  }

  lemma FailureIs(n: Node, c: Capability, f: Fault, head: nat, now: int)
    requires n.probe.Some? && n.probe.value.c == c
    ensures After(n, Bad(Some(f), head, now)) == Retry(AfterFault(Disqualified(n, c), c, f, now), c, head, now)
  {
    hide OwnFault, OtherFault;
  }

  lemma RetryStrikes(m: Node, k: Node, c: Capability, f: Fault, head: nat, now: int)
    requires StruckBy(m, k, c, f, now) && !m.Get(c).qualified && k.probe.None?
    ensures var after := Retry(k, c, head, now);
            && StruckBy(m, after, c, f, now) && after.Get(c).successes == 0 && after.probe.None?
            && Barred(after, c, after.Get(c).until) && forall t :: t < now + 30_000 ==> !MayProbe(after, c, false, t)
  {
    hide Wait;
    var after := Retry(k, c, head, now);
    forall d ensures d != c ==> after.Get(d) == k.Get(d) {}
    assert after.Get(c) == k.Get(c).(nextProbe := after.Get(c).nextProbe) && after.Get(c).nextProbe >= now + 30_000;
    assert after.probe.None?;
    forall d ensures after.Serves(d) == k.Serves(d) {}
    forall d, until: int ensures d != c && Barred(k, d, until) ==> Barred(after, d, until) {
      if d != c && Barred(k, d, until) { BarredAlike(k, after, d, until); }
    }
    hide Node.Get, Node.Set, Node.Serves, Retry;
    forall t ensures after.Eligible(c, t) == k.Eligible(c, t) {}
    assert Barred(after, c, after.Get(c).until);
  }

  lemma BarredAlike(a: Node, b: Node, c: Capability, until: int)
    requires Barred(a, c, until) && a.probe == b.probe && a.Serves(c) == b.Serves(c) && a.Get(c) == b.Get(c)
    ensures Barred(b, c, until)
  {
    forall t ensures b.Eligible(c, t) == a.Eligible(c, t) {}
    forall t, initial ensures MayProbe(b, c, initial, t) == MayProbe(a, c, initial, t) {}
  }

  lemma NoLifeLost(lives: seq<seq<Event>>)
    ensures LiveOn(lives, lives)
  {
  }

  /** Setting several nodes aside at once is one more event in the life of each. */
  ghost method Laggards(initial: seq<Node>, lives: seq<seq<Event>>, nodes: seq<Node>, kept: seq<Node>, highWater: nat, now: int)
    returns (longer: seq<seq<Event>>)
    requires AllLead(initial, lives, nodes) && |nodes| == |kept|
    requires forall i :: 0 <= i < |nodes| ==>
               kept[i] == if nodes[i].head + 120 < highWater then After(nodes[i], Lagging(now)) else nodes[i]
    ensures AllLead(initial, longer, kept) && LiveOn(lives, longer)
  {
    hide Leads, After, Fresh;
    longer := seq(|lives|, i requires 0 <= i < |lives| =>
                    if i < |nodes| && nodes[i].head + 120 < highWater then lives[i] + [Lagging(now)] else lives[i]);
    forall i | 0 <= i < |nodes| ensures Leads(initial[i], longer[i], kept[i]) {
      if nodes[i].head + 120 < highWater { LifeGoesOn(initial[i], lives[i], nodes[i], Lagging(now)); }
    }
  }

  /**
    What holds for every life of a node holds for the nodes of the pool object: once a fault has disqualified a
    capability of a node, the node is not eligible for it before a probe has ended the cooldown.
   */
  lemma PoolHonoursCooldowns(p: RpcReadPool, i: nat, c: Capability, k: nat)
    requires p.Valid() && i < |p.nodes| && k <= |p.lives[i]|
    requires Live(p.initial[i], c, p.lives[i][..k]).Some? && Live(p.initial[i], c, p.lives[i][..k]).value.past.pending.Some?
    ensures forall now :: p.nodes[i].Eligible(c, now) ==>
                            exists m :: k <= m && EndsCooldown(p.initial[i], c, p.lives[i], m)
  {
    CooldownEndsBeforeUse(p.initial[i], c, p.lives[i], k);
    hide Live, Fresh, EndsCooldown;
  }

  lemma LaggingKeepsHead(n: Node, now: int)
    ensures After(n, Lagging(now)).head == n.head
  {
  }

  /** The heads that a pool has returned never go back, if no end of start-up has taken one back. */
  lemma PoolHeadsNeverGoBack(p: RpcReadPool)
    requires p.Valid() && StartKeepsTheMark(|p.nodes|, p.events)
    ensures Nondecreasing(p.Results())
  {
    HeadsNeverGoBack(|p.nodes|, p.events);
  }

  method HighestHead(nodes: seq<Node>) returns (m: nat)
    ensures m == MaxOf(HeadsOf(nodes))
  {
    m := 0;
    for i := 0 to |nodes|
      invariant m == MaxOf(HeadsOf(nodes)[..i])
    {
      assert HeadsOf(nodes)[..i + 1][..i] == HeadsOf(nodes)[..i];
      if nodes[i].head > m { m := nodes[i].head; }
    }
    assert HeadsOf(nodes)[..|nodes|] == HeadsOf(nodes);
  }

  method SetAside(nodes: seq<Node>, highWater: nat, now: int) returns (r: seq<Node>)
    ensures |r| == |nodes|
    ensures forall i :: 0 <= i < |nodes| ==> r[i] == if nodes[i].head + 120 < highWater then After(nodes[i], Lagging(now)) else nodes[i]
  {
    hide After;
    r := [];
    for i := 0 to |nodes|
      invariant |r| == i
      invariant forall j :: 0 <= j < i ==> r[j] == if nodes[j].head + 120 < highWater then After(nodes[j], Lagging(now)) else nodes[j]
    {
      r := r + [if nodes[i].head + 120 < highWater then After(nodes[i], Lagging(now)) else nodes[i]];
    }
  }

  // ---------------------------------------------------------------- the head over runs

  ghost predicate Nondecreasing(xs: seq<nat>) { forall j, k :: 0 <= j < k < |xs| ==> xs[j] <= xs[k] }

  /** Start-up never takes back a head that has been served. */
  ghost predicate StartKeepsTheMark(nodes: nat, events: seq<HeadEvent>) {
    forall k :: 0 <= k < |events| && events[k].StartFinished? ==>
      var s := HeadsAfter(nodes, events[..k]); s.results == [] || s.results[|s.results| - 1] <= MaxOf(s.heads)
  }

  /** The heads returned by the pool never go back, whatever the providers do, as long as start-up keeps the mark. */
  lemma {:induction false} HeadsNeverGoBack(nodes: nat, events: seq<HeadEvent>)
    requires StartKeepsTheMark(nodes, events)
    ensures var s := HeadsAfter(nodes, events);
            Nondecreasing(s.results) && (s.results != [] ==> s.results[|s.results| - 1] <= s.highWater)
  {
    if events != [] {
      var init, last := events[..|events| - 1], events[|events| - 1];
      forall k | 0 <= k < |init| ensures init[..k] == events[..k] {}
      HeadsNeverGoBack(nodes, init);
      if last.StartFinished? { assert events[..|init|] == init; }
    }
  }

  /** In particular if nothing has been served when start-up ends, as when it is awaited before the first request. */
  lemma AwaitedStartKeepsTheMark(nodes: nat, events: seq<HeadEvent>, k: nat)
    requires k <= |events| && (forall j :: k <= j < |events| ==> !events[j].StartFinished?)
    requires forall j :: 0 <= j < k ==> !events[j].Offered?
    ensures StartKeepsTheMark(nodes, events)
  {
    forall j | 0 <= j < |events| && events[j].StartFinished? ensures HeadsAfter(nodes, events[..j]).results == [] {
      NothingServed(nodes, events[..j]);
    }
  }

  lemma {:induction false} NothingServed(nodes: nat, events: seq<HeadEvent>)
    requires forall j :: 0 <= j < |events| ==> !events[j].Offered?
    ensures HeadsAfter(nodes, events).results == []
  {
    if events != [] { NothingServed(nodes, events[..|events| - 1]); }
  }

  /** And otherwise not: once start-up has lowered the mark, the next answer may go back. */
  lemma LoweredMarkGoesBack(nodes: nat, events: seq<HeadEvent>)
    requires events != [] && events[|events| - 1].StartFinished?
    requires var s := HeadsAfter(nodes, events[..|events| - 1]);
             s.results != [] && MaxOf(s.heads) < s.results[|s.results| - 1]
    ensures var s := HeadsAfter(nodes, events);
            !Nondecreasing(HeadsAfter(nodes, events + [Offered(0, s.highWater)]).results)
  {
    var s := HeadsAfter(nodes, events);
    var more := events + [Offered(0, s.highWater)];
    assert more[..|more| - 1] == events;
    var results := HeadsAfter(nodes, more).results;
    assert results == s.results + [s.highWater];
    assert results[|s.results| - 1] > results[|s.results|];
  }

  /** Such a run: the provider that served 100 answers 95 to the next request, just before start-up ends. */
  lemma StartUpMayGoBack()
    ensures HeadsAfter(1, [Offered(0, 100), Offered(0, 95), StartFinished, Offered(0, 96)]).results == [100, 96]
  {
    NoHeadsYet();
    var e1 := [Offered(0, 100)];
    var e2 := e1 + [Offered(0, 95)];
    var e3 := e2 + [StartFinished];
    HeadsNext(1, [], Offered(0, 100));
    HeadsNext(1, e1, Offered(0, 95));
    HeadsNext(1, e2, StartFinished);
    HeadsNext(1, e3, Offered(0, 96));
    assert [] + [Offered(0, 100)] == e1;
    assert e3 + [Offered(0, 96)] == [Offered(0, 100), Offered(0, 95), StartFinished, Offered(0, 96)];
    hide HeadsAfter;
    assert HeadsAfter(1, e1) == HeadState([100], 100, [100]);
    assert HeadsAfter(1, e2) == HeadState([95], 100, [100]);
    OneHeadIsHighest(95);
    hide MaxOf;
    assert HeadsAfter(1, e3) == HeadState([95], 95, [100]);
  }

  lemma NoHeadsYet()
    ensures HeadsAfter(1, []) == HeadState([0], 0, [])
  {
  }

  lemma OneHeadIsHighest(head: nat)
    ensures MaxOf([head]) == head
  {
    assert [head][..0] == [];
  }
}
