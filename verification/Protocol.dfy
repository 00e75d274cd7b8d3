/**
  The life of sponsored operations as a state machine. Gateway calls, policy callbacks and
  reconciliations are cut at their awaits, and the pieces of any number of them interleave freely.
  A piece may refuse or crash at any point; every clock reading is a parameter of the step that takes it.
  The provider, the network and the chain are modelled by what they can do to the service:
  issue a grant, receive an operation, execute one operation per nonce, finalize it or drop it again.
 */
module Protocol {
  import opened Prelude
  import opened Operations
  import opened Budget
  import opened Store

  // ---------------------------------------------------------------- the world

  /** An execution on chain; backer is the row whose sponsorship pays when the operation has a paymaster. */
  datatype Exec = Exec(op: UserOp, cost: nat, final: bool, backer: nat)

  type Chain = map<NonceKey, Exec>

  /** What one reconciliation finds out about the record it has read. */
  datatype Facts =
    | Expired
    | NoReceipt(closable: bool)
    | Gone
    | Receipt(transaction: nat, block: nat, inBlock: nat, cost: nat,
              success: bool, enough: bool, final: bool, depositVerified: bool)

  /** A call in progress, between two of its awaits. */
  datatype Proc =
    | Sponsoring(id: nat, op: UserOp)
    | SponsorMarked(id: nat)
    | Policing(id: nat, op: UserOp)
    | PolicyMarked(id: nat)
    | Sending(id: nat, op: UserOp)
    | SendAdmitted(id: nat, op: UserOp)
    | SendFailed(id: nat)
    | Refreshing(id: nat, seen: Operation)
    | Observed(id: nat, seen: Operation, facts: Facts)

  datatype Send = Send(id: nat, op: UserOp)

  /**
    grants holds every row for which a paymaster was asked or a policy callback approved;
    sent lists every operation handed to the network, in order.
   */
  datatype State = State(db: Db, procs: map<nat, Proc>, grants: set<nat>, sent: seq<Send>, chain: Chain)

  const INITIAL := State(Db([], map[]), map[], {}, [], map[])

  datatype Step =
    | Admit(o: Operation)
    | StartSponsor(pid: nat, id: nat, op: UserOp, clock: int)
    | SponsorMark(pid: nat, at: int)
    | CallPaymaster(pid: nat)
    | StartPolicy(pid: nat, id: nat, op: UserOp, clock: int)
    | PolicyMark(pid: nat, at: int)
    | Approve(pid: nat)
    | StartSend(pid: nat, id: nat, op: UserOp, clock: int)
    | AdmitSend(pid: nat, at: int)
    | SendToNetwork(pid: nat, acknowledged: bool)
    | RecordFailure(pid: nat, at: int)
    | Cancel(id: nat, at: int)
    | StartRefresh(pid: nat, id: nat)
    | Observe(pid: nat, facts: Facts, clock: int)
    | ApplyRefresh(pid: nat, at: int)
    | Crash(pid: nat)
    | Restart
    | NewSession(id: nat, session: Session)
    | SetSession(subject: nat, id: nat, state: SessionState)
    | DisableSessions(subject: nat)
    | Execute(key: NonceKey, exec: Exec)
    | Finalize(key: NonceKey)
    | Reorg(key: NonceKey)

  // ---------------------------------------------------------------- what the service checks

  /** The record that registration builds. */
  predicate Registered(o: Operation, limits: Limits) {
    && o.state == AwaitingSignature && o.finality == Pending
    && o.providerOperationId.None? && o.userOperationHash.None? && o.transactionHash.None?
    && o.blockNumber.None? && o.blockHash.None? && o.actualGasCost.None?
    && o.sponsorshipAttempted == Some(false) && o.gasSettledAt.None? && o.gasReleasedAt.None?
    && o.maxGasCost == limits.maxCostPerOperation && o.lane == BudgetLane(o.intent)
    && o.gasPayment.Some? && (o.session.Some? ==> !o.IsSelfFunded())
    && 0 <= o.createdAt == o.updatedAt
  }

  /** Gateway calls act only on operations still open for admission. */
  predicate Admissible(o: Operation, clock: int) {
    o.userOperationHash.None? && o.state == AwaitingSignature
    && clock < o.expiresAt && DayOf(o.createdAt) == DayOf(clock)
  }

  /** The row that a policy callback finds: the latest match. */
  predicate IsPolicyCandidate(rows: seq<Operation>, id: nat, u: UserOp)
    requires id < |rows|
  {
    && MatchesPolicy(rows[id], u)
    && forall j :: 0 <= j < |rows| && MatchesPolicy(rows[j], u) ==> rows[j].createdAt <= rows[id].createdAt
  }

  /** The facts that reconciling a record can produce; those about finality are true of the chain. */
  predicate Observable(seen: Operation, facts: Facts, clock: int, chain: Chain) {
    match facts
    case Expired => seen.userOperationHash.None? && seen.Unsubmitted() && seen.expiresAt <= clock
    case NoReceipt(closable) =>
      Reconciled(seen) && seen.transactionHash.None? && (closable ==> seen.state == Unknown && seen.expiresAt <= clock)
    case Gone => Reconciled(seen)
    case Receipt(transaction, _, _, cost, success, enough, final, depositVerified) =>
      && Reconciled(seen)
      && (seen.transactionHash.Some? ==> transaction == seen.transactionHash.value)
      && (!depositVerified ==> success && seen.intent.DepositUsdc?)
      && (final ==> enough && FinallyExecuted(chain, KeyOf(seen), seen.userOperationHash.value, cost))
  }

  predicate Reconciled(seen: Operation) { seen.userOperationHash.Some? && seen.finality != Finalized }

  predicate FinallyExecuted(chain: Chain, key: NonceKey, u: UserOp, cost: nat) {
    key in chain && chain[key].final && chain[key].op == u && chain[key].cost == cost
  }

  /** The patch with which reconciliation records what it found. */
  function RefreshPatch(seen: Operation, facts: Facts, at: int): Patch {
    match facts
    case Expired => ExpireCancel(at)
    case NoReceipt(closable) => if closable then UnacceptedCancel(at) else Touch(at)
    case Gone => Reorganize(at)
    case Receipt(transaction, block, inBlock, cost, success, enough, final, depositVerified) =>
      Settle(
        if !depositVerified then Unknown else if !enough then Confirming else if success then Confirmed else Reverted,
        if !depositVerified || !enough then Pending else if final then Finalized else ApplicationConfirmed,
        transaction, block, inBlock, cost,
        if final && depositVerified then Some(seen.gasSettledAt.GetOr(at)) else None,
        at)
  }

  /** A paymaster pays only for an operation that some row reserved for, and obtained a grant or was submitted as. */
  predicate Backed(s: State, key: NonceKey, e: Exec) {
    && e.backer < |s.db.rows|
    && var o := s.db.rows[e.backer];
       !o.IsSelfFunded() && KeyOf(o) == key && Bound(o, e.op) && e.op.MaxCost() <= o.maxGasCost
       && (e.backer in s.grants || o.userOperationHash == Some(e.op))
  }

  predicate Executable(s: State, key: NonceKey, e: Exec) {
    && key !in s.chain && !e.final
    && e.op.sender == key.account && e.op.nonce == key.nonce && e.cost <= e.op.MaxCost()
    && (e.op.paymaster.Some? ==> Backed(s, key, e))
  }

  // ---------------------------------------------------------------- steps

  predicate Enabled(limits: Limits, s: State, step: Step) {
    var rows, procs := s.db.rows, s.procs;
    match step
    case Admit(o) => Registered(o, limits)
    case StartSponsor(pid, id, u, clock) =>
      pid !in procs && id < |rows| && !rows[id].IsSelfFunded() && Admissible(rows[id], clock)
      && Bound(rows[id], u) && WithinCeiling(rows[id], u, false)
    case SponsorMark(pid, _) => pid in procs && procs[pid].Sponsoring? && procs[pid].id < |rows|
    case CallPaymaster(pid) => pid in procs && procs[pid].SponsorMarked?
    case StartPolicy(pid, id, u, clock) =>
      pid !in procs && id < |rows| && IsPolicyCandidate(rows, id, u) && !rows[id].IsSelfFunded()
      && clock < rows[id].expiresAt && DayOf(rows[id].createdAt) == DayOf(clock)
      && Bound(rows[id], u) && WithinCeiling(rows[id], u, false)
    case PolicyMark(pid, _) => pid in procs && procs[pid].Policing? && procs[pid].id < |rows|
    case Approve(pid) => pid in procs && procs[pid].PolicyMarked?
    case StartSend(pid, id, u, clock) =>
      pid !in procs && id < |rows| && Admissible(rows[id], clock)
      && Bound(rows[id], u) && WithinCeiling(rows[id], u, true)
    case AdmitSend(pid, _) => pid in procs && procs[pid].Sending? && procs[pid].id < |rows|
    case SendToNetwork(pid, _) => pid in procs && procs[pid].SendAdmitted?
    case RecordFailure(pid, _) => pid in procs && procs[pid].SendFailed? && procs[pid].id < |rows|
    case Cancel(id, _) => id < |rows|
    case StartRefresh(pid, id) => pid !in procs && id < |rows|
    case Observe(pid, facts, clock) =>
      pid in procs && procs[pid].Refreshing? && Observable(procs[pid].seen, facts, clock, s.chain)
    case ApplyRefresh(pid, _) => pid in procs && procs[pid].Observed? && procs[pid].id < |rows|
    case Crash(pid) => pid in procs
    case Restart => true
    case NewSession(id, session) => id !in s.db.sessions && session.state == Prepared
    case SetSession(_, _, state) => state != Prepared
    case DisableSessions(_) => true
    case Execute(key, e) => Executable(s, key, e)
    case Finalize(key) => key in s.chain
    case Reorg(key) => key in s.chain && !s.chain[key].final
  }

  datatype Change = Change(id: nat, patch: Patch)

  function Applied(db: Db, attempt: Option<Change>): Db
    requires attempt.Some? ==> attempt.value.id < |db.rows|
  {
    match attempt
    case Some(Change(id, patch)) => Transitioned(db, id, patch).0
    case None => db
  }

  /** The compare-and-set that a step attempts, if it is one. */
  function Attempt(limits: Limits, s: State, step: Step): (attempt: Option<Change>)
    requires Enabled(limits, s, step)
    ensures attempt.Some? ==> attempt.value.id < |s.db.rows|
  {
    match step
    case SponsorMark(pid, at) => Some(Change(s.procs[pid].id, MarkSponsor(at)))
    case PolicyMark(pid, at) => Some(Change(s.procs[pid].id, MarkPolicy(at)))
    case AdmitSend(pid, at) => Some(Change(s.procs[pid].id, Submit(s.procs[pid].op, at)))
    case RecordFailure(pid, at) => Some(Change(s.procs[pid].id, FailSend(at)))
    case Cancel(id, at) => Some(Change(id, UserCancel(at)))
    case ApplyRefresh(pid, at) =>
      Some(Change(s.procs[pid].id, RefreshPatch(s.procs[pid].seen, s.procs[pid].facts, at)))
    case _ => None
  }

  function DbAfter(limits: Limits, db: Db, step: Step, attempt: Option<Change>): Db
    requires attempt.Some? ==> attempt.value.id < |db.rows|
    requires step.SetSession? ==> step.state != Prepared
  {
    match step
    case Admit(o) => Admitted(db, o, limits).0
    case Restart => db.(rows := RestartedRows(db.rows))
    case NewSession(id, session) => db.(sessions := db.sessions[id := session])
    case SetSession(subject, id, state) => SessionSet(db, subject, id, state).0
    case DisableSessions(subject) => db.(sessions := SessionsDisabled(db.sessions, subject))
    case _ => Applied(db, attempt)
  }

  /** A step's compare-and-set finds the row in a state it may be applied from. */
  predicate Wins(limits: Limits, s: State, step: Step)
    requires Enabled(limits, s, step)
  {
    var attempt := Attempt(limits, s, step);
    attempt.Some? && s.db.rows[attempt.value.id].state in From(attempt.value.patch)
  }

  function ProcsAfter(limits: Limits, s: State, step: Step): map<nat, Proc>
    requires Enabled(limits, s, step)
  {
    var rows, procs, won := s.db.rows, s.procs, Wins(limits, s, step);
    match step
    case StartSponsor(pid, id, u, _) => procs[pid := Sponsoring(id, u)]
    case SponsorMark(pid, _) => if won then procs[pid := SponsorMarked(procs[pid].id)] else procs - {pid}
    case CallPaymaster(pid) => procs - {pid}
    case StartPolicy(pid, id, u, _) => procs[pid := Policing(id, u)]
    case PolicyMark(pid, _) => if won then procs[pid := PolicyMarked(procs[pid].id)] else procs - {pid}
    case Approve(pid) => procs - {pid}
    case StartSend(pid, id, u, _) => procs[pid := Sending(id, u)]
    case AdmitSend(pid, _) => if won then procs[pid := SendAdmitted(procs[pid].id, procs[pid].op)] else procs - {pid}
    case SendToNetwork(pid, acknowledged) => if acknowledged then procs - {pid} else procs[pid := SendFailed(procs[pid].id)]
    case RecordFailure(pid, _) => procs - {pid}
    case StartRefresh(pid, id) => procs[pid := Refreshing(id, rows[id])]
    case Observe(pid, facts, _) => procs[pid := Observed(procs[pid].id, procs[pid].seen, facts)]
    case ApplyRefresh(pid, _) => procs - {pid}
    case Crash(pid) => procs - {pid}
    case _ => procs
  }

  function ChainAfter(chain: Chain, step: Step): Chain
    requires step.Finalize? || step.Reorg? ==> step.key in chain
  {
    match step
    case Execute(key, e) => chain[key := e]
    case Finalize(key) => chain[key := chain[key].(final := true)]
    case Reorg(key) => chain - {key}
    case _ => chain
  }

  function After(limits: Limits, s: State, step: Step): State
    requires Enabled(limits, s, step)
  {
    State(
      DbAfter(limits, s.db, step, Attempt(limits, s, step)), ProcsAfter(limits, s, step),
      if step.CallPaymaster? || step.Approve? then s.grants + {s.procs[step.pid].id} else s.grants,
      if step.SendToNetwork? then s.sent + [Send(s.procs[step.pid].id, s.procs[step.pid].op)] else s.sent,
      ChainAfter(s.chain, step))
  }

  /** The state after a sequence of steps from the empty service, if each is possible in turn. */
  function Run(limits: Limits, steps: seq<Step>): Option<State> {
    if steps == [] then Some(INITIAL)
    else
      var before := Run(limits, steps[..|steps| - 1]);
      var last := steps[|steps| - 1];
      if before.Some? && Enabled(limits, before.value, last) then Some(After(limits, before.value, last)) else None
  }
}
