/**
  The gateway's calls as they run when nothing interferes, on the store itself. Each is a sequence of the
  protocol's steps: what it refuses, what it writes before it reaches a provider, and what it returns.
 */
module Gateway {
  import opened Prelude
  import opened Operations
  import opened Calendar
  import opened Budget
  import opened Store
  import opened Protocol
  import opened Quota

  datatype GatewayError =
    | UserOperationMismatch | InvalidFields | SelfFundedPaymaster | GasCostExceedsLimit | InvalidGasEstimate
    | AlreadySubmitted | AdmissionExpired | ResultUnknown | UnusableGrant

  /** The binding and ceiling checks in their order. */
  function CheckOperation(o: Operation, u: UserOp, complete: bool): Option<GatewayError> {
    if !Bound(o, u) then Some(UserOperationMismatch)
    else if complete && !u.HasGasFields() then Some(InvalidFields)
    else if o.IsSelfFunded() && !u.NoPaymasterFields() then Some(SelfFundedPaymaster)
    else if !o.IsSelfFunded() && complete && !u.HasPaymasterFields() then Some(InvalidFields)
    else if u.MaxCost() > o.maxGasCost || u.maxPriorityFee.GetOr(0) > u.maxFee.GetOr(0) then Some(GasCostExceedsLimit)
    else if complete && u.MaxCost() == 0 then Some(InvalidGasEstimate)
    else None
  }

  /** Passing them is being bound to the operation and within its ceiling. */
  lemma ChecksAreExact(o: Operation, u: UserOp, complete: bool)
    ensures CheckOperation(o, u, complete).None? <==> Bound(o, u) && WithinCeiling(o, u, complete)
  {
  }

  /** Every refusal of a send or a sponsor request, in order; a repeated send of the stored hash is not one. */
  function Refused(o: Operation, u: UserOp, sending: bool, clock: int): Option<GatewayError> {
    if !sending && o.IsSelfFunded() then Some(SelfFundedPaymaster)
    else
      var failed := CheckOperation(o, u, sending);
      if failed.Some? then failed
      else if o.userOperationHash.Some? then
        if sending && o.userOperationHash == Some(u) then None else Some(AlreadySubmitted)
      else if o.state != AwaitingSignature || o.expiresAt <= clock || DayOf(o.createdAt) != DayOf(clock) then
        Some(AdmissionExpired)
      else None
  }

  /** A call that is not refused, and does not repeat a send, is one that the protocol lets start. */
  lemma UnrefusedMayStart(limits: Limits, s: State, pid: nat, id: nat, u: UserOp, clock: int)
    requires pid !in s.procs && id < |s.db.rows|
    ensures Enabled(limits, s, StartSend(pid, id, u, clock))
            <==> Refused(s.db.rows[id], u, true, clock).None? && s.db.rows[id].userOperationHash.None?
    ensures Enabled(limits, s, StartSponsor(pid, id, u, clock)) <==> Refused(s.db.rows[id], u, false, clock).None?
  {
    ChecksAreExact(s.db.rows[id], u, true);
    ChecksAreExact(s.db.rows[id], u, false);
    hide Bound, WithinCeiling, DayOf, CheckOperation;
  }

  /** What the network says to a submission: the hash it accepted, or anything else. */
  datatype Delivery = Accepted(hash: UserOp) | Failed

  /** Open for a gateway call: never submitted, not expired, and on the day it was registered. */
  predicate Open(o: Operation, clock: int) {
    o.state == AwaitingSignature && o.userOperationHash.None? && clock < o.expiresAt && o.createdAt / DAY == clock / DAY
  }

  /** The operation is the one that was registered, up to gas and paymaster. */
  predicate SameCall(o: Operation, u: UserOp) {
    u == u.(sender := o.account, nonce := o.nonce, callData := o.callData, factory := o.factory, factoryData := o.factoryData)
  }

  /** All gas at the maximum fee costs no more than was reserved, and the priority fee is part of that fee. */
  predicate Affordable(o: Operation, u: UserOp) {
    && (u.callGas.GetOr(0) + u.verificationGas.GetOr(0) + u.preVerificationGas.GetOr(0)
        + u.paymasterVerificationGas.GetOr(0) + u.paymasterPostOpGas.GetOr(0)) * u.maxFee.GetOr(0) <= o.maxGasCost
    && u.maxPriorityFee.GetOr(0) <= u.maxFee.GetOr(0)
  }

  predicate Unsponsored(u: UserOp) {
    u.paymaster.None? && u.paymasterData.None? && u.paymasterVerificationGas.None? && u.paymasterPostOpGas.None?
  }

  /** Every gas field is there, and every paymaster field exactly if the project pays. */
  predicate Filled(o: Operation, u: UserOp) {
    && u.callGas.Some? && u.verificationGas.Some? && u.preVerificationGas.Some? && u.maxFee.Some? && u.maxPriorityFee.Some?
    && u.MaxCost() > 0
    && if o.gasPayment == Some(SelfFunded) then Unsponsored(u)
       else u.paymaster.Some? && u.paymasterData.Some? && u.paymasterVerificationGas.Some? && u.paymasterPostOpGas.Some?
  }

  lemma BoundAndAffordable(o: Operation, u: UserOp)
    ensures Bound(o, u) && WithinCeiling(o, u, true) <==> SameCall(o, u) && Affordable(o, u) && Filled(o, u)
    ensures Bound(o, u) && WithinCeiling(o, u, false)
            <==> SameCall(o, u) && Affordable(o, u) && (o.gasPayment == Some(SelfFunded) ==> Unsponsored(u))
  {
  }

  /** A send is let through exactly for an open row, with every field filled in, the registered call and an affordable cost. */
  lemma SentExactly(o: Operation, u: UserOp, clock: int)
    ensures Refused(o, u, true, clock).None? && o.userOperationHash.None?
            <==> Open(o, clock) && SameCall(o, u) && Affordable(o, u) && Filled(o, u)
  {
    ChecksAreExact(o, u, true);
    BoundAndAffordable(o, u);
    hide Bound, WithinCeiling, SameCall, Affordable, Filled, CheckOperation;
  }

  /** A repeated send is answered with the stored hash exactly if it is the operation that was sent, whenever it is repeated. */
  lemma RepeatedExactly(o: Operation, u: UserOp, clock: int)
    ensures Refused(o, u, true, clock).None? && o.userOperationHash.Some?
            <==> o.userOperationHash == Some(u) && SameCall(o, u) && Affordable(o, u) && Filled(o, u)
  {
    ChecksAreExact(o, u, true);
    BoundAndAffordable(o, u);
    hide Bound, WithinCeiling, SameCall, Affordable, Filled, CheckOperation;
  }

  /** A paymaster is asked exactly for an open sponsored row, the registered call and a cost affordable so far. */
  lemma SponsoredExactly(o: Operation, u: UserOp, clock: int)
    ensures Refused(o, u, false, clock).None?
            <==> o.gasPayment != Some(SelfFunded) && Open(o, clock) && SameCall(o, u) && Affordable(o, u)
  {
    ChecksAreExact(o, u, false);
    BoundAndAffordable(o, u);
    hide Bound, WithinCeiling, SameCall, Affordable, Filled, CheckOperation;
  }

  class AuthenticatedAAGateway {
    const store: ApplicationStore

    constructor (s: ApplicationStore)
      ensures store == s
    {
      store := s;
    }

    /**
      Submit an operation. The network is reached at most once, only for a row that had no hash, and only after
      the hash is stored; repeating a submission returns the stored hash without reaching it again.
     */
    method SendUserOperation(id: nat, u: UserOp, clock: int, at: int, delivery: Delivery, failedAt: int)
      returns (r: Result<UserOp, GatewayError>, sent: bool)
      requires id < |store.rows|
      modifies store`rows
      ensures |store.rows| == |old(store.rows)|
      ensures var o := old(store.rows[id]);
              sent <==> Refused(o, u, true, clock).None? && o.userOperationHash.None?
      ensures !sent ==> store.rows == old(store.rows)
      ensures sent ==> store.rows[id].userOperationHash == Some(u) && old(store.rows[id]).userOperationHash.None?
      ensures sent ==> (store.rows[id]
                        == old(store.rows[id]).(userOperationHash := Some(u), providerOperationId := Some(u),
                                                state := if delivery == Accepted(u) then Submitted else Unknown,
                                                updatedAt := if delivery == Accepted(u) then at else failedAt))
      ensures r.Ok? ==> r.value == u && store.rows[id].userOperationHash == Some(u)
      ensures r.Ok? <==> Refused(old(store.rows[id]), u, true, clock).None? && (sent ==> delivery == Accepted(u))
      ensures r.Err? ==> r.error == if sent then ResultUnknown else Refused(old(store.rows[id]), u, true, clock).value
      ensures forall j :: 0 <= j < |store.rows| && j != id ==> store.rows[j] == old(store.rows[j])
    {
      hide Bound, WithinCeiling, CheckOperation, DayOf;
      var o := store.rows[id];
      var refusal := Refused(o, u, true, clock);
      if refusal.Some? { return Err(refusal.value), false; }
      if o.userOperationHash.Some? { return Ok(u), false; }
      var won, row := store.Transition(id, Submit(u, at));
      sent := true;
      if delivery == Accepted(u) { return Ok(u), true; }
      won, row := store.Transition(id, FailSend(failedAt));
      r := Err(ResultUnknown);
    }

    /**
      Ask the paymaster. The attempt is recorded before the request, so that the row can no longer be cancelled
      free of charge; a grant that breaks the binding or the ceiling is not passed on.
     */
    method SponsorUserOperation(id: nat, u: UserOp, clock: int, at: int, grant: Option<UserOp>)
      returns (r: Result<UserOp, GatewayError>, asked: bool)
      requires id < |store.rows|
      modifies store`rows
      ensures asked <==> Refused(old(store.rows[id]), u, false, clock).None?
      ensures store.rows == if asked
                            then old(store.rows)[id := old(store.rows)[id].(sponsorshipAttempted := Some(true), updatedAt := at)]
                            else old(store.rows)
      ensures asked ==> !store.rows[id].IsSelfFunded()
      ensures r.Ok? <==> asked && grant.Some? && Bound(old(store.rows[id]), grant.value)
                         && WithinCeiling(old(store.rows[id]), grant.value, true)
      ensures r.Ok? ==> r.value == grant.value
      ensures r.Err? ==> r.error == if !asked then Refused(old(store.rows[id]), u, false, clock).value
                                    else if grant.None? then UnusableGrant
                                    else CheckOperation(old(store.rows[id]), grant.value, true).GetOr(UnusableGrant)
    {
      var o := store.rows[id];
      var refusal := Refused(o, u, false, clock);
      if refusal.Some? { return Err(refusal.value), false; }
      hide Bound, WithinCeiling, CheckOperation, DayOf;
      var won, row := store.Transition(id, MarkSponsor(at));
      asked := true;
      if grant.None? { return Err(UnusableGrant), true; }
      ChecksAreExact(row, grant.value, true);
      CeilingIsRegistered(o, row);
      var failed := CheckOperation(row, grant.value, true);
      if failed.Some? { return Err(failed.value), true; }
      r := Ok(grant.value);
    }

    /** The provider's policy callback: approves only what it has recorded as attempted. */
    method Policy(u: UserOp, clock: int, at: int) returns (proceed: bool, ghost id: nat)
      modifies store`rows
      ensures proceed ==>
                && id < |old(store.rows)| && !old(store.rows)[id].IsSelfFunded()
                && store.rows == old(store.rows)[id := old(store.rows)[id].(sponsorshipAttempted := Some(true), updatedAt := at)]
                && IsPolicyCandidate(old(store.rows), id, u) && Approvable(old(store.rows), id, u, clock)
      ensures !proceed ==> store.rows == old(store.rows)
      ensures (exists i :: 0 <= i < |old(store.rows)| && Approvable(old(store.rows), i, u, clock))
              && (forall i, j :: 0 <= i < j < |old(store.rows)| ==> !(MatchesPolicy(old(store.rows)[i], u) && MatchesPolicy(old(store.rows)[j], u)))
              ==> proceed
    {
      proceed, id := false, 0;
      var candidate := store.PolicyCandidate(u);
      if candidate.None? { return; }
      var o := store.rows[candidate.value];
      ApprovedExactly(store.rows, u, clock);
      hide Bound, WithinCeiling, CheckOperation, DayOf, Approvable;
      id := candidate.value;
      if o.IsSelfFunded() || o.expiresAt <= clock || DayOf(o.createdAt) != DayOf(clock) { return; }
      if CheckOperation(o, u, false).Some? { return; }
      var won, row := store.Transition(candidate.value, MarkPolicy(at));
      proceed := won;
    }
  }

  /** A row that the callback may approve. */
  ghost predicate Approvable(rows: seq<Operation>, i: nat, u: UserOp, clock: int)
    requires i < |rows|
  {
    && rows[i].state in {AwaitingSignature, Submitted, Confirming, Unknown}
    && rows[i].gasPayment != Some(SelfFunded) && clock < rows[i].expiresAt && rows[i].createdAt / DAY == clock / DAY
    && SameCall(rows[i], u) && Affordable(rows[i], u)
  }

  lemma ApprovedExactly(rows: seq<Operation>, u: UserOp, clock: int)
    ensures forall i :: 0 <= i < |rows| ==>
              var o := rows[i];
              (Approvable(rows, i, u, clock)
               <==> MatchesPolicy(o, u) && !o.IsSelfFunded() && clock < o.expiresAt && DayOf(o.createdAt) == DayOf(clock)
                    && CheckOperation(o, u, false).None?)
  {
    forall i | 0 <= i < |rows|
      ensures Approvable(rows, i, u, clock)
              <==> MatchesPolicy(rows[i], u) && !rows[i].IsSelfFunded() && clock < rows[i].expiresAt
                   && DayOf(rows[i].createdAt) == DayOf(clock) && CheckOperation(rows[i], u, false).None?
    {
      ChecksAreExact(rows[i], u, false);
      BoundAndAffordable(rows[i], u);
      hide WithinCeiling, CheckOperation, Affordable;
    }
  }

  // ---------------------------------------------------------------- registration and cancellation

  /** What a client registers; the amounts and times come from the service. */
  datatype Request = Request(
    subject: nat, key: nat, requestHash: nat, deployment: nat, accountId: nat, account: Address, nonce: nat,
    callData: nat, factory: Option<Address>, factoryData: Option<nat>, intent: Intent, session: Option<nat>,
    gasPayment: GasPayment)

  function InitialRecord(q: Request, limits: Limits, validitySeconds: nat, now: int): Operation {
    Operation(q.subject, q.key, q.requestHash, q.deployment, q.accountId, q.account, q.nonce, q.callData,
              q.factory, q.factoryData, q.intent, q.session, BudgetLane(q.intent), Some(q.gasPayment),
              limits.maxCostPerOperation, now, now, now + validitySeconds * 1000,
              AwaitingSignature, Pending, None, None, None, None, None, None, Some(false), None, None)
  }

  /** The record of a registration is the one the protocol admits. */
  lemma InitialRecordIsRegistered(q: Request, limits: Limits, validitySeconds: nat, now: int)
    requires 0 <= now && (q.session.Some? ==> q.gasPayment == Sponsored)
    ensures Registered(InitialRecord(q, limits, validitySeconds, now), limits)
  {
  }

  /** A new row carries its request, the service's ceiling and times, and nothing that is only known later. */
  predicate Carries(o: Operation, q: Request, limits: Limits, validitySeconds: nat, now: int) {
    && o.subject == q.subject && o.key == q.key && o.requestHash == q.requestHash
    && o.deployment == q.deployment && o.accountId == q.accountId && o.account == q.account
    && o.nonce == q.nonce && o.callData == q.callData && o.factory == q.factory && o.factoryData == q.factoryData
    && o.intent == q.intent && o.session == q.session && o.gasPayment == Some(q.gasPayment)
    && (o.lane == Exit <==> q.intent.ExitIntent?) && o.maxGasCost == limits.maxCostPerOperation
    && o.createdAt == now && o.updatedAt == now && o.expiresAt - now == 1000 * validitySeconds
    && o.state == AwaitingSignature && o.finality == Pending && o.sponsorshipAttempted == Some(false)
    && o.providerOperationId.None? && o.userOperationHash.None? && o.transactionHash.None? && o.blockNumber.None?
    && o.blockHash.None? && o.actualGasCost.None? && o.gasSettledAt.None? && o.gasReleasedAt.None?
  }

  /** The record of a registration is the only one that carries its request. */
  lemma RecordCarriesRequest(o: Operation, q: Request, limits: Limits, validitySeconds: nat, now: int)
    ensures Carries(o, q, limits, validitySeconds, now) <==> o == InitialRecord(q, limits, validitySeconds, now)
  {
  }

  /** The session of a request exists, belongs to the user and the account, is active, and has enough left. */
  predicate SessionAllows(db: Db, q: Request, now: int)
    requires q.session.Some?
  {
    var id := q.session.value;
    && id in db.sessions
    && var s := db.sessions[id];
       && s.subject == q.subject && s.accountId == q.accountId && s.state == Active && now < s.validUntil * 1000
       && SessionSpend(q.intent) <= s.perOperation
       && SessionView(db.rows, id).Used() + SessionSpend(q.intent) <= s.total
  }

  /** Without a row of its key, a record is refused or appended; a session has answered for it. */
  lemma RegistrationAnswer(db: Db, o: Operation, limits: Limits)
    requires FindKey(db.rows, o.subject, o.key) == |db.rows|
    ensures var (next, r) := Admitted(db, o, limits);
            && (r.Err? ==> next == db)
            && (r.Ok? ==> next == db.(rows := db.rows + [o]) && r.value == |db.rows| && SessionAnswer(db, o).None?)
  {
    hide SessionAnswer, Applicant.QuotaAnswer, Loaded, Admitted;
    NewAdmission(db, o, limits);
  }

  lemma SessionAllowed(db: Db, q: Request, o: Operation, now: int)
    requires q.session.Some? && o.session == q.session && o.intent == q.intent && o.createdAt == now
    requires o.subject == q.subject && o.accountId == q.accountId && SessionAnswer(db, o).None?
    ensures SessionAllows(db, q, now)
  {
    hide SessionView.Used, SessionSpend;
  }

  class OperationService {
    const store: ApplicationStore

    constructor (s: ApplicationStore)
      ensures store == s
    {
      store := s;
    }

    /**
      Registering twice with one key returns the first operation, or reports a different request. Otherwise the
      request is refused, and nothing changes, or its row is added; with a session only if that allows it.
     */
    method Register(q: Request, limits: Limits, validitySeconds: nat, now: int) returns (r: Result<nat, AdmitError>)
      requires q.session.Some? ==> q.gasPayment == Sponsored
      modifies store`rows
      ensures var known := FindKey(old(store.rows), q.subject, q.key);
              if known < |old(store.rows)| then
                store.rows == old(store.rows)
                && r == if old(store.rows)[known].requestHash == q.requestHash then Ok(known) else Err(IdempotencyConflict)
              else
                && (r.Err? ==> store.rows == old(store.rows))
                && (r.Ok? ==> r.value == |old(store.rows)| && |store.rows| == |old(store.rows)| + 1
                              && store.rows[..r.value] == old(store.rows)
                              && Carries(store.rows[r.value], q, limits, validitySeconds, now)
                              && (q.session.Some? ==> SessionAllows(old(store.View()), q, now)))
      ensures FindKey(old(store.rows), q.subject, q.key) >= |old(store.rows)| ==>
                forall o :: Carries(o, q, limits, validitySeconds, now) ==>
                  (store.View(), r) == Admitted(old(store.View()), o, limits)
    {
      var known := store.PriorOperation(q.subject, q.key);
      if known < |store.rows| {
        if store.rows[known].requestHash != q.requestHash { return Err(IdempotencyConflict); }
        return Ok(known);
      }
      ghost var before := store.View();
      ghost var record := InitialRecord(q, limits, validitySeconds, now);
      forall o { RecordCarriesRequest(o, q, limits, validitySeconds, now); }
      RegistrationAnswer(before, record, limits);
      r := store.Admit(InitialRecord(q, limits, validitySeconds, now), limits);
      if r.Ok? && q.session.Some? { SessionAllowed(before, q, record, now); }
    }

    /** An operation can be cancelled exactly until it is submitted; free of charge exactly if sponsorship was not attempted. */
    method Cancel(id: nat, at: int) returns (ok: bool)
      requires id < |store.rows| && RowValid(store.rows[id])
      modifies store`rows
      ensures ok == old(store.rows[id]).Unsubmitted()
      ensures !ok ==> store.rows == old(store.rows)
      ensures ok ==> |store.rows| == |old(store.rows)| && store.rows[id].state == Cancelled
                     && store.rows == old(store.rows)[id := store.rows[id]]
      ensures ok ==> store.rows[id].gasReleasedAt
                     == if old(store.rows[id]).sponsorshipAttempted == Some(false) then Some(at) else None
      ensures ok ==> (store.rows[id] == old(store.rows[id]).(state := Cancelled, updatedAt := at,
                                                             gasReleasedAt := store.rows[id].gasReleasedAt))
    {
      hide Bound, WithinCeiling, BudgetLane;
      var row: Operation;
      ok, row := store.Transition(id, UserCancel(at));
    }
  }
}
