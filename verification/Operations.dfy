/** Stored operations, the patches that change them, and the gateway's admission checks on a UserOperation. */
module Operations {
  import opened Prelude

  type Address = nat

  datatype Status =
    | Preparing | AwaitingSignature | Submitted | Confirming | Confirmed | Reverted | Cancelled | Unknown

  datatype Finality = Pending | ApplicationConfirmed | Finalized

  datatype Lane = Exposure | Exit

  datatype GasPayment = Sponsored | SelfFunded

  /** The intents whose amounts or sources matter here; every other kind belongs to the exit lane. */
  datatype Intent =
    | Faucet
    | DepositUsdc(depositId: nat, source: Address)
    | Buy(maxPayment: nat)
    | CreateMarket
    | CreateOrder(bid: bool, units: nat, unitPrice: nat)
    | FillOrder(ask: bool, paymentLimit: nat)
    | CreateListing
    | FillListing(maxPayment: nat)
    | ExitIntent(kind: nat)

  predicate SameKind(a: Intent, b: Intent) {
    match a
    case Faucet => b.Faucet?
    case DepositUsdc(_, _) => b.DepositUsdc?
    case Buy(_) => b.Buy?
    case CreateMarket => b.CreateMarket?
    case CreateOrder(_, _, _) => b.CreateOrder?
    case FillOrder(_, _) => b.FillOrder?
    case CreateListing => b.CreateListing?
    case FillListing(_) => b.FillListing?
    case ExitIntent(k) => b.ExitIntent? && b.kind == k
  }

  function BudgetLane(i: Intent): Lane { if i.ExitIntent? then Exit else Exposure }

  /** The payment token a session can lose to one intent; a bid reserves its price rounded up. */
  function SessionSpend(i: Intent): nat {
    match i
    case CreateOrder(bid, units, unitPrice) => if bid then (units * unitPrice + 999_999) / 1_000_000 else 0
    case FillOrder(ask, paymentLimit) => if ask then paymentLimit else 0
    case Buy(maxPayment) => maxPayment
    case FillListing(maxPayment) => maxPayment
    case _ => 0
  }

  /**
    A UserOperation without its signature. Its hash covers exactly these fields, so the value itself
    stands for the hash: equal hashes are equal operations.
   */
  datatype UserOp = UserOp(
    sender: Address, nonce: nat, callData: nat, factory: Option<Address>, factoryData: Option<nat>,
    callGas: Option<nat>, verificationGas: Option<nat>, preVerificationGas: Option<nat>,
    paymasterVerificationGas: Option<nat>, paymasterPostOpGas: Option<nat>,
    maxFee: Option<nat>, maxPriorityFee: Option<nat>,
    paymaster: Option<Address>, paymasterData: Option<nat>)
  {
    /** The most the EntryPoint can charge for it: all gas limits at the maximum fee. */
    function MaxCost(): nat {
      (callGas.GetOr(0) + verificationGas.GetOr(0) + preVerificationGas.GetOr(0)
       + paymasterVerificationGas.GetOr(0) + paymasterPostOpGas.GetOr(0)) * maxFee.GetOr(0)
    }
    predicate HasGasFields() {
      callGas.Some? && verificationGas.Some? && preVerificationGas.Some? && maxFee.Some? && maxPriorityFee.Some?
    }
    predicate HasPaymasterFields() {
      paymaster.Some? && paymasterData.Some? && paymasterVerificationGas.Some? && paymasterPostOpGas.Some?
    }
    predicate NoPaymasterFields() {
      paymaster.None? && paymasterData.None? && paymasterVerificationGas.None? && paymasterPostOpGas.None?
    }
  }

  datatype Operation = Operation(
    subject: nat, key: nat, requestHash: nat,
    deployment: nat, accountId: nat, account: Address, nonce: nat, callData: nat,
    factory: Option<Address>, factoryData: Option<nat>,
    intent: Intent, session: Option<nat>, lane: Lane, gasPayment: Option<GasPayment>, maxGasCost: nat,
    createdAt: int, updatedAt: int, expiresAt: int,
    state: Status, finality: Finality,
    providerOperationId: Option<UserOp>, userOperationHash: Option<UserOp>, transactionHash: Option<nat>,
    blockNumber: Option<nat>, blockHash: Option<nat>, actualGasCost: Option<nat>,
    sponsorshipAttempted: Option<bool>, gasSettledAt: Option<int>, gasReleasedAt: Option<int>)
  {
    predicate IsSelfFunded() { gasPayment == Some(SelfFunded) }
    predicate Recoverable() { state == Submitted || state == Confirming || state == Unknown }
    predicate Unsubmitted() { state == Preparing || state == AwaitingSignature }
    predicate Unfinished() { Recoverable() || Unsubmitted() }
  }

  // ---------------------------------------------------------------- gateway checks

  predicate Bound(o: Operation, u: UserOp) {
    o.account == u.sender && o.nonce == u.nonce && o.callData == u.callData
    && o.factory == u.factory && o.factoryData == u.factoryData
  }

  /** assertGasCeiling: the sponsored gas of u can never exceed what o reserved. */
  predicate WithinCeiling(o: Operation, u: UserOp, complete: bool) {
    && (complete ==> u.HasGasFields())
    && (o.IsSelfFunded() ==> u.NoPaymasterFields())
    && (!o.IsSelfFunded() && complete ==> u.HasPaymasterFields())
    && u.MaxCost() <= o.maxGasCost
    && u.maxPriorityFee.GetOr(0) <= u.maxFee.GetOr(0)
    && (complete ==> u.MaxCost() != 0)
  }

  // ---------------------------------------------------------------- patches

  /** One constructor per place that changes a stored operation; `at` becomes updatedAt. */
  datatype Patch =
    | Submit(hash: UserOp, at: int)
    | FailSend(at: int)
    | MarkSponsor(at: int)
    | MarkPolicy(at: int)
    | UserCancel(at: int)
    | ExpireCancel(at: int)
    | UnacceptedCancel(at: int)
    | Touch(at: int)
    | Reorganize(at: int)
    | Settle(status: Status, finality: Finality, transaction: nat, block: nat, inBlock: nat, cost: nat,
             settledAt: Option<int>, at: int)

  /** The states a patch may be applied from. */
  function From(p: Patch): set<Status> {
    match p
    case Submit(_, _) => {AwaitingSignature}
    case FailSend(_) => {Submitted}
    case MarkSponsor(_) => {AwaitingSignature}
    case MarkPolicy(_) => {AwaitingSignature, Submitted, Confirming, Unknown}
    case UserCancel(_) => {Preparing, AwaitingSignature}
    case ExpireCancel(_) => {Preparing, AwaitingSignature}
    case UnacceptedCancel(_) => {Unknown}
    case Touch(_) => {Submitted, Unknown, Confirming}
    case Reorganize(_) => {Submitted, Confirming, Confirmed, Reverted, Unknown}
    case Settle(_, _, _, _, _, _, _, _) => {Submitted, Unknown, Confirming, Confirmed, Reverted}
  }

  function Merge(o: Operation, p: Patch): Operation {
    match p
    case Submit(u, at) =>
      o.(state := Submitted, userOperationHash := Some(u), providerOperationId := Some(u), updatedAt := at)
    case FailSend(at) => o.(state := Unknown, updatedAt := at)
    case MarkSponsor(at) => o.(sponsorshipAttempted := Some(true), updatedAt := at)
    case MarkPolicy(at) => o.(sponsorshipAttempted := Some(true), updatedAt := at)
    case UserCancel(at) => o.(state := Cancelled, updatedAt := at)
    case ExpireCancel(at) => o.(state := Cancelled, updatedAt := at)
    case UnacceptedCancel(at) => o.(state := Cancelled, updatedAt := at)
    case Touch(at) => o.(updatedAt := at)
    case Reorganize(at) =>
      o.(state := Unknown, finality := Pending, transactionHash := None, blockHash := None, blockNumber := None,
         actualGasCost := None, updatedAt := at)
    case Settle(status, finality, transaction, block, inBlock, cost, settledAt, at) =>
      o.(state := status, finality := finality, transactionHash := Some(transaction), blockNumber := Some(block),
         blockHash := Some(inBlock), actualGasCost := Some(cost), updatedAt := at,
         gasSettledAt := if settledAt.Some? then settledAt else o.gasSettledAt)
  }

  /** Only a cancellation that no sponsorship can have escaped releases its reservation. */
  predicate CertifiesRelease(before: Operation, next: Operation) {
    next.state == Cancelled && before.sponsorshipAttempted == Some(false) && next.userOperationHash.None?
    && next.providerOperationId.None? && next.transactionHash.None?
  }

  function ApplyPatch(before: Operation, p: Patch): Operation {
    var next := Merge(before, p);
    if CertifiesRelease(before, next) && next.gasReleasedAt.None? then next.(gasReleasedAt := Some(next.updatedAt))
    else next
  }

  /** A restart marks unproven attempts as attempted, so that they stay charged. */
  function Restarted(o: Operation): Operation {
    if o.sponsorshipAttempted == Some(false) && o.gasReleasedAt.None? then o.(sponsorshipAttempted := Some(true)) else o
  }

  // ---------------------------------------------------------------- what every change of a row respects

  predicate SameRegistration(a: Operation, b: Operation) {
    && a.subject == b.subject && a.key == b.key && a.requestHash == b.requestHash
    && a.deployment == b.deployment && a.accountId == b.accountId && a.account == b.account && a.nonce == b.nonce
    && a.callData == b.callData && a.factory == b.factory && a.factoryData == b.factoryData
    && a.intent == b.intent && a.session == b.session && a.lane == b.lane && a.gasPayment == b.gasPayment
    && a.maxGasCost == b.maxGasCost && a.createdAt == b.createdAt && a.expiresAt == b.expiresAt
  }

  /** What one row satisfies on its own, whatever happened to it. */
  predicate RowValid(o: Operation) {
    && (o.Unsubmitted() ==> o.userOperationHash.None?)
    && (o.userOperationHash.None? ==> (o.Unsubmitted() || o.state == Cancelled) && o.transactionHash.None?)
    && o.providerOperationId == o.userOperationHash
    && (o.gasReleasedAt.Some? ==> CertifiesRelease(o, o))
    && (o.userOperationHash.Some? ==> Bound(o, o.userOperationHash.value) && WithinCeiling(o, o.userOperationHash.value, true))
    && o.lane == BudgetLane(o.intent)
  }

  /** How a stored operation evolves over any stretch of its life: what is decided stays decided. */
  predicate Descends(a: Operation, b: Operation) {
    && SameRegistration(a, b)
    && (a.userOperationHash.Some? ==> b.userOperationHash == a.userOperationHash)
    && (b.state == AwaitingSignature ==> a.state == AwaitingSignature)
    && (b.state == Preparing ==> a.state == Preparing)
    && (a.state == Cancelled ==>
          b.state == Cancelled && b.gasReleasedAt == a.gasReleasedAt && b.userOperationHash == a.userOperationHash)
    && (a.sponsorshipAttempted == Some(true) ==> b.sponsorshipAttempted == Some(true))
    && (a.gasReleasedAt.Some? ==> b.gasReleasedAt == a.gasReleasedAt && b.sponsorshipAttempted == a.sponsorshipAttempted)
  }

  /** And in one step: a hash is recorded only on leaving awaiting-signature. */
  predicate Evolves(a: Operation, b: Operation) {
    && Descends(a, b)
    && (a.userOperationHash.None? && b.userOperationHash.Some? ==> a.state == AwaitingSignature && b.state == Submitted)
  }

  /** Settlement is recorded no later than the row is written. */
  predicate SettledOnTime(o: Operation) {
    o.gasSettledAt.Some? ==> o.gasSettledAt.value <= o.updatedAt
  }

  /** A patch is well timed for a row: the clock has not gone back, and it settles no later than it is written. */
  predicate Timely(o: Operation, p: Patch) {
    o.updatedAt <= p.at && (p.Settle? && p.settledAt.Some? ==> p.settledAt.value <= p.at)
  }

  /** A submission that passed the gateway's checks, or any other patch. */
  predicate Checked(o: Operation, p: Patch) {
    && (p.Submit? ==> Bound(o, p.hash) && WithinCeiling(o, p.hash, true))
    && (p.Settle? ==> p.status in {Confirming, Confirmed, Reverted, Unknown})
  }

  /** Every allowed patch keeps rows valid. */
  lemma PatchKeepsRow(o: Operation, p: Patch)
    requires RowValid(o) && o.state in From(p) && Checked(o, p)
    ensures RowValid(ApplyPatch(o, p))
  {
    hide WithinCeiling, Bound, BudgetLane;
    CeilingIsRegistered(o, ApplyPatch(o, p));
    PatchKeepsRegistration(o, p);
  }

  /** Binding and ceiling depend on the registered fields alone. */
  lemma CeilingIsRegistered(a: Operation, b: Operation)
    ensures SameRegistration(a, b) ==>
              forall u :: (Bound(a, u) <==> Bound(b, u)) && (WithinCeiling(a, u, true) <==> WithinCeiling(b, u, true))
  {
  }

  lemma PatchKeepsRegistration(o: Operation, p: Patch)
    ensures SameRegistration(o, ApplyPatch(o, p))
  {
  }

  /** And respects the order of their life. */
  lemma PatchEvolves(o: Operation, p: Patch)
    requires RowValid(o) && o.state in From(p) && Checked(o, p)
    ensures Evolves(o, ApplyPatch(o, p))
  {
    hide WithinCeiling, Bound, BudgetLane, SameRegistration;
    PatchKeepsRegistration(o, p);
  }

  lemma RestartKeepsRow(o: Operation)
    requires RowValid(o)
    ensures RowValid(Restarted(o)) && Evolves(o, Restarted(o))
  {
  }

  lemma DescentIsTransitive(a: Operation, b: Operation, c: Operation)
    requires Descends(a, b) && Descends(b, c)
    ensures Descends(a, c)
  {
  }

  /** Settlement stays on time while no write carries an earlier clock reading than the row it replaces. */
  lemma TimelyPatchSettlesOnTime(o: Operation, p: Patch)
    requires SettledOnTime(o) && Timely(o, p)
    ensures SettledOnTime(ApplyPatch(o, p))
  {
  }
}
