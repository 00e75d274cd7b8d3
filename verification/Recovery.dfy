/**
  Reconciliation of one operation from raw evidence: what the bundler reports, the bundle receipt, the
  canonical block, the head and the finalized block. It only queries; it never sends an operation.
 */
module Recovery {
  import opened Prelude
  import opened Operations
  import opened Budget
  import opened Store
  import opened Protocol
  import Receipt

  /** Hashes are numbers in logs; hashOf gives the number of an operation. */
  datatype Located = Located(bundle: Receipt.Bundle, block: nat, inBlock: nat)

  datatype BundlerAnswer = NotFound | Found(hash: nat, transaction: nat)

  /** canonical is the hash of the block at the receipt's height; finalized is absent where the tag is not supported. */
  datatype Evidence = Evidence(
    bundler: BundlerAnswer, chainNonce: nat, receipt: Option<Located>,
    head: nat, canonical: nat, finalized: Option<nat>, authorization: Receipt.Authorization)

  datatype RefreshError = ReceiptHashMismatch | EventMissing

  function Expectation(seen: Operation, hashOf: UserOp -> nat): Receipt.Expected
    requires seen.userOperationHash.Some?
  {
    Receipt.Expected(hashOf(seen.userOperationHash.value), seen.account, seen.nonce)
  }

  /** What the evidence says of the record that was read. */
  ghost function FactsOf(seen: Operation, ev: Evidence, hashOf: UserOp -> nat, confirmations: nat, clock: int)
    : Result<Option<Facts>, RefreshError>
  {
    if seen.userOperationHash.None? then
      Ok(if seen.Unsubmitted() && seen.expiresAt <= clock then Some(Expired) else None)
    else if seen.finality == Finalized then Ok(None)
    else if seen.transactionHash.None? && ev.bundler.NotFound? then
      Ok(Some(NoReceipt(seen.state == Unknown && seen.expiresAt <= clock && ev.chainNonce == seen.nonce)))
    else if seen.transactionHash.None? && ev.bundler.hash != hashOf(seen.userOperationHash.value) then
      Err(ReceiptHashMismatch)
    else
      var transaction := seen.transactionHash.GetOr(if ev.bundler.Found? then ev.bundler.transaction else 0);
      if ev.receipt.None? then Ok(Some(Gone))
      else
        var Located(bundle, block, inBlock) := ev.receipt.value;
        var expected := Expectation(seen, hashOf);
        var event := Receipt.OperationEventOf(bundle, expected);
        if event.Err? then Err(EventMissing)
        else if ev.canonical != inBlock then Ok(Some(Gone))
        else
          var enough := ev.head >= block + confirmations - 1;
          Ok(Some(Facts.Receipt(
            transaction, block, inBlock, event.value.actualGasCost, event.value.success, enough,
            enough && ev.finalized.Some? && ev.finalized.value >= block,
            event.value.success && seen.intent.DepositUsdc? ==> Receipt.Verified(bundle, expected, ev.authorization))))
  }

  /** The evidence is honest about finality: an event in a finalized canonical block is what the chain executed. */
  ghost predicate Honest(seen: Operation, ev: Evidence, hashOf: UserOp -> nat, chain: Chain) {
    seen.userOperationHash.Some? && ev.receipt.Some? && ev.canonical == ev.receipt.value.inBlock
    && ev.finalized.Some? && ev.finalized.value >= ev.receipt.value.block ==>
      var event := Receipt.OperationEventOf(ev.receipt.value.bundle, Expectation(seen, hashOf));
      event.Ok? ==> FinallyExecuted(chain, KeyOf(seen), seen.userOperationHash.value, event.value.actualGasCost)
  }

  /** Honest evidence leads only to facts that the protocol's reconciliation step allows. */
  lemma EvidenceIsObservable(seen: Operation, ev: Evidence, hashOf: UserOp -> nat, confirmations: nat, clock: int, chain: Chain)
    requires Honest(seen, ev, hashOf, chain)
    requires FactsOf(seen, ev, hashOf, confirmations, clock).Ok? && FactsOf(seen, ev, hashOf, confirmations, clock).value.Some?
    ensures Observable(seen, FactsOf(seen, ev, hashOf, confirmations, clock).value.value, clock, chain)
  {
    hide Receipt.Verified, Receipt.OperationEventOf;
  }

  /** A settlement is final exactly when its block is buried, canonical and finalized and any deposit in it is verified. */
  lemma FinalExactlyWhenBuried(seen: Operation, ev: Evidence, hashOf: UserOp -> nat, confirmations: nat, clock: int, at: int)
    requires seen.userOperationHash.Some? && seen.finality != Finalized && seen.transactionHash.Some? && ev.receipt.Some?
    requires Receipt.OperationEventOf(ev.receipt.value.bundle, Expectation(seen, hashOf)).Ok?
    ensures var facts, located := FactsOf(seen, ev, hashOf, confirmations, clock), ev.receipt.value;
            var event := Receipt.OperationEventOf(located.bundle, Expectation(seen, hashOf)).value;
            && facts.Ok? && facts.value.Some?
            && var p := RefreshPatch(seen, facts.value.value, at);
               (p.Settle? && p.finality == Finalized
                <==> ev.canonical == located.inBlock && ev.head + 1 >= located.block + confirmations
                     && ev.finalized.Some? && ev.finalized.value >= located.block
                     && (event.success && seen.intent.DepositUsdc? ==>
                           Receipt.Verified(located.bundle, Expectation(seen, hashOf), ev.authorization)))
               && (p.Reorganize? <==> ev.canonical != located.inBlock)
  {
    hide Receipt.Verified, Receipt.OperationEventOf;
  }

  // ---------------------------------------------------------------- what the row says afterwards

  /** A cancellation without submission; it is free of charge from now on if no sponsorship was attempted. */
  predicate Closed(before: Operation, after: Operation, at: int) {
    && after == before.(state := Cancelled, updatedAt := at, gasReleasedAt := after.gasReleasedAt)
    && after.gasReleasedAt
       == if before.gasReleasedAt.None? && before.sponsorshipAttempted == Some(false) && before.userOperationHash.None?
             && before.providerOperationId.None? && before.transactionHash.None?
          then Some(at) else before.gasReleasedAt
  }

  /** Nothing is known of the execution any more. */
  predicate Forgotten(before: Operation, after: Operation, at: int) {
    after == before.(state := Unknown, finality := Pending, transactionHash := None, blockNumber := None, blockHash := None,
                     actualGasCost := None, updatedAt := at)
  }

  /** The row shows the receipt, and of it: unverified, not yet buried, succeeded or failed; final or not. */
  predicate Settled(before: Operation, after: Operation, seen: Operation, transaction: nat, located: Located,
                    cost: nat, success: bool, verified: bool, buried: bool, finalized: bool, at: int)
  {
    && after == before.(state := after.state, finality := after.finality, transactionHash := Some(transaction),
                        blockNumber := Some(located.block), blockHash := Some(located.inBlock),
                        actualGasCost := Some(cost), gasSettledAt := after.gasSettledAt, updatedAt := at)
    && (after.state == Unknown <==> !verified)
    && (after.state == Confirming <==> verified && !buried)
    && (after.state == Confirmed <==> verified && buried && success)
    && (after.state == Reverted <==> verified && buried && !success)
    && (after.finality == Finalized <==> verified && buried && finalized)
    && (after.finality == ApplicationConfirmed <==> verified && buried && !finalized)
    && after.gasSettledAt
       == if !(verified && buried && finalized) then before.gasSettledAt
          else if seen.gasSettledAt.Some? then seen.gasSettledAt else Some(at)
  }

  /** The row before and after reconciling what was seen of it with the evidence. */
  ghost predicate Reconciles(before: Operation, after: Operation, seen: Operation, ev: Evidence,
                             hashOf: UserOp -> nat, confirmations: nat, clock: int, at: int)
  {
    if seen.userOperationHash.None? then
      if seen.Unsubmitted() && seen.expiresAt <= clock && before.Unsubmitted() then Closed(before, after, at)
      else after == before
    else if seen.finality == Finalized then after == before
    else if seen.transactionHash.None? && ev.bundler.NotFound? then
      if seen.state == Unknown && seen.expiresAt <= clock && ev.chainNonce == seen.nonce then
        if before.state == Unknown then Closed(before, after, at) else after == before
      else after == if before.Recoverable() then before.(updatedAt := at) else before
    else if seen.transactionHash.None? && ev.bundler.hash != hashOf(seen.userOperationHash.value) then after == before
    else
      var open := before.Recoverable() || before.state == Confirmed || before.state == Reverted;
      if ev.receipt.None? then if open then Forgotten(before, after, at) else after == before
      else
        var located := ev.receipt.value;
        var event := Receipt.OperationEventOf(located.bundle, Expectation(seen, hashOf));
        if event.Err? || !open then after == before
        else if ev.canonical != located.inBlock then Forgotten(before, after, at)
        else
          Settled(before, after, seen,
                  if seen.transactionHash.Some? then seen.transactionHash.value else ev.bundler.transaction, located,
                  event.value.actualGasCost, event.value.success,
                  event.value.success && seen.intent.DepositUsdc? ==>
                    Receipt.Verified(located.bundle, Expectation(seen, hashOf), ev.authorization),
                  located.block + confirmations <= ev.head + 1,
                  ev.finalized.Some? && located.block <= ev.finalized.value, at)
  }

  /** The row that a reconciliation leaves behind. */
  ghost function RowAfter(before: Operation, seen: Operation, ev: Evidence, hashOf: UserOp -> nat, confirmations: nat,
                          clock: int, at: int): Operation
  {
    var facts := FactsOf(seen, ev, hashOf, confirmations, clock);
    if facts.Ok? && facts.value.Some? && before.state in From(RefreshPatch(seen, facts.value.value, at))
    then ApplyPatch(before, RefreshPatch(seen, facts.value.value, at)) else before
  }

  /** It shows what the evidence says, whatever it was before. */
  lemma RowShowsEvidence(before: Operation, seen: Operation, ev: Evidence, hashOf: UserOp -> nat, confirmations: nat,
                         clock: int, at: int)
    ensures Reconciles(before, RowAfter(before, seen, ev, hashOf, confirmations, clock, at), seen, ev, hashOf, confirmations,
                       clock, at)
  {
    hide Receipt.Verified, Receipt.OperationEventOf;
  }

  /** The rows after reconciling row id with the evidence: that one shows it, the others are as before. */
  ghost predicate RowsReconcile(before: seq<Operation>, after: seq<Operation>, id: nat, seen: Operation, ev: Evidence,
                                hashOf: UserOp -> nat, confirmations: nat, clock: int, at: int)
    requires id < |before|
  {
    && |after| == |before| && (forall j :: 0 <= j < |after| && j != id ==> after[j] == before[j])
    && Reconciles(before[id], after[id], seen, ev, hashOf, confirmations, clock, at)
  }

  lemma RowsShowEvidence(db: Db, id: nat, seen: Operation, ev: Evidence, hashOf: UserOp -> nat, confirmations: nat,
                         clock: int, at: int)
    requires id < |db.rows|
    ensures var facts := FactsOf(seen, ev, hashOf, confirmations, clock);
            var next := if facts.Ok? && facts.value.Some?
                        then Transitioned(db, id, RefreshPatch(seen, facts.value.value, at)).0 else db;
            RowsReconcile(db.rows, next.rows, id, seen, ev, hashOf, confirmations, clock, at)
  {
    RowShowsEvidence(db.rows[id], seen, ev, hashOf, confirmations, clock, at);
    hide Reconciles, FactsOf, RefreshPatch, ApplyPatch, From;
  }

  class OperationRecovery {
    const store: ApplicationStore
    const hashOf: UserOp -> nat
    const confirmations: nat

    constructor (s: ApplicationStore, hash: UserOp -> nat, depth: nat)
      ensures store == s && hashOf == hash && confirmations == depth
    {
      store, hashOf, confirmations := s, hash, depth;
    }

    /**
      Record what the evidence says, or leave the row alone; seen may be older than the row. Afterwards the row
      shows the evidence, and no other row has changed.
     */
    method Refresh(id: nat, seen: Operation, ev: Evidence, clock: int, at: int) returns (error: Option<RefreshError>)
      requires id < |store.rows|
      modifies store`rows
      ensures var facts := FactsOf(seen, ev, hashOf, confirmations, clock);
              && (error.Some? <==> facts.Err?) && (error.Some? ==> error.value == facts.error)
              && store.View() == if facts.Ok? && facts.value.Some?
                                 then Transitioned(old(store.View()), id, RefreshPatch(seen, facts.value.value, at)).0
                                 else old(store.View())
      ensures RowsReconcile(old(store.rows), store.rows, id, seen, ev, hashOf, confirmations, clock, at)
    {
      RowsShowEvidence(store.View(), id, seen, ev, hashOf, confirmations, clock, at);
      hide RowsReconcile, Transitioned, Receipt.Verified, Receipt.OperationEventOf;
      var changed: bool, row: Operation;
      if seen.userOperationHash.None? {
        if seen.Unsubmitted() && seen.expiresAt <= clock { changed, row := store.Transition(id, ExpireCancel(at)); }
        return None;
      }
      if seen.finality == Finalized { return None; }
      var transaction := 0;
      if seen.transactionHash.Some? {
        transaction := seen.transactionHash.value;
      } else {
        if ev.bundler.NotFound? {
          if seen.state == Unknown && seen.expiresAt <= clock && ev.chainNonce == seen.nonce {
            changed, row := store.Transition(id, UnacceptedCancel(at));
          } else {
            changed, row := store.Transition(id, Touch(at));
          }
          return None;
        }
        if ev.bundler.hash != hashOf(seen.userOperationHash.value) { return Some(ReceiptHashMismatch); }
        transaction := ev.bundler.transaction;
      }
      if ev.receipt.None? {
        changed, row := store.Transition(id, Reorganize(at));
        return None;
      }
      var located := ev.receipt.value;
      var expected := Expectation(seen, hashOf);
      var event := Receipt.OperationEventOf(located.bundle, expected);
      if event.Err? { return Some(EventMissing); }
      if ev.canonical != located.inBlock {
        changed, row := store.Transition(id, Reorganize(at));
        return None;
      }
      var enough := ev.head >= located.block + confirmations - 1;
      var depositVerified := true;
      if event.value.success && seen.intent.DepositUsdc? {
        var failed := Receipt.AssertDepositTransfer(located.bundle, expected, ev.authorization);
        depositVerified := failed.None?;
      }
      var finality := if enough then ApplicationConfirmed else Pending;
      if enough && ev.finalized.Some? && ev.finalized.value >= located.block { finality := Finalized; }
      var status := if !depositVerified then Unknown
        else if enough then if event.value.success then Confirmed else Reverted else Confirming;
      changed, row := store.Transition(id, Settle(
        status, if depositVerified then finality else Pending, transaction, located.block, located.inBlock,
        event.value.actualGasCost,
        if finality == Finalized && depositVerified then Some(seen.gasSettledAt.GetOr(at)) else None, at));
      error := None;
    }
  }
}
