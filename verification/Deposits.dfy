/**
  Deposit authorizations: each is used by at most one operation, and a cancelled one by none. Registration
  happens inside the admission of the operation, under the same lock as cancellation.
 */
module Deposits {
  import opened Prelude

  datatype Authorization = Authorization(source: nat, target: nat, value: nat, nonce: nat)

  datatype Deposit = Deposit(
    subject: nat, accountId: nat, deployment: nat, authorization: Authorization, createdAt: int, expiresAt: int,
    cancelled: bool, operation: Option<nat>)
  {
    predicate Open() { !cancelled && operation.None? }
    predicate Pending(account: nat, t: int) { Open() && accountId == account && t < expiresAt }
  }

  /** What an operation for a deposit brings to its admission. */
  datatype Use = Use(
    depositId: nat, subject: nat, accountId: nat, deployment: nat, authorization: Authorization, createdAt: int)

  datatype DepositError = NotFound | AlreadyRegistered(operation: nat) | Expired | Mismatch

  /** uses lists the operations admitted for deposits, each under its number. */
  datatype Ledger = Ledger(deposits: map<nat, Deposit>, uses: seq<Use>)

  function RegistrationError(l: Ledger, u: Use): Option<DepositError> {
    if u.depositId !in l.deposits then Some(NotFound)
    else
      var d := l.deposits[u.depositId];
      if d.subject != u.subject || d.accountId != u.accountId || d.deployment != u.deployment then Some(NotFound)
      else if d.operation.Some? then Some(AlreadyRegistered(d.operation.value))
      else if d.cancelled || d.expiresAt <= u.createdAt then Some(Expired)
      else if d.authorization != u.authorization then Some(Mismatch)
      else None
  }

  datatype Step =
    | Create(id: nat, deposit: Deposit, busy: bool)
    | Cancel(id: nat, subject: nat, now: int)
    | Register(use: Use, admitted: bool)

  predicate Possible(l: Ledger, s: Step) {
    s.Create? ==> s.deposit.Open()
  }

  /** A new deposit is refused while another of the account could still be used, or its operation is busy. */
  predicate MayCreate(l: Ledger, id: nat, d: Deposit, busy: bool) {
    id !in l.deposits && !busy && !exists k :: k in l.deposits && l.deposits[k].Pending(d.accountId, d.createdAt)
  }

  /** A cancellation finds an unregistered, unexpired deposit of its owner; a registration may still be refused by the quota. */
  function After(l: Ledger, s: Step): Ledger
    requires Possible(l, s)
  {
    match s
    case Create(id, d, busy) => if MayCreate(l, id, d, busy) then l.(deposits := l.deposits[id := d]) else l
    case Cancel(id, subject, now) =>
      if id in l.deposits && l.deposits[id].subject == subject && l.deposits[id].operation.None? && now < l.deposits[id].expiresAt
      then l.(deposits := l.deposits[id := l.deposits[id].(cancelled := true)])
      else l
    case Register(u, admitted) =>
      if admitted && RegistrationError(l, u).None? then
        Ledger(l.deposits[u.depositId := l.deposits[u.depositId].(operation := Some(|l.uses|))], l.uses + [u])
      else l
  }

  function Run(steps: seq<Step>): Option<Ledger> {
    if steps == [] then Some(Ledger(map[], []))
    else
      var before, last := Run(steps[..|steps| - 1]), steps[|steps| - 1];
      if before.Some? && Possible(before.value, last) then Some(After(before.value, last)) else None
  }

  /** Deposits and the operations that use them name each other, with the same authorization and owner. */
  ghost predicate Paired(l: Ledger) {
    && (forall i :: 0 <= i < |l.uses| ==> Uses(l, i))
    && (forall id :: id in l.deposits && l.deposits[id].operation.Some? ==>
          l.deposits[id].operation.value < |l.uses| && l.uses[l.deposits[id].operation.value].depositId == id)
  }

  ghost predicate Uses(l: Ledger, i: nat)
    requires i < |l.uses|
  {
    var u := l.uses[i];
    && u.depositId in l.deposits
    && var d := l.deposits[u.depositId];
       d.operation == Some(i) && !d.cancelled && d.authorization == u.authorization && d.subject == u.subject
       && d.accountId == u.accountId && d.deployment == u.deployment && u.createdAt < d.expiresAt
  }

  lemma StepKeepsPairs(l: Ledger, s: Step)
    requires Paired(l) && Possible(l, s)
    ensures Paired(After(l, s))
  {
    var n := After(l, s);
    forall i | 0 <= i < |n.uses| ensures Uses(n, i) {
      if i < |l.uses| { assert Uses(l, i); }
    }
  }

  lemma {:induction false} RunsKeepPairs(steps: seq<Step>)
    requires Run(steps).Some?
    ensures Paired(Run(steps).value)
  {
    hide After, Paired;
    if steps == [] {
      EmptyIsPaired();
    } else {
      RunsKeepPairs(steps[..|steps| - 1]);
      StepKeepsPairs(Run(steps[..|steps| - 1]).value, steps[|steps| - 1]);
    }
  }

  lemma EmptyIsPaired()
    ensures Paired(Ledger(map[], []))
  {
  }

  /**
    In every run, no two operations use one deposit, none uses a cancelled one, and each carries exactly the
    authorization that its owner's deposit was created with.
   */
  lemma EachDepositIsUsedOnce(steps: seq<Step>, i: nat, j: nat)
    requires Run(steps).Some? && i < |Run(steps).value.uses| && j < |Run(steps).value.uses|
    ensures var l := Run(steps).value;
            && (l.uses[i].depositId == l.uses[j].depositId ==> i == j)
            && l.uses[i].depositId in l.deposits
            && !l.deposits[l.uses[i].depositId].cancelled
            && l.deposits[l.uses[i].depositId].authorization == l.uses[i].authorization
            && l.deposits[l.uses[i].depositId].subject == l.uses[i].subject
  {
    RunsKeepPairs(steps);
    assert Uses(Run(steps).value, i) && Uses(Run(steps).value, j);
  }

  /** No two open deposits of an account could be used at the same time. */
  ghost predicate OneAtATime(l: Ledger) {
    forall a, b :: a in l.deposits && b in l.deposits && a != b
                   && l.deposits[a].Open() && l.deposits[b].Open() && l.deposits[a].accountId == l.deposits[b].accountId ==>
      || l.deposits[a].expiresAt <= l.deposits[b].createdAt
      || l.deposits[b].expiresAt <= l.deposits[a].createdAt
  }

  lemma StepKeepsOneAtATime(l: Ledger, s: Step)
    requires OneAtATime(l) && Possible(l, s)
    ensures OneAtATime(After(l, s))
  {
  }

  /** In every run the lifetimes of an account's open deposits do not overlap. */
  lemma {:induction false} OpenDepositsNeverOverlap(steps: seq<Step>)
    requires Run(steps).Some?
    ensures OneAtATime(Run(steps).value)
  {
    hide After;
    if steps != [] {
      OpenDepositsNeverOverlap(steps[..|steps| - 1]);
      StepKeepsOneAtATime(Run(steps[..|steps| - 1]).value, steps[|steps| - 1]);
    }
  }

  /** What was decided about a deposit stays decided. */
  ghost predicate Continues(a: Ledger, b: Ledger) {
    && a.uses <= b.uses
    && forall id :: id in a.deposits ==>
         && id in b.deposits
         && (a.deposits[id].cancelled ==> b.deposits[id] == a.deposits[id])
         && (a.deposits[id].operation.Some? ==> b.deposits[id] == a.deposits[id])
  }

  lemma StepContinues(l: Ledger, s: Step)
    requires Possible(l, s)
    ensures Continues(l, After(l, s))
  {
  }

  /** From any point of a run on, a cancelled deposit stays unused and a used one stays with its operation. */
  lemma {:induction false} RunsContinue(steps: seq<Step>, k: nat)
    requires k <= |steps| && Run(steps).Some?
    ensures Run(steps[..k]).Some? && Continues(Run(steps[..k]).value, Run(steps).value)
  {
    hide After;
    if k == |steps| {
      assert steps[..k] == steps;
    } else {
      var init := steps[..|steps| - 1];
      assert init[..k] == steps[..k];
      RunsContinue(init, k);
      StepContinues(Run(init).value, steps[|steps| - 1]);
    }
  }

  // ---------------------------------------------------------------- the tables themselves

  class DepositStore {
    var deposits: map<nat, Deposit>
    var uses: seq<Use>

    ghost function View(): Ledger reads this { Ledger(deposits, uses) }

    constructor ()
      ensures View() == Ledger(map[], [])
    {
      deposits, uses := map[], [];
    }

    /** busy tells whether an operation that uses a deposit of the account is still in progress. */
    method CreateDeposit(id: nat, subject: nat, accountId: nat, deployment: nat, a: Authorization,
                         createdAt: int, expiresAt: int, busy: bool)
      returns (ok: bool)
      modifies this`deposits
      ensures ok <==> id !in old(deposits) && !busy
                      && forall k :: k in old(deposits) && old(deposits)[k].Open() && old(deposits)[k].accountId == accountId ==>
                           old(deposits)[k].expiresAt <= createdAt
      ensures View() == After(old(View()),
                              Create(id, Deposit(subject, accountId, deployment, a, createdAt, expiresAt, false, None), busy))
      ensures ok ==> id in deposits && deposits[id].Open() && deposits[id].authorization == a
    {
      if busy || id in deposits { return false; }
      if exists k :: k in deposits && deposits[k].Pending(accountId, createdAt) { return false; }
      deposits := deposits[id := Deposit(subject, accountId, deployment, a, createdAt, expiresAt, false, None)];
      ok := true;
    }

    /** Cancelling an expired or cancelled deposit returns it as it is; a registered one is an error. */
    method CancelDeposit(id: nat, subject: nat, now: int) returns (r: Result<Deposit, DepositError>)
      modifies this`deposits
      ensures View() == After(old(View()), Cancel(id, subject, now))
      ensures r.Ok? ==> id in deposits && r.value == deposits[id] && r.value.operation.None?
                        && (r.value.cancelled || r.value.expiresAt <= now)
      ensures r.Ok? <==> id in old(deposits) && old(deposits)[id].subject == subject && old(deposits)[id].operation.None?
    {
      if id !in deposits || deposits[id].subject != subject { return Err(NotFound); }
      var d := deposits[id];
      if d.operation.Some? { return Err(AlreadyRegistered(d.operation.value)); }
      if d.cancelled || d.expiresAt <= now {
        assert d.cancelled ==> deposits[id := d.(cancelled := true)] == deposits;
        return Ok(d);
      }
      d := d.(cancelled := true);
      deposits := deposits[id := d];
      r := Ok(d);
    }

    /** The deposit part of admission: checked first, written last, not at all if the operation is refused. */
    method RegisterUse(u: Use, admitted: bool) returns (error: Option<DepositError>)
      modifies this
      ensures View() == After(old(View()), Register(u, admitted))
      ensures error == RegistrationError(old(View()), u)
      ensures error.None? <==>
                && u.depositId in old(deposits)
                && var d := old(deposits)[u.depositId];
                   && d.subject == u.subject && d.accountId == u.accountId && d.deployment == u.deployment
                   && d.authorization == u.authorization && d.Open() && u.createdAt < d.expiresAt
      ensures if error.None? && admitted then
                uses == old(uses) + [u]
                && deposits == old(deposits)[u.depositId := old(deposits)[u.depositId].(operation := Some(|old(uses)|))]
              else uses == old(uses) && deposits == old(deposits)
    {
      error := None;
      if u.depositId !in deposits { return Some(NotFound); }
      var d := deposits[u.depositId];
      if d.subject != u.subject || d.accountId != u.accountId || d.deployment != u.deployment { return Some(NotFound); }
      if d.operation.Some? { return Some(AlreadyRegistered(d.operation.value)); }
      if d.cancelled || d.expiresAt <= u.createdAt { return Some(Expired); }
      if d.authorization != u.authorization { return Some(Mismatch); }
      if admitted {
        deposits := deposits[u.depositId := d.(operation := Some(|uses|))];
        uses := uses + [u];
      }
    }
  }
}
