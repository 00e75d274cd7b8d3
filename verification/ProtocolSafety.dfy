/**
  What every interleaving of the protocol keeps: rows stay valid and only evolve, each operation is
  handed to the network at most once under the hash stored before, and no grant can exist for an
  operation that was cancelled free of charge.
 */
module ProtocolSafety {
  import opened Prelude
  import opened Operations
  import opened Budget
  import opened Store
  import opened Protocol

  // ---------------------------------------------------------------- invariants

  ghost predicate RowsOk(rows: seq<Operation>) {
    forall i :: 0 <= i < |rows| ==> RowValid(rows[i])
  }

  /** What is certain about a row while a call on it is in progress. */
  ghost predicate Knows(p: Proc, o: Operation, chain: Chain) {
    match p
    case Sponsoring(_, _) => !o.IsSelfFunded()
    case SponsorMarked(_) => !o.IsSelfFunded() && o.sponsorshipAttempted == Some(true)
    case Policing(_, _) => !o.IsSelfFunded()
    case PolicyMarked(_) => !o.IsSelfFunded() && o.sponsorshipAttempted == Some(true)
    case Sending(_, u) => Bound(o, u) && WithinCeiling(o, u, true)
    case SendAdmitted(_, u) => o.userOperationHash == Some(u)
    case SendFailed(_) => o.userOperationHash.Some?
    case Refreshing(_, seen) => Descends(seen, o)
    case Observed(_, seen, facts) =>
      && Descends(seen, o)
      && (facts.Receipt? && facts.final ==>
            seen.userOperationHash.Some?
            && FinallyExecuted(chain, KeyOf(seen), seen.userOperationHash.value, facts.cost))
  }

  ghost predicate ProcsOk(s: State) {
    forall pid :: pid in s.procs ==>
      s.procs[pid].id < |s.db.rows| && Knows(s.procs[pid], s.db.rows[s.procs[pid].id], s.chain)
  }

  ghost predicate GrantsOk(s: State) {
    forall id :: id in s.grants ==>
      id < |s.db.rows| && !s.db.rows[id].IsSelfFunded() && s.db.rows[id].sponsorshipAttempted == Some(true)
  }

  /** Every send carries the stored hash, no row is sent twice, and none sent is about to be sent. */
  ghost predicate SendsOk(s: State) {
    && (forall k :: 0 <= k < |s.sent| ==>
          s.sent[k].id < |s.db.rows| && s.db.rows[s.sent[k].id].userOperationHash == Some(s.sent[k].op))
    && (forall j, k :: 0 <= j < k < |s.sent| ==> s.sent[j].id != s.sent[k].id)
    && (forall pid, k :: pid in s.procs && s.procs[pid].SendAdmitted? && 0 <= k < |s.sent| ==>
          s.sent[k].id != s.procs[pid].id)
    && (forall p, q :: p in s.procs && q in s.procs && s.procs[p].SendAdmitted? && s.procs[q].SendAdmitted? && p != q ==>
          s.procs[p].id != s.procs[q].id)
  }

  ghost predicate ChainOk(s: State) {
    forall key :: key in s.chain ==>
      var e := s.chain[key];
      e.op.sender == key.account && e.op.nonce == key.nonce && e.cost <= e.op.MaxCost()
      && (e.op.paymaster.Some? ==> Backed(s, key, e))
  }

  /** Recorded final gas is what the chain finally charged. */
  ghost predicate FinalsTrue(s: State) {
    forall i :: 0 <= i < |s.db.rows| ==> FinalTrue(s.db.rows[i], s.chain)
  }

  ghost predicate FinalTrue(o: Operation, chain: Chain) {
    HasFinalGas(o) ==> FinallyExecuted(chain, KeyOf(o), o.userOperationHash.value, o.actualGasCost.value)
  }

  ghost predicate Inv(s: State) {
    RowsOk(s.db.rows) && ProcsOk(s) && GrantsOk(s) && SendsOk(s) && ChainOk(s) && FinalsTrue(s)
  }

  // ---------------------------------------------------------------- rows

  ghost predicate RowsEvolve(a: seq<Operation>, b: seq<Operation>) {
    |a| <= |b| && forall i :: 0 <= i < |a| ==> Evolves(a[i], b[i])
  }

  lemma EvolvesReflexive(o: Operation)
    ensures Evolves(o, o)
  {
  }

  lemma UpdateKeepsRows(rows: seq<Operation>, id: nat, p: Patch)
    requires RowsOk(rows) && id < |rows| && rows[id].state in From(p) && Checked(rows[id], p)
    ensures RowsOk(rows[id := ApplyPatch(rows[id], p)]) && RowsEvolve(rows, rows[id := ApplyPatch(rows[id], p)])
  {
    hide RowValid, Evolves, ApplyPatch;
    PatchKeepsRow(rows[id], p);
    PatchEvolves(rows[id], p);
    forall i | 0 <= i < |rows| ensures Evolves(rows[i], rows[id := ApplyPatch(rows[id], p)][i]) {
      if i != id { EvolvesReflexive(rows[i]); }
    }
  }

  lemma RestartKeepsRows(rows: seq<Operation>)
    requires RowsOk(rows)
    ensures RowsOk(RestartedRows(rows)) && RowsEvolve(rows, RestartedRows(rows))
  {
    hide RowValid, Evolves, Restarted;
    forall i | 0 <= i < |rows|
      ensures RowValid(RestartedRows(rows)[i]) && Evolves(rows[i], RestartedRows(rows)[i])
    {
      RestartKeepsRow(rows[i]);
    }
  }

  lemma AdmissionKeepsRows(db: Db, o: Operation, limits: Limits)
    requires RowsOk(db.rows) && Registered(o, limits)
    ensures var rows := Admitted(db, o, limits).0.rows;
            (rows == db.rows || rows == db.rows + [o]) && RowsOk(rows) && RowsEvolve(db.rows, rows)
  {
    hide Refusal, Evolves;
    forall i | 0 <= i < |db.rows| ensures Evolves(db.rows[i], db.rows[i]) { EvolvesReflexive(db.rows[i]); }
    assert RowValid(o);
  }

  lemma UnchangedRows(rows: seq<Operation>)
    ensures RowsEvolve(rows, rows)
  {
    hide Evolves;
    forall i | 0 <= i < |rows| ensures Evolves(rows[i], rows[i]) { EvolvesReflexive(rows[i]); }
  }

  /** Every compare-and-set of the service has passed the checks its patch relies on. */
  lemma AttemptsAreChecked(limits: Limits, s: State, step: Step)
    requires ProcsOk(s) && Enabled(limits, s, step) && Attempt(limits, s, step).Some?
    ensures var c := Attempt(limits, s, step).value; c.id < |s.db.rows| && Checked(s.db.rows[c.id], c.patch)
  {
    hide Bound, WithinCeiling, FinallyExecuted, Descends;
  }

  /** In every step each row stays valid and evolves, and at most one row is added: a registered one. */
  lemma RowsStep(limits: Limits, s: State, step: Step)
    requires RowsOk(s.db.rows) && ProcsOk(s) && Enabled(limits, s, step)
    ensures var rows, next := s.db.rows, After(limits, s, step).db.rows;
            && RowsOk(next) && RowsEvolve(rows, next)
            && (|next| == |rows| || (step.Admit? && next == rows + [step.o]))
            && (step.Admit? ==> next == rows || next == rows + [step.o])
  {
    hide RowsOk, RowsEvolve, ProcsOk, Enabled, Checked, ApplyPatch, Refusal, RestartedRows, Registered;
    var attempt := Attempt(limits, s, step);
    UnchangedRows(s.db.rows);
    if step.Admit? {
      RegisteredWhenEnabled(limits, s, step);
      AdmissionKeepsRows(s.db, step.o, limits);
    } else if step.Restart? {
      RestartKeepsRows(s.db.rows);
      RestartLength(s.db.rows);
    } else if attempt.Some? {
      AttemptsAreChecked(limits, s, step);
      var c := attempt.value;
      if s.db.rows[c.id].state in From(c.patch) { UpdateKeepsRows(s.db.rows, c.id, c.patch); }
    }
  }

  lemma RestartLength(rows: seq<Operation>)
    ensures |RestartedRows(rows)| == |rows|
  {
  }

  lemma RegisteredWhenEnabled(limits: Limits, s: State, step: Step)
    requires Enabled(limits, s, step) && step.Admit?
    ensures Registered(step.o, limits)
  {
  }

  // ---------------------------------------------------------------- calls in progress

  ghost predicate ChainGrows(a: Chain, b: Chain) {
    forall key :: key in a && a[key].final ==> key in b && b[key] == a[key]
  }

  lemma ChainStep(limits: Limits, s: State, step: Step)
    requires Enabled(limits, s, step)
    ensures ChainGrows(s.chain, After(limits, s, step).chain)
  {
    hide Admissible, IsPolicyCandidate, Bound, WithinCeiling, Registered, Observable, DayOf, ProcsAfter, DbAfter, Attempt;
  }

  /** What a call knows stays true while its row evolves and the chain grows. */
  lemma KnowledgeLasts(p: Proc, a: Operation, b: Operation, chain: Chain, next: Chain)
    requires Knows(p, a, chain) && Descends(a, b) && ChainGrows(chain, next)
    ensures Knows(p, b, next)
  {
    hide Bound, WithinCeiling;
    CeilingIsRegistered(a, b);
    if p.Refreshing? || p.Observed? {
      hide Descends;
      DescentIsTransitive(p.seen, a, b);
    }
  }

  /** A mark that wins leaves its row attempted; a submission that wins leaves its hash. */
  lemma MarksStick(o: Operation, p: Patch)
    ensures p.MarkSponsor? || p.MarkPolicy? ==> ApplyPatch(o, p).sponsorshipAttempted == Some(true)
    ensures p.Submit? ==> ApplyPatch(o, p).userOperationHash == Some(p.hash)
    ensures ApplyPatch(o, p).IsSelfFunded() == o.IsSelfFunded()
  {
  }

  /** What a step's compare-and-set does to the rows; no other step but admission and restart touches them. */
  lemma AttemptWrites(limits: Limits, s: State, step: Step)
    requires Enabled(limits, s, step)
    ensures var rows, next, attempt := s.db.rows, After(limits, s, step).db.rows, Attempt(limits, s, step);
            && (attempt.Some? ==>
                  next == if Wins(limits, s, step)
                          then rows[attempt.value.id := ApplyPatch(rows[attempt.value.id], attempt.value.patch)] else rows)
            && (attempt.None? && !step.Admit? && !step.Restart? ==> next == rows)
  {
    hide Admissible, IsPolicyCandidate, Bound, WithinCeiling, Registered, Observable, DayOf, ProcsAfter, ChainAfter,
      ApplyPatch, Admitted, RefreshPatch;
  }

  /** The calls that a step leaves alone, and the one it advances. */
  lemma ProcsChange(limits: Limits, s: State, step: Step, pid: nat)
    requires Enabled(limits, s, step) && pid in After(limits, s, step).procs
    ensures (pid in s.procs && After(limits, s, step).procs[pid] == s.procs[pid]) || Advances(limits, s, step, pid)
  {
    hide Admissible, IsPolicyCandidate, Bound, WithinCeiling, Registered, Observable, DayOf, DbAfter, ChainAfter;
  }

  ghost predicate Advances(limits: Limits, s: State, step: Step, pid: nat)
    requires Enabled(limits, s, step)
  {
    && pid in After(limits, s, step).procs
    && var p, won := After(limits, s, step).procs[pid], Wins(limits, s, step);
       match step
       case StartSponsor(q, id, u, _) => q == pid && p == Sponsoring(id, u)
       case StartPolicy(q, id, u, _) => q == pid && p == Policing(id, u)
       case StartSend(q, id, u, _) => q == pid && p == Sending(id, u)
       case StartRefresh(q, id) => q == pid && p == Refreshing(id, s.db.rows[id])
       case SponsorMark(q, _) => q == pid && won && p == SponsorMarked(s.procs[pid].id)
       case PolicyMark(q, _) => q == pid && won && p == PolicyMarked(s.procs[pid].id)
       case AdmitSend(q, _) => q == pid && won && p == SendAdmitted(s.procs[pid].id, s.procs[pid].op)
       case SendToNetwork(q, _) => q == pid && p == SendFailed(s.procs[pid].id)
       case Observe(q, facts, _) => q == pid && p == Observed(s.procs[pid].id, s.procs[pid].seen, facts)
       case _ => false
  }

  /** A call that has just been started, or has learnt something, knows what it needs. */
  lemma StartedCallKnows(limits: Limits, s: State, step: Step, pid: nat)
    requires ProcsOk(s) && Enabled(limits, s, step) && Advances(limits, s, step, pid)
    requires Attempt(limits, s, step).None?
    ensures var p := After(limits, s, step).procs[pid]; p.id < |s.db.rows| && Knows(p, s.db.rows[p.id], s.chain)
  {
    hide IsPolicyCandidate, Bound, WithinCeiling, Registered, DayOf, Admissible, DbAfter, ChainAfter, RefreshPatch,
      Evolves;
    var id := After(limits, s, step).procs[pid].id;
    EvolvesReflexive(s.db.rows[id]);
    DescendsFromEvolves(s.db.rows[id], s.db.rows[id]);
  }

  lemma DescendsFromEvolves(a: Operation, b: Operation)
    requires Evolves(a, b)
    ensures Descends(a, b)
  {
  }

  /** A call whose compare-and-set has just won knows what it wrote. */
  lemma MarkedCallKnows(limits: Limits, s: State, step: Step, pid: nat)
    requires ProcsOk(s) && Enabled(limits, s, step) && Advances(limits, s, step, pid)
    requires Attempt(limits, s, step).Some?
    ensures var next := After(limits, s, step);
            next.procs[pid].id < |next.db.rows| && Knows(next.procs[pid], next.db.rows[next.procs[pid].id], next.chain)
  {
    hide IsPolicyCandidate, Bound, WithinCeiling, Registered, DayOf, Admissible, ApplyPatch, DbAfter, ChainAfter,
      ProcsAfter, RefreshPatch;
    AttemptWrites(limits, s, step);
    var change := Attempt(limits, s, step).value;
    MarksStick(s.db.rows[change.id], change.patch);
  }

  lemma ProcsStep(limits: Limits, s: State, step: Step)
    requires RowsOk(s.db.rows) && ProcsOk(s) && Enabled(limits, s, step)
    ensures ProcsOk(After(limits, s, step))
  {
    hide Enabled, Advances, Knows, Descends, Evolves, After, RowsOk;
    var next := After(limits, s, step);
    RowsStep(limits, s, step);
    ChainStep(limits, s, step);
    forall pid | pid in next.procs
      ensures next.procs[pid].id < |next.db.rows|
              && Knows(next.procs[pid], next.db.rows[next.procs[pid].id], next.chain)
    {
      ProcsChange(limits, s, step, pid);
      var p := next.procs[pid];
      if Advances(limits, s, step, pid) && Attempt(limits, s, step).Some? {
        MarkedCallKnows(limits, s, step, pid);
      } else {
        if Advances(limits, s, step, pid) { StartedCallKnows(limits, s, step, pid); }
        DescendsFromEvolves(s.db.rows[p.id], next.db.rows[p.id]);
        KnowledgeLasts(p, s.db.rows[p.id], next.db.rows[p.id], s.chain, next.chain);
      }
    }
  }

  // ---------------------------------------------------------------- grants, sends and executions

  lemma GrantsStep(limits: Limits, s: State, step: Step)
    requires RowsOk(s.db.rows) && ProcsOk(s) && GrantsOk(s) && Enabled(limits, s, step)
    ensures GrantsOk(After(limits, s, step))
  {
    hide Admissible, IsPolicyCandidate, Bound, WithinCeiling, Registered, Observable, DayOf, DbAfter, ProcsAfter,
      ChainAfter, Executable;
    RowsStep(limits, s, step);
  }

  /** A compare-and-set submission finds a row without a hash. */
  lemma SubmissionIsFirst(limits: Limits, s: State, step: Step)
    requires RowsOk(s.db.rows) && Enabled(limits, s, step) && step.AdmitSend? && Wins(limits, s, step)
    ensures s.db.rows[s.procs[step.pid].id].userOperationHash.None?
  {
  }

  /** Who may send after a step: whoever could before, unless it just did, and the submission that just won. */
  lemma SendersChange(limits: Limits, s: State, step: Step)
    requires Enabled(limits, s, step)
    ensures var next := After(limits, s, step);
            && (forall pid :: pid in next.procs && next.procs[pid].SendAdmitted? ==>
                  || (pid in s.procs && s.procs[pid] == next.procs[pid] && !(step.SendToNetwork? && step.pid == pid))
                  || (step.AdmitSend? && step.pid == pid && Wins(limits, s, step)
                      && next.procs[pid].id == s.procs[pid].id))
            && (if step.SendToNetwork?
                then next.sent == s.sent + [Send(s.procs[step.pid].id, s.procs[step.pid].op)] else next.sent == s.sent)
  {
    hide Admissible, IsPolicyCandidate, Bound, WithinCeiling, Registered, Observable, DayOf, DbAfter, ChainAfter,
      Executable, Wins;
  }

  lemma SendsStep(limits: Limits, s: State, step: Step)
    requires RowsOk(s.db.rows) && ProcsOk(s) && SendsOk(s) && Enabled(limits, s, step)
    ensures SendsOk(After(limits, s, step))
  {
    hide RowsOk, ProcsOk, RowsEvolve, After, Wins;
    var next := After(limits, s, step);
    RowsStep(limits, s, step);
    SentHashesLast(s.db.rows, next.db.rows, s.sent);
    RowsGrow(s.db.rows, next.db.rows);
    SendersAreKnown(s);
    SendersChange(limits, s, step);
    if step.AdmitSend? && Wins(limits, s, step) { SubmissionIsFirst(limits, s, step); }
    if step.SendToNetwork? {
      SentHashesLast(s.db.rows, next.db.rows, next.sent);
      SenderWasAdmitted(limits, s, step);
    }
    hide Enabled;
  }

  lemma SenderWasAdmitted(limits: Limits, s: State, step: Step)
    requires Enabled(limits, s, step) && step.SendToNetwork?
    ensures step.pid in s.procs && s.procs[step.pid].SendAdmitted?
  {
  }

  lemma RowsGrow(a: seq<Operation>, b: seq<Operation>)
    requires RowsEvolve(a, b)
    ensures |a| <= |b|
  {
  }

  lemma SentHashesLast(a: seq<Operation>, b: seq<Operation>, sent: seq<Send>)
    requires RowsEvolve(a, b)
    ensures forall k :: 0 <= k < |sent| && sent[k].id < |a| && a[sent[k].id].userOperationHash == Some(sent[k].op) ==>
                          b[sent[k].id].userOperationHash == Some(sent[k].op)
  {
  }

  lemma SendersAreKnown(s: State)
    requires ProcsOk(s)
    ensures forall pid :: pid in s.procs && s.procs[pid].SendAdmitted? ==>
              s.procs[pid].id < |s.db.rows| && s.db.rows[s.procs[pid].id].userOperationHash == Some(s.procs[pid].op)
  {
  }

  lemma BackingLasts(limits: Limits, s: State, step: Step, key: NonceKey, e: Exec)
    requires RowsOk(s.db.rows) && ProcsOk(s) && Enabled(limits, s, step) && Backed(s, key, e)
    ensures Backed(After(limits, s, step), key, e)
  {
    hide Admissible, IsPolicyCandidate, WithinCeiling, Registered, Observable, DayOf, DbAfter, ProcsAfter,
      ChainAfter, Executable, RowsOk, ProcsOk;
    RowsStep(limits, s, step);
    assert e.backer in s.grants ==> e.backer in After(limits, s, step).grants;
  }

  lemma ChainOkStep(limits: Limits, s: State, step: Step)
    requires RowsOk(s.db.rows) && ProcsOk(s) && ChainOk(s) && Enabled(limits, s, step)
    ensures ChainOk(After(limits, s, step))
  {
    hide Backed, RowsOk, ProcsOk;
    var next := After(limits, s, step);
    forall key | key in next.chain && next.chain[key].op.paymaster.Some? ensures Backed(next, key, next.chain[key]) {
      ExecutionIsBacked(limits, s, step, key);
      BackingLasts(limits, s, step, key, next.chain[key]);
    }
    hide Admissible, IsPolicyCandidate, Bound, WithinCeiling, Registered, Observable, DayOf, DbAfter, ProcsAfter;
  }

  lemma ExecutionIsBacked(limits: Limits, s: State, step: Step, key: NonceKey)
    requires ChainOk(s) && Enabled(limits, s, step)
    requires key in After(limits, s, step).chain && After(limits, s, step).chain[key].op.paymaster.Some?
    ensures Backed(s, key, After(limits, s, step).chain[key])
  {
    hide Admissible, IsPolicyCandidate, Bound, WithinCeiling, Registered, Observable, DayOf, DbAfter, ProcsAfter;
    var e := After(limits, s, step).chain[key];
    if step.Finalize? && step.key == key {
      assert Backed(s, key, s.chain[key]);
    }
  }

  /** Final gas is only ever written by a reconciliation that found it final. */
  lemma FinalGasOfPatch(o: Operation, p: Patch)
    requires RowValid(o) && o.state in From(p) && HasFinalGas(ApplyPatch(o, p))
    ensures (HasFinalGas(o) && ApplyPatch(o, p).actualGasCost == o.actualGasCost)
            || (p.Settle? && p.finality == Finalized && ApplyPatch(o, p).actualGasCost == Some(p.cost))
  {
    hide Bound, WithinCeiling;
  }

  lemma FinalsStep(limits: Limits, s: State, step: Step)
    requires RowsOk(s.db.rows) && ProcsOk(s) && FinalsTrue(s) && Enabled(limits, s, step)
    ensures FinalsTrue(After(limits, s, step))
  {
    hide FinalTrue, After, Enabled;
    var next := After(limits, s, step);
    forall i | 0 <= i < |next.db.rows| ensures FinalTrue(next.db.rows[i], next.chain) {
      FinalOfRow(limits, s, step, i);
    }
  }

  /** A row that was truly final, and has not been settled anew, still is. */
  lemma FinalLasts(a: Operation, b: Operation, chain: Chain, next: Chain)
    requires FinalTrue(a, chain) && ChainGrows(chain, next) && Evolves(a, b)
    requires HasFinalGas(b) ==> HasFinalGas(a) && b.actualGasCost == a.actualGasCost
    ensures FinalTrue(b, next)
  {
  }

  /** Where a row's final gas comes from: it was there before, or this step settled it finally. */
  lemma FinalOrigin(limits: Limits, s: State, step: Step, i: nat)
    requires RowsOk(s.db.rows) && ProcsOk(s) && Enabled(limits, s, step) && i < |s.db.rows|
    requires i < |After(limits, s, step).db.rows| && HasFinalGas(After(limits, s, step).db.rows[i])
    ensures var o, attempt := After(limits, s, step).db.rows[i], Attempt(limits, s, step);
            || (HasFinalGas(s.db.rows[i]) && o.actualGasCost == s.db.rows[i].actualGasCost)
            || (attempt.Some? && attempt.value.id == i && attempt.value.patch.Settle?
                && attempt.value.patch.finality == Finalized && o.actualGasCost == Some(attempt.value.patch.cost))
  {
    hide HasFinalGas, Enabled, After, Attempt, ApplyPatch, RefreshPatch, RowValid, Evolves;
    RowsStep(limits, s, step);
    AttemptWrites(limits, s, step);
    var attempt := Attempt(limits, s, step);
    if step.Restart? {
      RestartIsSilent(limits, s, step);
      RestartKeepsFinality(s.db.rows[i]);
    } else if attempt.Some? && Wins(limits, s, step) && i == attempt.value.id {
      FinalGasOfPatch(s.db.rows[i], attempt.value.patch);
    }
  }

  lemma RestartKeepsFinality(o: Operation)
    ensures HasFinalGas(Restarted(o)) == HasFinalGas(o) && Restarted(o).actualGasCost == o.actualGasCost
  {
  }

  lemma FinalOfRow(limits: Limits, s: State, step: Step, i: nat)
    requires RowsOk(s.db.rows) && ProcsOk(s) && FinalsTrue(s) && Enabled(limits, s, step)
    requires i < |After(limits, s, step).db.rows|
    ensures FinalTrue(After(limits, s, step).db.rows[i], After(limits, s, step).chain)
  {
    hide After, Enabled, Attempt, FinalTrue, HasFinalGas, Evolves, FinallyExecuted;
    var next, attempt := After(limits, s, step), Attempt(limits, s, step);
    RowsStep(limits, s, step);
    ChainStep(limits, s, step);
    if i == |s.db.rows| {
      RegisteredWhenEnabled(limits, s, step);
      RegisteredIsNotFinal(step.o, limits, next.chain);
    } else {
      if HasFinalGas(next.db.rows[i]) { FinalOrigin(limits, s, step, i); }
      if !HasFinalGas(next.db.rows[i]) || (HasFinalGas(s.db.rows[i]) && next.db.rows[i].actualGasCost == s.db.rows[i].actualGasCost) {
        FinalLasts(s.db.rows[i], next.db.rows[i], s.chain, next.chain);
      } else {
        SettlementIsFinal(limits, s, step);
        SettledRowIsTrue(s.db.rows[i], next.db.rows[i], attempt.value.patch.cost, s.chain, next.chain);
      }
    }
  }

  lemma RegisteredIsNotFinal(o: Operation, limits: Limits, chain: Chain)
    requires Registered(o, limits)
    ensures FinalTrue(o, chain)
  {
  }

  lemma SettledRowIsTrue(a: Operation, b: Operation, cost: nat, chain: Chain, next: Chain)
    requires Evolves(a, b) && ChainGrows(chain, next) && b.actualGasCost == Some(cost)
    requires a.userOperationHash.Some? && FinallyExecuted(chain, KeyOf(a), a.userOperationHash.value, cost)
    ensures FinalTrue(b, next)
  {
  }

  lemma RestartIsSilent(limits: Limits, s: State, step: Step)
    requires Enabled(limits, s, step) && step.Restart?
    ensures After(limits, s, step).db.rows == RestartedRows(s.db.rows)
  {
  }

  /** A final settlement records what the chain finally executed for that row. */
  lemma SettlementIsFinal(limits: Limits, s: State, step: Step)
    requires ProcsOk(s) && Enabled(limits, s, step) && Attempt(limits, s, step).Some?
    requires var p := Attempt(limits, s, step).value.patch; p.Settle? && p.finality == Finalized
    ensures var c := Attempt(limits, s, step).value;
            s.db.rows[c.id].userOperationHash.Some?
            && FinallyExecuted(s.chain, KeyOf(s.db.rows[c.id]), s.db.rows[c.id].userOperationHash.value, c.patch.cost)
  {
    hide Admissible, IsPolicyCandidate, Bound, WithinCeiling, Registered, Observable, DayOf, Executable;
  }

  // ---------------------------------------------------------------- every reachable state

  lemma InvStep(limits: Limits, s: State, step: Step)
    requires Inv(s) && Enabled(limits, s, step)
    ensures Inv(After(limits, s, step))
  {
    hide Enabled, After, RowsOk, ProcsOk, GrantsOk, SendsOk, ChainOk, FinalsTrue;
    RowsStep(limits, s, step);
    ProcsStep(limits, s, step);
    GrantsStep(limits, s, step);
    SendsStep(limits, s, step);
    ChainOkStep(limits, s, step);
    FinalsStep(limits, s, step);
  }

  lemma {:induction false} InvAlways(limits: Limits, steps: seq<Step>)
    requires Run(limits, steps).Some?
    ensures Inv(Run(limits, steps).value)
  {
    hide Enabled, After;
    if steps != [] {
      hide Inv;
      InvAlways(limits, steps[..|steps| - 1]);
      InvStep(limits, Run(limits, steps[..|steps| - 1]).value, steps[|steps| - 1]);
    }
  }

  // ---------------------------------------------------------------- over whole runs

  /** Everything recorded in a is still there in b. */
  ghost predicate Continues(a: State, b: State) {
    && |a.db.rows| <= |b.db.rows|
    && (forall i :: 0 <= i < |a.db.rows| ==> Descends(a.db.rows[i], b.db.rows[i]))
    && a.sent <= b.sent
    && a.grants <= b.grants
    && ChainGrows(a.chain, b.chain)
  }

  lemma ContinuesStep(limits: Limits, s: State, step: Step)
    requires Inv(s) && Enabled(limits, s, step)
    ensures Continues(s, After(limits, s, step))
  {
    hide Descends, Evolves;
    var next := After(limits, s, step);
    RowsStep(limits, s, step);
    ChainStep(limits, s, step);
    forall i | 0 <= i < |s.db.rows| ensures Descends(s.db.rows[i], next.db.rows[i]) {
      DescendsFromEvolves(s.db.rows[i], next.db.rows[i]);
    }
    hide Enabled, DbAfter, ProcsAfter, ChainAfter, RowsEvolve, RowsOk;
  }

  lemma ContinuesTransitive(a: State, b: State, c: State)
    requires Continues(a, b) && Continues(b, c)
    ensures Continues(a, c)
  {
    forall i | 0 <= i < |a.db.rows| ensures Descends(a.db.rows[i], c.db.rows[i]) {
      DescentIsTransitive(a.db.rows[i], b.db.rows[i], c.db.rows[i]);
    }
    hide Descends;
  }

  lemma ContinuesReflexive(a: State)
    ensures Continues(a, a)
  {
  }

  /** Nothing decided is ever undone: hashes stay, cancellations stay, nothing returns to awaiting a signature. */
  lemma {:induction false} RunsContinue(limits: Limits, steps: seq<Step>, k: nat)
    requires k <= |steps| && Run(limits, steps).Some?
    ensures Run(limits, steps[..k]).Some? && Continues(Run(limits, steps[..k]).value, Run(limits, steps).value)
  {
    hide Enabled, After, Continues, Inv;
    if k == |steps| {
      assert steps[..k] == steps;
      ContinuesReflexive(Run(limits, steps).value);
    } else {
      var init := steps[..|steps| - 1];
      assert init[..k] == steps[..k];
      RunsContinue(limits, init, k);
      InvAlways(limits, init);
      ContinuesStep(limits, Run(limits, init).value, steps[|steps| - 1]);
      ContinuesTransitive(Run(limits, steps[..k]).value, Run(limits, init).value, Run(limits, steps).value);
    }
  }

  /**
    At most once, under every interleaving, crash and provider failure: an operation leaves for the
    network only under the hash its row stored before, and never after it has left already.
   */
  lemma SubmittedAtMostOnce(limits: Limits, steps: seq<Step>, k: nat)
    requires Run(limits, steps).Some? && k < |steps| && steps[k].SendToNetwork?
    ensures Run(limits, steps[..k]).Some? && steps[k].pid in Run(limits, steps[..k]).value.procs
    ensures var before, end := Run(limits, steps[..k]).value, Run(limits, steps).value;
            var p := before.procs[steps[k].pid];
            && p.SendAdmitted? && p.id < |before.db.rows| && p.id < |end.db.rows|
            && before.db.rows[p.id].userOperationHash == Some(p.op)
            && (forall j :: 0 <= j < |before.sent| ==> before.sent[j].id != p.id)
            && end.db.rows[p.id].userOperationHash == Some(p.op)
            && Send(p.id, p.op) in end.sent
            && (forall i, j :: 0 <= i < j < |end.sent| ==> end.sent[i].id != end.sent[j].id)
  {
    RunsContinue(limits, steps, k);
    RunsContinue(limits, steps, k + 1);
    assert steps[..k + 1][..k] == steps[..k];
    InvAlways(limits, steps[..k]);
    InvAlways(limits, steps);
    var before := Run(limits, steps[..k]).value;
    SenderWasAdmitted(limits, before, steps[k]);
    var next := Run(limits, steps[..k + 1]).value;
    assert next.sent[|before.sent|] == Send(before.procs[steps[k].pid].id, before.procs[steps[k].pid].op) by {
      hide Enabled, Inv, Continues;
    }
    hide Enabled, After, RowsOk, GrantsOk, ChainOk, FinalsTrue, ChainGrows;
  }

  predicate HoldsMark(p: Proc, id: nat) { (p.SponsorMarked? || p.PolicyMarked?) && p.id == id }

  /**
    No grant escapes a free cancellation: if a row is ever released, then no paymaster request was made
    and no policy callback approved for it at any time of the run, before or after, and none is about to be.
   */
  lemma ReleasedRowsWereNeverGranted(limits: Limits, steps: seq<Step>, k: nat, j: nat, i: nat)
    requires Run(limits, steps).Some? && k <= |steps| && j <= |steps|
    requires Run(limits, steps[..k]).Some? && i < |Run(limits, steps[..k]).value.db.rows|
    requires Run(limits, steps[..k]).value.db.rows[i].gasReleasedAt.Some?
    ensures Run(limits, steps[..j]).Some?
    ensures var s := Run(limits, steps[..j]).value;
            i !in s.grants && forall pid :: pid in s.procs ==> !HoldsMark(s.procs[pid], i)
    ensures var end := Run(limits, steps).value;
            && i < |end.db.rows| && end.db.rows[i].state == Cancelled
            && end.db.rows[i].sponsorshipAttempted == Some(false) && end.db.rows[i].userOperationHash.None?
  {
    RunsContinue(limits, steps, k);
    RunsContinue(limits, steps, j);
    InvAlways(limits, steps[..k]);
    InvAlways(limits, steps[..j]);
    InvAlways(limits, steps);
    hide Enabled, After, SendsOk, ChainOk, FinalsTrue, ChainGrows, Bound, WithinCeiling, Run;
  }

  /** And exactly when: a cancellation releases the reservation if and only if sponsorship had not been attempted. */
  lemma CancellationReleasesUnattempted(o: Operation, p: Patch)
    requires RowValid(o) && o.state in From(p) && (p.UserCancel? || p.ExpireCancel? || p.UnacceptedCancel?)
    ensures ApplyPatch(o, p).gasReleasedAt.Some?
            <==> o.sponsorshipAttempted == Some(false) && o.userOperationHash.None? && o.transactionHash.None?
  {
    hide Bound, WithinCeiling;
  }
}
