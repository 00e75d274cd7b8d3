/**
  When a new operation is refused, in terms of the rows and the request alone: what every earlier operation of
  its lane still owes, how many there were on its day, and what its session has left.
 */
module Quota {
  import opened Prelude
  import opened Operations
  import opened Calendar
  import opened Budget
  import opened Store

  datatype Applicant = Applicant(rows: seq<Operation>, o: Operation) {

    // -------------------------------------------------------------- what a row owes

    /** Its final receipt is recorded. */
    predicate Paid(v: Operation) {
      && v.state in {Confirmed, Reverted} && v.finality == Finalized && v.actualGasCost.Some?
      && v.userOperationHash.Some? && v.transactionHash.Some? && v.blockHash.Some? && v.blockNumber.Some?
    }

    predicate NoncePaid(v: Operation) {
      exists w :: w in rows && Paid(w) && w.deployment == v.deployment && w.account == v.account && w.nonce == v.nonce
    }

    /** Cancelled without a submission, and either no sponsorship can have escaped or its nonce was paid for. */
    predicate Waived(v: Operation) {
      && v.state == Cancelled && v.userOperationHash.None? && v.transactionHash.None? && v.providerOperationId.None?
      && ((v.sponsorshipAttempted == Some(false) && v.gasReleasedAt.Some?) || NoncePaid(v))
    }

    function Owes(v: Operation): int {
      if Paid(v) then v.actualGasCost.value else if Waived(v) then 0 else v.maxGasCost
    }

    function Reserve(v: Operation): int { v.maxGasCost }

    // -------------------------------------------------------------- the week

    predicate Waiting(v: Operation) { v.state in {Preparing, AwaitingSignature, Submitted, Confirming, Unknown} }

    /** Sponsored, and of the same lane. */
    predicate Peer(v: Operation) { v.gasPayment != Some(SelfFunded) && v.lane == o.lane }

    function WeekStart(): int { WeeklyBudgetWindow(o.createdAt).start }

    /** Left over from an earlier week, of whatever age. */
    predicate Carried(v: Operation) { Peer(v) && v.createdAt < WeekStart() && Waiting(v) }

    /** Of an earlier week, but settled, or last written, in this one. */
    predicate SettledLate(v: Operation) {
      Peer(v) && v.createdAt < WeekStart() && !Waiting(v)
      && WeekStart() <= if v.gasSettledAt.Some? then v.gasSettledAt.value else v.updatedAt
    }

    predicate ThisWeek(v: Operation) {
      Peer(v) && WeekStart() <= v.createdAt < WeeklyBudgetWindow(o.createdAt).end
    }

    /** Full reserves of what was carried over, and what the others of the week owe. */
    function WeekOwed(): int {
      Sum(Filter(rows, Carried), Reserve) + Sum(Filter(rows, SettledLate), Owes) + Sum(Filter(rows, ThisWeek), Owes)
    }

    // -------------------------------------------------------------- the day

    predicate Today(v: Operation) { Peer(v) && v.createdAt / DAY == o.createdAt / DAY }
    predicate TodayOfAccount(v: Operation) { Today(v) && v.account == o.account }
    predicate TodayOfUser(v: Operation) { Today(v) && v.subject == o.subject }
    predicate KindOfAccount(v: Operation) { TodayOfAccount(v) && SameKind(v.intent, o.intent) }
    predicate KindOfUser(v: Operation) { TodayOfUser(v) && SameKind(v.intent, o.intent) }
    predicate FromSource(v: Operation) {
      Today(v) && v.intent.DepositUsdc? && o.intent.DepositUsdc? && v.intent.source == o.intent.source
    }

    predicate Fits(scope: Operation -> bool, count: nat, wei: int) {
      |Filter(rows, scope)| < count && Sum(Filter(rows, scope), Owes) + o.maxGasCost <= wei
    }

    predicate FitsToday(cap: LaneLimit) {
      && Fits(Today, cap.projectOperations, cap.projectWei)
      && Fits(TodayOfAccount, cap.accountOperations, cap.accountWei)
      && Fits(TodayOfUser, cap.subjectOperations, cap.subjectWei)
    }

    // -------------------------------------------------------------- the answer

    predicate InProgress() { exists v :: v in rows && v.account == o.account && v.nonce == o.nonce && Waiting(v) }

    /** Another faucet operation of the account, less than an hour ago. */
    predicate CoolingDown() {
      o.intent.Faucet?
      && exists v :: v in rows && v.account == o.account && v.intent.Faucet? && v.state != Cancelled
                     && o.createdAt - v.createdAt < 3_600_000
    }

    function QuotaAnswer(limits: Limits): Option<QuotaError> {
      if InProgress() then Some(OperationInProgress)
      else if CoolingDown() then Some(FaucetCooldown)
      else if o.gasPayment == Some(SelfFunded) then None
      else if WeekOwed() + o.maxGasCost > Allowance(limits, o.lane) then Some(WeeklyBudgetExhausted)
      else if !FitsToday(if o.lane == Exit then limits.exit else limits.exposure) then Some(BudgetExhausted)
      else if |Filter(rows, KindOfAccount)| >= limits.methodDailyOperations
           || |Filter(rows, KindOfUser)| >= limits.methodDailyOperations then Some(MethodQuotaExhausted)
      else if o.intent.DepositUsdc? && |Filter(rows, FromSource)| >= limits.methodDailyOperations then
        Some(DepositSourceQuotaExhausted)
      else None
    }
  }

  /** The exit lane has its own reserve, which the exposure lane cannot use. */
  function Allowance(limits: Limits, lane: Lane): int {
    match lane
    case Exit => limits.weeklyExitReserveWei
    case Exposure => limits.weeklyProjectWei - limits.weeklyExitReserveWei
  }

  // ---------------------------------------------------------------- what a row owes is what it is charged

  lemma OwedIsCharged(rows: seq<Operation>, o: Operation, v: Operation)
    requires v.gasPayment != Some(SelfFunded)
    ensures BudgetCharges(rows).Of(v) == Applicant(rows, o).Owes(v)
  {
    assert KeyOf(v) in FinalNonces(rows) <==> Applicant(rows, o).NoncePaid(v) by {
      if KeyOf(v) in FinalNonces(rows) {
        var w :| w in rows && HasFinalGas(w) && KeyOf(w) == KeyOf(v);
        assert Applicant(rows, o).Paid(w);
      }
      if Applicant(rows, o).NoncePaid(v) {
        var w :| w in rows && Applicant(rows, o).Paid(w) && w.deployment == v.deployment && w.account == v.account
                 && w.nonce == v.nonce;
        assert HasFinalGas(w) && KeyOf(w) == KeyOf(v);
      }
    }
  }

  lemma OwedInScope(a: Applicant, g: Group, scope: Operation -> bool)
    requires forall v :: v in a.rows ==> g.Holds(v) == scope(v)
    requires forall v :: v in a.rows && scope(v) ==> v.gasPayment != Some(SelfFunded)
    ensures Members(a.rows, g) == Filter(a.rows, scope)
    ensures Charged(a.rows, g) == Sum(Filter(a.rows, scope), a.Owes)
  {
    hide Group.Holds, BudgetCharges, Charges.Of, Applicant.Owes;
    FilterAgree(a.rows, g.Holds, scope);
    FilterMembers(a.rows, scope);
    forall v | v in Filter(a.rows, scope) ensures BudgetCharges(a.rows).Of(v) == a.Owes(v) { OwedIsCharged(a.rows, a.o, v); }
    SumAgree(Filter(a.rows, scope), BudgetCharges(a.rows).Of, a.Owes);
  }

  /** The three parts of a week are disjoint, and together they are the rows that count toward it. */
  lemma WeekHasThreeParts(a: Applicant, v: Operation)
    ensures var counted := CountedWeek(a.o.lane, WeeklyBudgetWindow(a.o.createdAt)).Holds(v);
            && (counted <==> a.Carried(v) || a.SettledLate(v) || a.ThisWeek(v))
            && !(a.Carried(v) && a.SettledLate(v)) && !(a.Carried(v) && a.ThisWeek(v)) && !(a.SettledLate(v) && a.ThisWeek(v))
            && (a.Carried(v) ==> a.Owes(v) == a.Reserve(v))
            && (counted ==> v.gasPayment != Some(SelfFunded))
  {
    hide WeeklyBudgetWindow;
  }

  lemma {:induction false} SumOfThree(xs: seq<Operation>, a: Applicant, all: Operation -> bool)
    requires forall v :: all(v) <==> a.Carried(v) || a.SettledLate(v) || a.ThisWeek(v)
    requires forall v :: !(a.Carried(v) && a.SettledLate(v)) && !(a.Carried(v) && a.ThisWeek(v)) && !(a.SettledLate(v) && a.ThisWeek(v))
    requires forall v :: a.Carried(v) ==> a.Owes(v) == a.Reserve(v)
    ensures Sum(Filter(xs, all), a.Owes)
            == Sum(Filter(xs, a.Carried), a.Reserve) + Sum(Filter(xs, a.SettledLate), a.Owes) + Sum(Filter(xs, a.ThisWeek), a.Owes)
  {
    hide Applicant.Carried, Applicant.SettledLate, Applicant.ThisWeek, Applicant.Owes, Applicant.Reserve;
    if xs != [] {
      SumOfThree(xs[..|xs| - 1], a, all);
      FilteredSumLast(xs, a.Owes, all);
      FilteredSumLast(xs, a.Reserve, a.Carried);
      FilteredSumLast(xs, a.Owes, a.SettledLate);
      FilteredSumLast(xs, a.Owes, a.ThisWeek);
    }
  }

  lemma WeekIsOwed(a: Applicant)
    ensures Charged(a.rows, CountedWeek(a.o.lane, WeeklyBudgetWindow(a.o.createdAt))) == a.WeekOwed()
  {
    hide Group.Holds, Applicant.Carried, Applicant.SettledLate, Applicant.ThisWeek, Applicant.Owes, Applicant.Reserve,
      WeeklyBudgetWindow, Charged;
    var g := CountedWeek(a.o.lane, WeeklyBudgetWindow(a.o.createdAt));
    forall v { WeekHasThreeParts(a, v); }
    OwedInScope(a, g, g.Holds);
    SumOfThree(a.rows, a, g.Holds);
  }

  // ---------------------------------------------------------------- the quota

  lemma WaitingIsUnfinished(a: Applicant, v: Operation)
    ensures a.Waiting(v) <==> v.Unfinished()
  {
  }

  lemma ConflictsAre(a: Applicant)
    ensures a.InProgress() <==> exists v :: v in a.rows && Blocks(v, a.o)
    ensures a.CoolingDown() <==> a.o.intent.Faucet? && exists v :: v in a.rows && CoolsDown(v, a.o)
  {
    if a.InProgress() {
      var v :| v in a.rows && v.account == a.o.account && v.nonce == a.o.nonce && a.Waiting(v);
      assert Blocks(v, a.o);
    }
    if a.CoolingDown() {
      var v :| v in a.rows && v.account == a.o.account && v.intent.Faucet? && v.state != Cancelled
               && a.o.createdAt - v.createdAt < 3_600_000;
      assert CoolsDown(v, a.o);
    }
  }

  lemma DayIsOwed(a: Applicant)
    ensures var o, day := a.o, DayOf(a.o.createdAt);
            && Members(a.rows, OfDay(o.lane, day)) == Filter(a.rows, a.Today)
            && Charged(a.rows, OfDay(o.lane, day)) == Sum(Filter(a.rows, a.Today), a.Owes)
            && Members(a.rows, OfDayAccount(o.lane, day, o.account)) == Filter(a.rows, a.TodayOfAccount)
            && Charged(a.rows, OfDayAccount(o.lane, day, o.account)) == Sum(Filter(a.rows, a.TodayOfAccount), a.Owes)
            && Members(a.rows, OfDaySubject(o.lane, day, o.subject)) == Filter(a.rows, a.TodayOfUser)
            && Charged(a.rows, OfDaySubject(o.lane, day, o.subject)) == Sum(Filter(a.rows, a.TodayOfUser), a.Owes)
  {
    hide Members, Charged, Applicant.Owes;
    var o, day := a.o, DayOf(a.o.createdAt);
    OwedInScope(a, OfDay(o.lane, day), a.Today);
    OwedInScope(a, OfDayAccount(o.lane, day, o.account), a.TodayOfAccount);
    OwedInScope(a, OfDaySubject(o.lane, day, o.subject), a.TodayOfUser);
  }

  lemma KindsAre(a: Applicant)
    ensures var o, day := a.o, DayOf(a.o.createdAt);
            && Members(a.rows, OfDayAccountKind(o.lane, day, o.account, o.intent)) == Filter(a.rows, a.KindOfAccount)
            && Members(a.rows, OfDaySubjectKind(o.lane, day, o.subject, o.intent)) == Filter(a.rows, a.KindOfUser)
            && (o.intent.DepositUsdc? ==> Members(a.rows, OfDaySource(o.lane, day, o.intent.source)) == Filter(a.rows, a.FromSource))
  {
    hide SameKind;
    var o, day := a.o, DayOf(a.o.createdAt);
    FilterAgree(a.rows, OfDayAccountKind(o.lane, day, o.account, o.intent).Holds, a.KindOfAccount);
    FilterAgree(a.rows, OfDaySubjectKind(o.lane, day, o.subject, o.intent).Holds, a.KindOfUser);
    if o.intent.DepositUsdc? { FilterAgree(a.rows, OfDaySource(o.lane, day, o.intent.source).Holds, a.FromSource); }
  }

  /** The quota's answer, error by error, for any rows and any limits. */
  lemma QuotaIsExact(rows: seq<Operation>, o: Operation, limits: Limits)
    ensures AssertQuota(rows, o, limits) == Applicant(rows, o).QuotaAnswer(limits)
  {
    hide Members, Charged, Group.Holds, WeeklyBudgetWindow, Applicant.WeekOwed, Applicant.InProgress, Applicant.CoolingDown,
      Blocks, CoolsDown, Applicant.Owes, Filter;
    var a := Applicant(rows, o);
    ConflictsAre(a);
    WeekIsOwed(a);
    DayIsOwed(a);
    KindsAre(a);
  }

  /** A row of an earlier week that was settled, or last written, before this one no longer counts. */
  lemma ForgottenAfterItsWeek(rows: seq<Operation>, o: Operation, v: Operation)
    requires v.createdAt < Applicant(rows, o).WeekStart() && !Applicant(rows, o).Waiting(v)
    requires v.gasSettledAt.GetOr(v.updatedAt) < Applicant(rows, o).WeekStart()
    ensures Applicant(rows + [v], o).WeekOwed() <= Applicant(rows, o).WeekOwed()
    ensures !Applicant(rows, o).Paid(v) ==> Applicant(rows + [v], o).WeekOwed() == Applicant(rows, o).WeekOwed()
  {
    hide WeeklyBudgetWindow;
    var a, b := Applicant(rows, o), Applicant(rows + [v], o);
    WeekHasThreeParts(a, v);
    forall w { OwesNoMore(a, b, v, w); }
    SamePart(a, b, v, a.Carried, b.Carried, a.Reserve, b.Reserve);
    SamePart(a, b, v, a.SettledLate, b.SettledLate, a.Owes, b.Owes);
    SamePart(a, b, v, a.ThisWeek, b.ThisWeek, a.Owes, b.Owes);
  }

  lemma OwesNoMore(a: Applicant, b: Applicant, v: Operation, w: Operation)
    requires b == Applicant(a.rows + [v], a.o)
    ensures b.Owes(w) <= a.Owes(w) && (!a.Paid(v) ==> b.Owes(w) == a.Owes(w))
  {
    assert forall x :: x in b.rows <==> x in a.rows || x == v;
    assert a.NoncePaid(w) ==> b.NoncePaid(w);
    assert b.NoncePaid(w) && !a.Paid(v) ==> a.NoncePaid(w);
  }

  lemma SamePart(a: Applicant, b: Applicant, v: Operation, few: Operation -> bool, many: Operation -> bool,
                 before: Operation -> int, owed: Operation -> int)
    requires b.rows == a.rows + [v] && !many(v) && forall w :: few(w) == many(w)
    requires forall w :: owed(w) <= before(w)
    ensures Sum(Filter(b.rows, many), owed) <= Sum(Filter(a.rows, few), before)
    ensures (forall w :: owed(w) == before(w)) ==> Sum(Filter(b.rows, many), owed) == Sum(Filter(a.rows, few), before)
  {
    FilterAppend(a.rows, [v], many);
    FilterSingle(v, many);
    FilterAgree(a.rows, few, many);
    assert Filter(b.rows, many) == Filter(a.rows, few) + [] == Filter(a.rows, few);
    SumMonotone(Filter(a.rows, few), owed, before);
    if forall w :: owed(w) == before(w) { SumAgree(Filter(a.rows, few), owed, before); }
  }

  // ---------------------------------------------------------------- sessions

  /** What an intent can take from the payment token: a bid its price in whole units, rounded up; sales nothing. */
  predicate Takes(i: Intent, amount: nat) {
    match i
    case Buy(maxPayment) => amount == maxPayment
    case FillListing(maxPayment) => amount == maxPayment
    case FillOrder(ask, paymentLimit) => amount == if ask then paymentLimit else 0
    case CreateOrder(bid, units, unitPrice) =>
      if bid then amount * 1_000_000 - 1_000_000 < units * unitPrice <= amount * 1_000_000 else amount == 0
    case _ => amount == 0
  }

  /** The spend of an intent is the one amount that it can take. */
  lemma SpendIsWhatItTakes(i: Intent, amount: nat)
    ensures Takes(i, amount) <==> amount == SessionSpend(i)
  {
    if i.CreateOrder? && i.bid {
      var cost := i.units * i.unitPrice;
      assert SessionSpend(i) == (cost + 999_999) / 1_000_000;
    }
  }

  datatype SessionView = SessionView(rows: seq<Operation>, id: nat) {
    /** Everything signed by the session, unless it was cancelled before it was ever submitted. */
    predicate Uses(v: Operation) {
      v.session == Some(id) && (v.state != Cancelled || v.userOperationHash.Some? || v.transactionHash.Some?)
    }
    function SpendOf(v: Operation): int { SessionSpend(v.intent) }
    function Used(): int { Sum(Filter(rows, Uses), SpendOf) }
  }

  /** An active session of the user for the account, not yet expired, with enough left for the operation. */
  function SessionAnswer(db: Db, o: Operation): Option<AdmitError> {
    if o.session.None? then None
    else
      var id := o.session.value;
      if id !in db.sessions then Some(SessionUnavailable)
      else
        var s := db.sessions[id];
        if s.subject != o.subject || s.accountId != o.accountId || s.state != Active || s.validUntil * 1000 <= o.createdAt then
          Some(SessionUnavailable)
        else if SessionSpend(o.intent) > s.perOperation
             || SessionView(db.rows, id).Used() + SessionSpend(o.intent) > s.total then Some(SessionBudgetExceeded)
        else None
  }

  lemma SessionIsExact(db: Db, o: Operation)
    requires o.session.Some?
    ensures AssertSessionQuota(db.rows, OwnSession(db, o), o.session.value, o) == SessionAnswer(db, o)
  {
    hide SessionSpend;
    var id, view := o.session.value, SessionView(db.rows, o.session.value);
    FilterAgree(db.rows, SessionUse(id).Counts, view.Uses);
    SumAgree(Filter(db.rows, view.Uses), Store.SpendOf, view.SpendOf);
  }

  // ---------------------------------------------------------------- admission

  predicate New(rows: seq<Operation>, o: Operation) {
    forall v :: v in rows ==> v.subject != o.subject || v.key != o.key
  }

  /**
    A new key is refused for its quota over the rows loaded, or else for its session over all rows, or else its
    record is appended as it is and nothing else changes.
   */
  lemma NewAdmission(db: Db, o: Operation, limits: Limits)
    requires New(db.rows, o)
    ensures var quota, session := Applicant(Loaded(db.rows, o.createdAt), o).QuotaAnswer(limits), SessionAnswer(db, o);
            Admitted(db, o, limits)
            == if quota.Some? then (db, Err(AdmitError.Quota(quota.value)))
               else if session.Some? then (db, Err(session.value))
               else (db.(rows := db.rows + [o]), Ok(|db.rows|))
  {
    hide Applicant.QuotaAnswer, SessionAnswer, AssertQuota, AssertSessionQuota, Loaded;
    QuotaIsExact(Loaded(db.rows, o.createdAt), o, limits);
    var prior := FindKey(db.rows, o.subject, o.key);
    assert forall i :: 0 <= i < |db.rows| ==> !(db.rows[i].subject == o.subject && db.rows[i].key == o.key);
    if o.session.Some? { SessionIsExact(db, o); } else { assert SessionAnswer(db, o).None? by { NoSession(db, o); } }
  }

  lemma NoSession(db: Db, o: Operation)
    requires o.session.None?
    ensures SessionAnswer(db, o).None?
  {
  }

  /** A known key changes nothing: it names the first row of that key, or is another request. */
  lemma RepeatedAdmission(db: Db, o: Operation, limits: Limits, i: nat)
    requires i < |db.rows| && db.rows[i].subject == o.subject && db.rows[i].key == o.key
    requires forall j :: 0 <= j < i ==> db.rows[j].subject != o.subject || db.rows[j].key != o.key
    ensures Admitted(db, o, limits) == (db, if db.rows[i].requestHash == o.requestHash then Ok(i) else Err(IdempotencyConflict))
  {
    hide Refusal;
    var prior := FindKey(db.rows, o.subject, o.key);
    assert prior == i by { assert !(prior < i) && !(i < prior); }
  }

  /** Whatever is admitted fits every quota over the whole history, its week with what earlier weeks left over included. */
  lemma AdmittedFitsTheHistory(db: Db, o: Operation, limits: Limits)
    requires AllSettledOnTime(db.rows) && Admitted(db, o, limits).0 != db
    ensures Applicant(db.rows, o).QuotaAnswer(limits).None?
    ensures o.gasPayment != Some(SelfFunded) ==> Applicant(db.rows, o).WeekOwed() + o.maxGasCost <= Allowance(limits, o.lane)
  {
    hide AssertQuota, AssertSessionQuota, Loaded, Applicant.WeekOwed, Applicant.InProgress, Applicant.CoolingDown, Filter;
    LoadedHistorySuffices(db.rows, o, limits);
    QuotaIsExact(db.rows, o, limits);
  }
}
