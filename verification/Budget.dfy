/** What each stored operation is charged, and which operations count toward a week or a day. */
module Budget {
  import opened Prelude
  import opened Operations
  import opened Calendar

  const FAUCET_COOLDOWN := 60 * 60 * 1000

  datatype LaneLimit = LaneLimit(
    projectWei: int, accountWei: int, subjectWei: int,
    projectOperations: nat, accountOperations: nat, subjectOperations: nat)

  datatype Limits = Limits(
    exposure: LaneLimit, exit: LaneLimit, methodDailyOperations: nat,
    weeklyProjectWei: int, weeklyExitReserveWei: int, maxCostPerOperation: nat)
  {
    function Lane(lane: Lane): LaneLimit { if lane == Exit then exit else exposure }
  }

  function WeeklyLaneLimit(limits: Limits, lane: Lane): int {
    if lane == Exit then limits.weeklyExitReserveWei else limits.weeklyProjectWei - limits.weeklyExitReserveWei
  }

  // ---------------------------------------------------------------- charges

  datatype NonceKey = NonceKey(deployment: nat, account: Address, nonce: nat)

  function KeyOf(o: Operation): NonceKey { NonceKey(o.deployment, o.account, o.nonce) }

  /** A canonical finalized receipt has been recorded. */
  predicate HasFinalGas(o: Operation) {
    && (o.state == Confirmed || o.state == Reverted)
    && o.finality == Finalized
    && o.actualGasCost.Some? && o.userOperationHash.Some? && o.transactionHash.Some?
    && o.blockHash.Some? && o.blockNumber.Some?
  }

  function FinalNonces(rows: seq<Operation>): set<NonceKey> {
    set o | o in rows && HasFinalGas(o) :: KeyOf(o)
  }

  /** A cancelled operation that costs nothing: no grant escaped, or its nonce was paid for elsewhere. */
  predicate Free(o: Operation, finals: set<NonceKey>) {
    && o.state == Cancelled && o.userOperationHash.None? && o.transactionHash.None? && o.providerOperationId.None?
    && ((o.sponsorshipAttempted == Some(false) && o.gasReleasedAt.Some?) || KeyOf(o) in finals)
  }

  /** budgetCharges, given the nonces that are finally settled among the operations considered. */
  datatype Charges = Charges(finals: set<NonceKey>) {
    function Of(o: Operation): int {
      if o.IsSelfFunded() then 0
      else if HasFinalGas(o) then o.actualGasCost.value
      else if Free(o, finals) then 0
      else o.maxGasCost
    }
  }

  function BudgetCharges(rows: seq<Operation>): Charges { Charges(FinalNonces(rows)) }

  /** Knowing more settled nonces never raises a charge. */
  lemma ChargesAreAntitone(few: set<NonceKey>, many: set<NonceKey>, o: Operation)
    requires few <= many
    ensures Charges(many).Of(o) <= Charges(few).Of(o)
    ensures 0 <= Charges(many).Of(o)
  {
  }

  // ---------------------------------------------------------------- selections of operations

  predicate CountsTowardWeek(o: Operation, week: Window) {
    || week.Contains(o.createdAt)
    || (o.createdAt < week.start
        && (o.Unfinished() || o.gasSettledAt.GetOr(o.updatedAt) >= week.start))
  }

  function DayOf(t: int): int { t / DAY }

  /** The groups of sponsored operations that quotas are measured over. */
  datatype Group =
    | CountedWeek(lane: Lane, week: Window)
    | CreatedWeek(lane: Lane, week: Window)
    | OfDay(lane: Lane, day: int)
    | OfDayAccount(lane: Lane, day: int, account: Address)
    | OfDaySubject(lane: Lane, day: int, subject: nat)
    | OfDayAccountKind(lane: Lane, day: int, account: Address, kind: Intent)
    | OfDaySubjectKind(lane: Lane, day: int, subject: nat, kind: Intent)
    | OfDaySource(lane: Lane, day: int, source: Address)
  {
    predicate Holds(o: Operation) {
      && !o.IsSelfFunded() && o.lane == lane
      && match this
         case CountedWeek(_, week) => CountsTowardWeek(o, week)
         case CreatedWeek(_, week) => week.Contains(o.createdAt)
         case OfDay(_, day) => DayOf(o.createdAt) == day
         case OfDayAccount(_, day, account) => DayOf(o.createdAt) == day && o.account == account
         case OfDaySubject(_, day, subject) => DayOf(o.createdAt) == day && o.subject == subject
         case OfDayAccountKind(_, day, account, kind) =>
           DayOf(o.createdAt) == day && o.account == account && SameKind(o.intent, kind)
         case OfDaySubjectKind(_, day, subject, kind) =>
           DayOf(o.createdAt) == day && o.subject == subject && SameKind(o.intent, kind)
         case OfDaySource(_, day, source) =>
           DayOf(o.createdAt) == day && o.intent.DepositUsdc? && o.intent.source == source
    }
  }

  function Members(rows: seq<Operation>, g: Group): seq<Operation> { Filter(rows, g.Holds) }

  /** The wei charged to a group, with charges computed over all the rows given. */
  function Charged(rows: seq<Operation>, g: Group): int { Sum(Members(rows, g), BudgetCharges(rows).Of) }

  /** The rows that admission loads: those young enough for any calendar, and all unfinished ones. */
  datatype History = History(start: int) {
    predicate Loads(o: Operation) {
      o.createdAt >= start || o.updatedAt >= start || o.Unfinished()
    }
  }

  function QuotaHistoryStart(createdAt: int): int {
    Min(Min(WeeklyBudgetWindow(createdAt).start, DayOf(createdAt) * DAY), createdAt - FAUCET_COOLDOWN)
  }

  function Loaded(rows: seq<Operation>, createdAt: int): seq<Operation> {
    Filter(rows, History(QuotaHistoryStart(createdAt)).Loads)
  }

  // ---------------------------------------------------------------- quota

  datatype QuotaError =
    | OperationInProgress | FaucetCooldown | WeeklyBudgetExhausted | BudgetExhausted
    | MethodQuotaExhausted | DepositSourceQuotaExhausted

  predicate Blocks(v: Operation, o: Operation) {
    v.account == o.account && v.nonce == o.nonce && v.Unfinished()
  }

  predicate CoolsDown(v: Operation, o: Operation) {
    v.account == o.account && v.intent.Faucet? && v.state != Cancelled && v.createdAt > o.createdAt - FAUCET_COOLDOWN
  }

  /** A group has room for one more operation of this reserve. */
  predicate HasRoom(rows: seq<Operation>, g: Group, count: nat, wei: int, reserve: nat) {
    |Members(rows, g)| < count && Charged(rows, g) + reserve <= wei
  }

  function AssertQuota(rows: seq<Operation>, o: Operation, limits: Limits): Option<QuotaError> {
    var day, cap := DayOf(o.createdAt), limits.Lane(o.lane);
    var week := WeeklyBudgetWindow(o.createdAt);
    if exists v :: v in rows && Blocks(v, o) then Some(OperationInProgress)
    else if o.intent.Faucet? && exists v :: v in rows && CoolsDown(v, o) then Some(FaucetCooldown)
    else if o.IsSelfFunded() then None
    else if Charged(rows, CountedWeek(o.lane, week)) + o.maxGasCost > WeeklyLaneLimit(limits, o.lane) then
      Some(WeeklyBudgetExhausted)
    else if !HasRoom(rows, OfDay(o.lane, day), cap.projectOperations, cap.projectWei, o.maxGasCost)
         || !HasRoom(rows, OfDayAccount(o.lane, day, o.account), cap.accountOperations, cap.accountWei, o.maxGasCost)
         || !HasRoom(rows, OfDaySubject(o.lane, day, o.subject), cap.subjectOperations, cap.subjectWei, o.maxGasCost) then
      Some(BudgetExhausted)
    else if |Members(rows, OfDayAccountKind(o.lane, day, o.account, o.intent))| >= limits.methodDailyOperations
         || |Members(rows, OfDaySubjectKind(o.lane, day, o.subject, o.intent))| >= limits.methodDailyOperations then
      Some(MethodQuotaExhausted)
    else if o.intent.DepositUsdc?
         && |Members(rows, OfDaySource(o.lane, day, o.intent.source))| >= limits.methodDailyOperations then
      Some(DepositSourceQuotaExhausted)
    else None
  }

  // ---------------------------------------------------------------- the loaded history is enough

  ghost predicate AllSettledOnTime(rows: seq<Operation>) {
    forall o :: o in rows ==> SettledOnTime(o)
  }

  /** The group is measured over the week or the day of o. */
  predicate IsCurrent(g: Group, o: Operation) {
    match g
    case CountedWeek(_, week) => week == WeeklyBudgetWindow(o.createdAt)
    case CreatedWeek(_, week) => week == WeeklyBudgetWindow(o.createdAt)
    case _ => g.day == DayOf(o.createdAt)
  }

  /** Every row of a quota group of o is loaded. */
  lemma GroupIsLoaded(v: Operation, o: Operation, g: Group)
    requires g.CountedWeek? ==> SettledOnTime(v)
    requires IsCurrent(g, o) && g.Holds(v)
    ensures History(QuotaHistoryStart(o.createdAt)).Loads(v)
  {
    hide WeeklyBudgetWindow;
    if g.CountedWeek? || g.CreatedWeek? {
    } else {
      assert DayOf(v.createdAt) == DayOf(o.createdAt);
      assert v.createdAt / DAY * DAY <= v.createdAt;
    }
  }

  lemma LoadedFinalsAreFinal(rows: seq<Operation>, createdAt: int)
    ensures FinalNonces(Loaded(rows, createdAt)) <= FinalNonces(rows)
  {
    FilterMembers(rows, History(QuotaHistoryStart(createdAt)).Loads);
  }

  /** A quota group has the same members in the loaded rows and in all rows, and is charged no less there. */
  lemma GroupSurvivesLoading(rows: seq<Operation>, o: Operation, g: Group)
    requires g.CountedWeek? ==> AllSettledOnTime(rows)
    requires IsCurrent(g, o)
    ensures Members(Loaded(rows, o.createdAt), g) == Members(rows, g)
    ensures Charged(rows, g) <= Charged(Loaded(rows, o.createdAt), g)
  {
    hide Group.Holds, QuotaHistoryStart, WeeklyBudgetWindow, IsCurrent;
    var h := History(QuotaHistoryStart(o.createdAt));
    forall v | v in rows ensures g.Holds(v) == (h.Loads(v) && g.Holds(v)) {
      if g.Holds(v) { GroupIsLoaded(v, o, g); }
    }
    FilterTwice(rows, h.Loads, g.Holds, g.Holds);
    LoadedFinalsAreFinal(rows, o.createdAt);
    var few, many := BudgetCharges(Loaded(rows, o.createdAt)), BudgetCharges(rows);
    forall v ensures many.Of(v) <= few.Of(v) { ChargesAreAntitone(few.finals, many.finals, v); }
    SumMonotone(Members(rows, g), many.Of, few.Of);
  }

  /** Rows that block or cool down are loaded too. */
  lemma ConflictsAreLoaded(rows: seq<Operation>, o: Operation)
    ensures forall v :: v in rows && (Blocks(v, o) || CoolsDown(v, o)) ==> v in Loaded(rows, o.createdAt)
  {
    hide WeeklyBudgetWindow;
    FilterMembers(rows, History(QuotaHistoryStart(o.createdAt)).Loads);
  }

  /** An operation accepted on the loaded rows would be accepted on the whole history. */
  lemma LoadedHistorySuffices(rows: seq<Operation>, o: Operation, limits: Limits)
    requires AllSettledOnTime(rows)
    requires AssertQuota(Loaded(rows, o.createdAt), o, limits).None?
    ensures AssertQuota(rows, o, limits).None?
  {
    hide Group.Holds, Members, Charged, Loaded, WeeklyBudgetWindow, Blocks, CoolsDown;
    var day := DayOf(o.createdAt);
    ConflictsAreLoaded(rows, o);
    if !o.IsSelfFunded() {
      GroupSurvivesLoading(rows, o, CountedWeek(o.lane, WeeklyBudgetWindow(o.createdAt)));
      GroupSurvivesLoading(rows, o, OfDay(o.lane, day));
      GroupSurvivesLoading(rows, o, OfDayAccount(o.lane, day, o.account));
      GroupSurvivesLoading(rows, o, OfDaySubject(o.lane, day, o.subject));
      GroupSurvivesLoading(rows, o, OfDayAccountKind(o.lane, day, o.account, o.intent));
      GroupSurvivesLoading(rows, o, OfDaySubjectKind(o.lane, day, o.subject, o.intent));
      if o.intent.DepositUsdc? { GroupSurvivesLoading(rows, o, OfDaySource(o.lane, day, o.intent.source)); }
    }
  }
}
