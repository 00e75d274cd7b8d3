/**
  The application store: tables of operations and trading sessions whose changes are atomic
  (an advisory lock around admission, a row lock around each transition).
  A row is named by its position in the order of admission.
 */
module Store {
  import opened Prelude
  import opened Operations
  import opened Calendar
  import opened Budget

  // ---------------------------------------------------------------- trading sessions

  datatype SessionState = Prepared | Active | Disabled

  /** validUntil is in seconds; the other times of the service are in milliseconds. */
  datatype Session = Session(
    subject: nat, accountId: nat, perOperation: nat, total: nat, validUntil: int, state: SessionState)

  /** The operations whose spend still counts against a session. */
  datatype SessionUse = SessionUse(id: nat) {
    predicate Counts(o: Operation) {
      o.session == Some(id)
      && !(o.state == Cancelled && o.userOperationHash.None? && o.transactionHash.None?)
    }
  }

  function SpendOf(o: Operation): int { SessionSpend(o.intent) }

  function Spent(rows: seq<Operation>, id: nat): int { Sum(Filter(rows, SessionUse(id).Counts), SpendOf) }

  datatype AdmitError = Quota(error: QuotaError) | SessionUnavailable | SessionBudgetExceeded | IdempotencyConflict

  function AssertSessionQuota(rows: seq<Operation>, session: Option<Session>, id: nat, o: Operation): Option<AdmitError> {
    if session.None? || session.value.state != Active || session.value.accountId != o.accountId
       || session.value.validUntil * 1000 <= o.createdAt then Some(SessionUnavailable)
    else if SessionSpend(o.intent) > session.value.perOperation
         || Spent(rows, id) + SessionSpend(o.intent) > session.value.total then Some(SessionBudgetExceeded)
    else None
  }

  // ---------------------------------------------------------------- atomic changes, on values

  datatype Db = Db(rows: seq<Operation>, sessions: map<nat, Session>)

  /** The first row with an idempotency key, or |rows|. */
  function FindKey(rows: seq<Operation>, subject: nat, key: nat): (i: nat)
    ensures i <= |rows|
    ensures i < |rows| ==> rows[i].subject == subject && rows[i].key == key
    ensures forall j :: 0 <= j < i ==> !(rows[j].subject == subject && rows[j].key == key)
  {
    if rows == [] then 0
    else
      var i := FindKey(rows[..|rows| - 1], subject, key);
      var last := rows[|rows| - 1];
      if i < |rows| - 1 then i
      else if last.subject == subject && last.key == key then |rows| - 1
      else |rows|
  }

  function OwnSession(db: Db, o: Operation): Option<Session>
    requires o.session.Some?
  {
    if o.session.value in db.sessions && db.sessions[o.session.value].subject == o.subject
    then Some(db.sessions[o.session.value]) else None
  }

  /** The reason for refusing a new operation, if any. */
  function Refusal(db: Db, o: Operation, limits: Limits): Option<AdmitError> {
    var quota := AssertQuota(Loaded(db.rows, o.createdAt), o, limits);
    if quota.Some? then Some(Quota(quota.value))
    else if o.session.Some? then AssertSessionQuota(db.rows, OwnSession(db, o), o.session.value, o)
    else None
  }

  /** Admission: an idempotent replay, a refusal, or a new row. */
  function Admitted(db: Db, o: Operation, limits: Limits): (Db, Result<nat, AdmitError>) {
    var prior := FindKey(db.rows, o.subject, o.key);
    if prior < |db.rows| then
      (db, if db.rows[prior].requestHash != o.requestHash then Err(IdempotencyConflict) else Ok(prior))
    else
      var refusal := Refusal(db, o, limits);
      if refusal.Some? then (db, Err(refusal.value))
      else (db.(rows := db.rows + [o]), Ok(|db.rows|))
  }

  /** A compare-and-set transition: applied only from the patch's own states. */
  function Transitioned(db: Db, id: nat, p: Patch): (Db, bool)
    requires id < |db.rows|
  {
    if db.rows[id].state in From(p) then (db.(rows := db.rows[id := ApplyPatch(db.rows[id], p)]), true)
    else (db, false)
  }

  function RestartedRows(rows: seq<Operation>): seq<Operation> {
    seq(|rows|, i requires 0 <= i < |rows| => Restarted(rows[i]))
  }

  /** Only a prepared session can be activated; any session can be disabled. */
  function SessionSet(db: Db, subject: nat, id: nat, state: SessionState): (Db, Result<Session, AdmitError>)
    requires state != Prepared
  {
    if id !in db.sessions || db.sessions[id].subject != subject then (db, Err(SessionUnavailable))
    else
      var session := db.sessions[id];
      if session.state == Prepared || state == Disabled then
        (db.(sessions := db.sessions[id := session.(state := state)]), Ok(session.(state := state)))
      else if session.state == state then (db, Ok(session))
      else (db, Err(SessionUnavailable))
  }

  function SessionsDisabled(sessions: map<nat, Session>, subject: nat): (r: map<nat, Session>)
    ensures r.Keys == sessions.Keys
    ensures forall id :: id in sessions && sessions[id].subject == subject ==>
              r[id].state == Disabled && r[id] == sessions[id].(state := r[id].state)
    ensures forall id :: id in sessions && sessions[id].subject != subject ==> r[id] == sessions[id]
  {
    map id | id in sessions :: if sessions[id].subject == subject then sessions[id].(state := Disabled) else sessions[id]
  }

  /** A row that a policy callback for u may refer to. */
  predicate MatchesPolicy(o: Operation, u: UserOp) {
    o.account == u.sender && o.nonce == u.nonce && o.callData == u.callData && o.state in From(MarkPolicy(0))
  }

  // ---------------------------------------------------------------- the store itself

  class ApplicationStore {
    var rows: seq<Operation>
    var sessions: map<nat, Session>

    ghost function View(): Db reads this { Db(rows, sessions) }

    constructor ()
      ensures View() == Db([], map[])
    {
      rows, sessions := [], map[];
    }

    method PriorOperation(subject: nat, key: nat) returns (i: nat)
      ensures i == FindKey(rows, subject, key)
    {
      i := 0;
      while i < |rows|
        invariant i <= |rows|
        invariant forall j :: 0 <= j < i ==> !(rows[j].subject == subject && rows[j].key == key)
      {
        if rows[i].subject == subject && rows[i].key == key { break; }
        i := i + 1;
      }
      ghost var first := FindKey(rows, subject, key);
      assert !(first < i) && !(i < first);
    }

    method Admit(o: Operation, limits: Limits) returns (r: Result<nat, AdmitError>)
      modifies this`rows
      ensures (View(), r) == Admitted(old(View()), o, limits)
    {
      var prior := PriorOperation(o.subject, o.key);
      if prior < |rows| {
        if rows[prior].requestHash != o.requestHash { return Err(IdempotencyConflict); }
        return Ok(prior);
      }
      var loaded := Loaded(rows, o.createdAt);
      var quota := AssertQuota(loaded, o, limits);
      if quota.Some? { return Err(Quota(quota.value)); }
      if o.session.Some? {
        var session := if o.session.value in sessions && sessions[o.session.value].subject == o.subject
          then Some(sessions[o.session.value]) else None;
        var refusal := AssertSessionQuota(rows, session, o.session.value, o);
        if refusal.Some? { return Err(refusal.value); }
      }
      r := Ok(|rows|);
      rows := rows + [o];
    }

    method Transition(id: nat, p: Patch) returns (changed: bool, row: Operation)
      requires id < |rows|
      modifies this`rows
      ensures (View(), changed) == Transitioned(old(View()), id, p)
      ensures row == rows[id]
    {
      var current := rows[id];
      if current.state !in From(p) { return false, current; }
      row := ApplyPatch(current, p);
      rows := rows[id := row];
      changed := true;
    }

    method CreateTradingSession(id: nat, session: Session) returns (ok: bool)
      requires session.state == Prepared
      modifies this`sessions
      ensures ok == (id !in old(sessions))
      ensures sessions == if ok then old(sessions)[id := session] else old(sessions)
    {
      ok := id !in sessions;
      if ok { sessions := sessions[id := session]; }
    }

    method SetTradingSessionState(subject: nat, id: nat, state: SessionState) returns (r: Result<Session, AdmitError>)
      requires state != Prepared
      modifies this`sessions
      ensures (View(), r) == SessionSet(old(View()), subject, id, state)
      ensures r.Ok? <==> id in old(sessions) && old(sessions)[id].subject == subject
                         && (state == Disabled || old(sessions)[id].state != Disabled)
      ensures sessions == if r.Ok? then old(sessions)[id := old(sessions)[id].(state := state)] else old(sessions)
      ensures r.Ok? ==> r.value == sessions[id]
    {
      if id !in sessions || sessions[id].subject != subject { return Err(SessionUnavailable); }
      var session := sessions[id];
      if session.state == Prepared || state == Disabled {
        session := session.(state := state);
        sessions := sessions[id := session];
        return Ok(session);
      }
      if session.state != state { return Err(SessionUnavailable); }
      r := Ok(session);
    }

    /** Every session of the user is disabled with its terms kept; no other session changes, and none is added or lost. */
    method DisableUserTradingSessions(subject: nat)
      modifies this`sessions
      ensures sessions.Keys == old(sessions).Keys
      ensures forall id :: id in old(sessions) && old(sessions)[id].subject == subject ==>
                sessions[id].state == Disabled && sessions[id] == old(sessions)[id].(state := sessions[id].state)
      ensures forall id :: id in old(sessions) && old(sessions)[id].subject != subject ==>
                sessions[id] == old(sessions)[id]
    {
      sessions := SessionsDisabled(sessions, subject);
    }

    /** Start-up: attempts that an older release may not have recorded count as attempted. */
    method Ready()
      modifies this`rows
      ensures rows == RestartedRows(old(rows))
      ensures |rows| == |old(rows)| && forall j :: 0 <= j < |rows| ==>
                var o := old(rows)[j];
                rows[j] == if o.sponsorshipAttempted == Some(false) && o.gasReleasedAt.None?
                           then o.(sponsorshipAttempted := Some(true)) else o
    {
      ghost var before := rows;
      for i := 0 to |rows|
        invariant |rows| == |before|
        invariant forall j :: 0 <= j < i ==> rows[j] == Restarted(before[j])
        invariant forall j :: i <= j < |rows| ==> rows[j] == before[j]
      {
        if rows[i].sponsorshipAttempted == Some(false) && rows[i].gasReleasedAt.None? {
          rows := rows[i := rows[i].(sponsorshipAttempted := Some(true))];
        }
      }
    }

    /** The latest row that a policy callback may refer to. */
    method PolicyCandidate(u: UserOp) returns (id: Option<nat>)
      ensures id.Some? ==> id.value < |rows| && MatchesPolicy(rows[id.value], u)
                           && forall i :: 0 <= i < |rows| && MatchesPolicy(rows[i], u) ==>
                                rows[i].createdAt <= rows[id.value].createdAt
      ensures id.None? ==> forall i :: 0 <= i < |rows| ==> !MatchesPolicy(rows[i], u)
    {
      hide MatchesPolicy;
      id := None;
      for i := 0 to |rows|
        invariant id.Some? ==> id.value < i && MatchesPolicy(rows[id.value], u)
                               && forall j :: 0 <= j < i && MatchesPolicy(rows[j], u) ==>
                                    rows[j].createdAt <= rows[id.value].createdAt
        invariant id.None? ==> forall j :: 0 <= j < i ==> !MatchesPolicy(rows[j], u)
      {
        if MatchesPolicy(rows[i], u) && (id.None? || rows[id.value].createdAt <= rows[i].createdAt) { id := Some(i); }
      }
    }
  }
}
