/**
  Bundle receipts: one transaction executes several operations, and a deposit is verified only by token logs
  that lie in its own operation's stretch of the log.
 */
module Receipt {
  import opened Prelude

  type Address = nat

  /** A decoded log: of the entry point, of the token, or neither. */
  datatype Log =
    | OperationEvent(hash: nat, sender: Address, nonce: nat, success: bool, actualGasCost: nat)
    | BeforeExecution
    | OtherEntryPoint
    | AuthorizationUsed(authorizer: Address, authorization: nat)
    | Transfer(source: Address, target: Address, value: nat)
    | Foreign

  datatype Bundle = Bundle(success: bool, logs: seq<Log>)

  datatype Expected = Expected(hash: nat, sender: Address, nonce: nat)

  datatype Authorization = Authorization(source: Address, target: Address, value: nat, nonce: nat)

  datatype ReceiptError = EventMissing | DepositUnverified

  // ---------------------------------------------------------------- the operation's own event

  datatype EventOf = EventOf(hash: nat) {
    predicate Matches(log: Log) { log.OperationEvent? && log.hash == hash }
  }

  function OperationEventOf(bundle: Bundle, e: Expected): (r: Result<Log, ReceiptError>)
    ensures r.Ok? ==> EventOf(e.hash).Matches(r.value)
  {
    var matches := Filter(bundle.logs, EventOf(e.hash).Matches);
    FilterMembers(bundle.logs, EventOf(e.hash).Matches);
    assert |matches| == 1 ==> matches[0] in matches;
    if !bundle.success || |matches| != 1 || matches[0].sender != e.sender || matches[0].nonce != e.nonce
    then Err(EventMissing) else Ok(matches[0])
  }

  /** An event is found exactly when the bundle succeeded and has one event of that hash, for that sender and nonce. */
  lemma EventIsTheOnlyOne(bundle: Bundle, e: Expected)
    ensures OperationEventOf(bundle, e).Ok? <==>
              bundle.success && exists i ::
                0 <= i < |bundle.logs| && EventOf(e.hash).Matches(bundle.logs[i])
                && bundle.logs[i].sender == e.sender && bundle.logs[i].nonce == e.nonce
                && forall j :: 0 <= j < |bundle.logs| && EventOf(e.hash).Matches(bundle.logs[j]) ==> j == i
  {
    var keep := EventOf(e.hash).Matches;
    var logs := bundle.logs;
    FilterMembers(logs, keep);
    if |Filter(logs, keep)| == 1 {
      var i := OnlyIndex(logs, keep);
      assert Filter(logs, keep) == [logs[i]];
    } else if i :| 0 <= i < |logs| && keep(logs[i]) && forall j :: 0 <= j < |logs| && keep(logs[j]) ==> j == i {
      OnlyOneKept(logs, keep, i);
    }
  }

  /** A filter that keeps one element keeps it at one place. */
  lemma {:induction false} OnlyIndex(logs: seq<Log>, keep: Log -> bool) returns (i: nat)
    requires |Filter(logs, keep)| == 1
    ensures i < |logs| && keep(logs[i]) && Filter(logs, keep) == [logs[i]]
    ensures forall j :: 0 <= j < |logs| && keep(logs[j]) ==> j == i
  {
    var n := |logs| - 1;
    if keep(logs[n]) {
      i := n;
      NothingKept(logs[..n], keep);
      forall j | 0 <= j < n ensures !keep(logs[j]) { assert logs[..n][j] == logs[j]; }
    } else {
      i := OnlyIndex(logs[..n], keep);
      forall j | 0 <= j < |logs| && keep(logs[j]) ensures j == i { assert logs[..n][j] == logs[j]; }
    }
  }

  lemma {:induction false} OnlyOneKept(logs: seq<Log>, keep: Log -> bool, i: nat)
    requires i < |logs| && keep(logs[i]) && forall j :: 0 <= j < |logs| && keep(logs[j]) ==> j == i
    ensures Filter(logs, keep) == [logs[i]]
  {
    var n := |logs| - 1;
    if i == n {
      NoneKept(logs[..n], keep);
    } else {
      OnlyOneKept(logs[..n], keep, i);
    }
  }

  lemma NoneKept(logs: seq<Log>, keep: Log -> bool)
    requires forall j :: 0 <= j < |logs| ==> !keep(logs[j])
    ensures Filter(logs, keep) == []
  {
    FilterMembers(logs, keep);
    if Filter(logs, keep) != [] { HasMember(Filter(logs, keep)); }
  }

  lemma NothingKept(logs: seq<Log>, keep: Log -> bool)
    requires Filter(logs, keep) == []
    ensures forall j :: 0 <= j < |logs| ==> !keep(logs[j])
  {
    FilterMembers(logs, keep);
  }

  // ---------------------------------------------------------------- its stretch of the log

  predicate Separates(log: Log) { log.BeforeExecution? || log.OperationEvent? }

  /** The logs after the last separator before the operation's own event, which ends the window. */
  ghost predicate WindowOf(logs: seq<Log>, hash: nat, start: nat, end: nat) {
    && 0 < start <= end < |logs|
    && EventOf(hash).Matches(logs[end]) && (forall j :: 0 <= j < end ==> !EventOf(hash).Matches(logs[j]))
    && Separates(logs[start - 1]) && (forall j :: start <= j < end ==> !Separates(logs[j]))
  }

  predicate IsAuthorization(log: Log, a: Authorization) {
    log.AuthorizationUsed? && log.authorizer == a.source && log.authorization == a.nonce
  }

  predicate IsTransfer(log: Log, a: Authorization) {
    log.Transfer? && log.source == a.source && log.target == a.target && log.value == a.value
  }

  ghost predicate OneIn(logs: seq<Log>, start: nat, end: nat, a: Authorization, fits: (Log, Authorization) -> bool) {
    exists i :: start <= i < end <= |logs| && fits(logs[i], a)
      && forall j :: start <= j < end && fits(logs[j], a) ==> j == i
  }

  ghost predicate NoneIn(logs: seq<Log>, start: nat, end: nat, a: Authorization, fits: (Log, Authorization) -> bool)
    requires end <= |logs|
  {
    forall j :: start <= j < end ==> !fits(logs[j], a)
  }

  /** Exactly one matching authorization and one matching transfer in the operation's own window. */
  ghost predicate Verified(bundle: Bundle, e: Expected, a: Authorization) {
    && OperationEventOf(bundle, e).Ok? && OperationEventOf(bundle, e).value.success && a.target == e.sender
    && exists start, end :: WindowOf(bundle.logs, e.hash, start, end)
         && OneIn(bundle.logs, start, end, a, IsAuthorization) && OneIn(bundle.logs, start, end, a, IsTransfer)
  }

  lemma WindowIsUnique(logs: seq<Log>, hash: nat, s: nat, e: nat, t: nat, f: nat)
    requires WindowOf(logs, hash, s, e) && WindowOf(logs, hash, t, f)
    ensures s == t && e == f
  {
  }

  function Count(logs: seq<Log>, a: Authorization, fits: (Log, Authorization) -> bool): nat {
    if logs == [] then 0 else Count(logs[..|logs| - 1], a, fits) + if fits(logs[|logs| - 1], a) then 1 else 0
  }

  /** Counting up to the next log. */
  lemma CountNext(logs: seq<Log>, start: nat, end: nat, a: Authorization, fits: (Log, Authorization) -> bool)
    requires start < end <= |logs|
    ensures Count(logs[start..end], a, fits)
            == Count(logs[start..end - 1], a, fits) + if fits(logs[end - 1], a) then 1 else 0
  {
    assert logs[start..end][..end - start - 1] == logs[start..end - 1];
    assert logs[start..end][end - start - 1] == logs[end - 1];
  }

  lemma CountNothing(logs: seq<Log>, start: nat, a: Authorization, fits: (Log, Authorization) -> bool)
    requires start <= |logs|
    ensures Count(logs[start..start], a, fits) == 0
  {
  }

  lemma {:induction false} CountIsZero(logs: seq<Log>, start: nat, end: nat, a: Authorization, fits: (Log, Authorization) -> bool)
    requires start <= end <= |logs|
    ensures Count(logs[start..end], a, fits) == 0 <==> NoneIn(logs, start, end, a, fits)
    decreases end
  {
    hide Count;
    if start == end {
      CountNothing(logs, start, a, fits);
    } else {
      CountNext(logs, start, end, a, fits);
      CountIsZero(logs, start, end - 1, a, fits);
    }
  }

  lemma {:induction false} CountIsOne(logs: seq<Log>, start: nat, end: nat, a: Authorization, fits: (Log, Authorization) -> bool)
    requires start <= end <= |logs|
    ensures Count(logs[start..end], a, fits) == 1 <==> OneIn(logs, start, end, a, fits)
    decreases end
  {
    hide Count, OneIn, NoneIn;
    if start == end {
      CountNothing(logs, start, a, fits);
      NotOneInNothing(logs, start, a, fits);
    } else {
      CountNext(logs, start, end, a, fits);
      CountIsOne(logs, start, end - 1, a, fits);
      CountIsZero(logs, start, end - 1, a, fits);
      OneWithLast(logs, start, end, a, fits);
    }
  }

  lemma NotOneInNothing(logs: seq<Log>, start: nat, a: Authorization, fits: (Log, Authorization) -> bool)
    ensures !OneIn(logs, start, start, a, fits)
  {
  }

  lemma OneWithLast(logs: seq<Log>, start: nat, end: nat, a: Authorization, fits: (Log, Authorization) -> bool)
    requires start < end <= |logs|
    ensures OneIn(logs, start, end, a, fits)
            <==> if fits(logs[end - 1], a) then NoneIn(logs, start, end - 1, a, fits)
                 else OneIn(logs, start, end - 1, a, fits)
  {
    if OneIn(logs, start, end - 1, a, fits) && !fits(logs[end - 1], a) {
      var i :| start <= i < end - 1 && fits(logs[i], a) && forall j :: start <= j < end - 1 && fits(logs[j], a) ==> j == i;
      assert forall j :: start <= j < end && fits(logs[j], a) ==> j == i;
    }
    if OneIn(logs, start, end, a, fits) {
      var i :| start <= i < end && fits(logs[i], a) && forall j :: start <= j < end && fits(logs[j], a) ==> j == i;
      if i < end - 1 { assert OneIn(logs, start, end - 1, a, fits); }
    }
  }

  method CountTokenLogs(logs: seq<Log>, a: Authorization) returns (authorizations: nat, transfers: nat)
    ensures authorizations == Count(logs, a, IsAuthorization) && transfers == Count(logs, a, IsTransfer)
  {
    authorizations, transfers := 0, 0;
    for i := 0 to |logs|
      invariant authorizations == Count(logs[..i], a, IsAuthorization)
      invariant transfers == Count(logs[..i], a, IsTransfer)
    {
      assert logs[..i + 1][..i] == logs[..i];
      if IsAuthorization(logs[i], a) { authorizations := authorizations + 1; }
      if IsTransfer(logs[i], a) { transfers := transfers + 1; }
    }
    assert logs[..|logs|] == logs;
  }

  /** Accepts exactly the verified deposits. */
  method AssertDepositTransfer(bundle: Bundle, e: Expected, a: Authorization) returns (error: Option<ReceiptError>)
    ensures error.None? <==> Verified(bundle, e, a)
    ensures error == Some(EventMissing) <==> OperationEventOf(bundle, e).Err?
  {
    var logs := bundle.logs;
    var event := OperationEventOf(bundle, e);
    if event.Err? { return Some(EventMissing); }
    if !event.value.success || a.target != e.sender { return Some(DepositUnverified); }
    var start, end := -1, -1;
    for index := 0 to |logs|
      invariant end == -1 && -1 <= start <= index && start != 0
      invariant forall j :: 0 <= j < index ==> !EventOf(e.hash).Matches(logs[j])
      invariant start > 0 ==> Separates(logs[start - 1])
      invariant forall j :: Max(0, start) <= j < index ==> !Separates(logs[j])
    {
      if EventOf(e.hash).Matches(logs[index]) {
        end := index;
        break;
      }
      if Separates(logs[index]) { start := index + 1; }
    }
    if start < 0 || end < 0 { return Some(DepositUnverified); }
    assert WindowOf(logs, e.hash, start, end);
    var authorizations, transfers := CountTokenLogs(logs[start..end], a);
    CountIsOne(logs, start, end, a, IsAuthorization);
    CountIsOne(logs, start, end, a, IsTransfer);
    if authorizations != 1 || transfers != 1 {
      forall s: nat, f: nat | WindowOf(logs, e.hash, s, f) ensures s == start && f == end {
        WindowIsUnique(logs, e.hash, s, f, start, end);
      }
      return Some(DepositUnverified);
    }
    error := None;
  }

  /** Windows of different operations do not overlap. */
  lemma WindowsAreDisjoint(logs: seq<Log>, hash: nat, other: nat, s: nat, e: nat, t: nat, f: nat)
    requires hash != other && WindowOf(logs, hash, s, e) && WindowOf(logs, other, t, f)
    ensures e < t || f < s
  {
    assert e != f;
    assert Separates(logs[e]) && Separates(logs[f]);
  }

  /** One log verifies at most one deposit: the logs that verify two operations of a bundle are different logs. */
  lemma NoLogVerifiesTwoDeposits(bundle: Bundle, e: Expected, a: Authorization, d: Expected, b: Authorization)
    requires e.hash != d.hash && Verified(bundle, e, a) && Verified(bundle, d, b)
    ensures exists s, f, t, g ::
              && WindowOf(bundle.logs, e.hash, s, f) && WindowOf(bundle.logs, d.hash, t, g)
              && OneIn(bundle.logs, s, f, a, IsAuthorization) && OneIn(bundle.logs, s, f, a, IsTransfer)
              && OneIn(bundle.logs, t, g, b, IsAuthorization) && OneIn(bundle.logs, t, g, b, IsTransfer)
              && (f < t || g < s)
  {
    var s, f :| WindowOf(bundle.logs, e.hash, s, f)
      && OneIn(bundle.logs, s, f, a, IsAuthorization) && OneIn(bundle.logs, s, f, a, IsTransfer);
    var t, g :| WindowOf(bundle.logs, d.hash, t, g)
      && OneIn(bundle.logs, t, g, b, IsAuthorization) && OneIn(bundle.logs, t, g, b, IsTransfer);
    WindowsAreDisjoint(bundle.logs, e.hash, d.hash, s, f, t, g);
  }

  /** One log of a window fits exactly if the window contains that log once. */
  lemma OneInIsOnce(logs: seq<Log>, start: nat, end: nat, a: Authorization, fits: (Log, Authorization) -> bool, wanted: Log)
    requires start <= end <= |logs| && forall log :: fits(log, a) <==> log == wanted
    ensures OneIn(logs, start, end, a, fits) <==> multiset(logs[start..end])[wanted] == 1
    decreases end
  {
    CountIsOne(logs, start, end, a, fits);
    CountIsMultiplicity(logs[start..end], a, fits, wanted);
  }

  lemma {:induction false} CountIsMultiplicity(logs: seq<Log>, a: Authorization, fits: (Log, Authorization) -> bool, wanted: Log)
    requires forall log :: fits(log, a) <==> log == wanted
    ensures Count(logs, a, fits) == multiset(logs)[wanted]
  {
    if logs != [] {
      assert logs == logs[..|logs| - 1] + [logs[|logs| - 1]];
      CountIsMultiplicity(logs[..|logs| - 1], a, fits, wanted);
    }
  }

  /** The stretch of an operation: from the last start of execution or other event up to its own first event. */
  ghost predicate OwnStretch(logs: seq<Log>, hash: nat, start: nat, end: nat) {
    && 0 < start <= end < |logs| && logs[end].OperationEvent? && logs[end].hash == hash
    && (forall j :: 0 <= j < end && logs[j].OperationEvent? ==> logs[j].hash != hash)
    && (logs[start - 1].BeforeExecution? || logs[start - 1].OperationEvent?)
    && (forall j :: start <= j < end ==> !logs[j].BeforeExecution? && !logs[j].OperationEvent?)
  }

  lemma WindowIsStretch(logs: seq<Log>, hash: nat, start: nat, end: nat)
    ensures WindowOf(logs, hash, start, end) <==> OwnStretch(logs, hash, start, end)
  {
  }

  /**
    A deposit is verified exactly if its operation succeeded and in its own stretch the authorization was used
    once and the token moved once, in the authorized amount, from the depositor to the operation's account.
   */
  lemma VerifiedIsPaidOnce(bundle: Bundle, e: Expected, a: Authorization)
    ensures Verified(bundle, e, a) <==>
              && OperationEventOf(bundle, e).Ok? && OperationEventOf(bundle, e).value.success && a.target == e.sender
              && exists start: nat, end: nat :: OwnStretch(bundle.logs, e.hash, start, end)
                   && multiset(bundle.logs[start..end])[AuthorizationUsed(a.source, a.nonce)] == 1
                   && multiset(bundle.logs[start..end])[Transfer(a.source, e.sender, a.value)] == 1
  {
    hide OperationEventOf, OneIn;
    forall start: nat, end: nat { WindowIsStretch(bundle.logs, e.hash, start, end); }
    if a.target == e.sender {
      forall start: nat, end: nat | WindowOf(bundle.logs, e.hash, start, end)
        ensures OneIn(bundle.logs, start, end, a, IsAuthorization)
                <==> multiset(bundle.logs[start..end])[AuthorizationUsed(a.source, a.nonce)] == 1
        ensures OneIn(bundle.logs, start, end, a, IsTransfer)
                <==> multiset(bundle.logs[start..end])[Transfer(a.source, e.sender, a.value)] == 1
      {
        OneInIsOnce(bundle.logs, start, end, a, IsAuthorization, AuthorizationUsed(a.source, a.nonce));
        OneInIsOnce(bundle.logs, start, end, a, IsTransfer, Transfer(a.source, e.sender, a.value));
      }
    }
    hide WindowOf, OwnStretch;
  }
}
