/** The push dispatcher: what it records for each claimed delivery, and why its rounds drain the
    outbox (internal/push/dispatcher.go). */
module Dispatcher {
  import opened Wrappers
  import opened Outbox
  import TimeText

  const MAX_ATTEMPTS := 5
  const BATCH := 25
  const LEASE: nat := 45 * TimeText.SECOND
  const MINUTE: nat := 60 * TimeText.SECOND
  const HOUR: nat := 60 * MINUTE
  const DAY: nat := 24 * HOUR

  /** The push service's answer to one delivery, with the clock readings around the call. */
  datatype Answer = Answer(checkedAt: Time, status: int, failed: bool, retryAfter: Option<Time>, answeredAt: Time)

  datatype Verdict = Success | Gone | RetryAt(at: Time) | GiveUp

  predicate Transient(a: Answer)
  {
    a.failed || a.status == 408 || a.status == 425 || a.status == 429 || a.status >= 500
  }

  function Shift(base: nat, places: nat): nat { if places == 0 then base else 2 * Shift(base, places - 1) }

  /** One minute, doubling with each attempt, at most an hour. */
  function RetryDelay(attempt: int): (delay: nat)
    ensures MINUTE <= delay <= HOUR
  {
    var n := if attempt < 1 then 1 else attempt;
    var places := if n - 1 < 6 then n - 1 else 6;
    ShiftBounds(places);
    var delay := Shift(MINUTE, places);
    if delay > HOUR then HOUR else delay
  }

  lemma {:induction false} ShiftBounds(places: nat)
    ensures MINUTE <= Shift(MINUTE, places)
  {
    if places > 0 { ShiftBounds(places - 1); }
  }

  lemma {:induction false} ShiftGrows(base: nat, a: nat, b: nat)
    requires a <= b
    ensures Shift(base, a) <= Shift(base, b)
  {
    if a < b { ShiftGrows(base, a, b - 1); }
  }

  /** The cap on the shift never shows: the delay is the uncapped doubling, limited to an hour. */
  lemma {:induction false} RetryDelayDoubles(attempt: nat)
    requires attempt >= 1
    ensures var doubled := Shift(MINUTE, attempt - 1);
      RetryDelay(attempt) == if doubled > HOUR then HOUR else doubled
  {
    if attempt - 1 > 6 {
      assert Shift(MINUTE, 6) == 64 * MINUTE by {
        assert Shift(MINUTE, 1) == 2 * MINUTE;
        assert Shift(MINUTE, 2) == 4 * MINUTE;
        assert Shift(MINUTE, 3) == 8 * MINUTE;
        assert Shift(MINUTE, 4) == 16 * MINUTE;
        assert Shift(MINUTE, 5) == 32 * MINUTE;
      }
      ShiftGrows(MINUTE, 6, attempt - 1);
    }
  }

  function NextAttempt(attempts: nat, a: Answer): (at: Time)
    ensures a.answeredAt + MINUTE <= at <= a.answeredAt + DAY
    ensures a.retryAfter.Some? && a.retryAfter.value <= a.answeredAt + DAY ==> a.retryAfter.value <= at
  {
    var delayed := a.answeredAt + RetryDelay(attempts);
    var asked := if a.retryAfter.Some? && a.retryAfter.value > delayed then a.retryAfter.value else delayed;
    if asked > a.answeredAt + DAY then a.answeredAt + DAY else asked
  }

  function Judge(c: Claim, a: Answer): Verdict
  {
    if c.expiration.Some? && c.expiration.value <= a.checkedAt then Gone
    else if !a.failed && 200 <= a.status < 300 then Success
    else if a.status == 404 || a.status == 410 then Gone
    else if Transient(a) && c.attempts < MAX_ATTEMPTS then RetryAt(NextAttempt(c.attempts, a))
    else GiveUp
  }

  function Record(c: Claim, a: Answer): Op
  {
    match Judge(c, a)
    case Success => RecordSent(c.id)
    case Gone => Disable(c.id)
    case RetryAt(at) => RecordRetry(c.id, at)
    case GiveUp => RecordFailure(c.id)
  }

  function DispatchAll(s: State, claims: seq<Claim>, answers: nat -> Answer): State
    decreases |claims|
  {
    if claims == [] then s
    else DispatchAll(Step(s, Record(claims[0], answers(claims[0].id))), claims[1..], answers)
  }

  function RoundClaims(s: State, now: Time): seq<Claim>
  {
    ClaimRecords(Claimed(s, BATCH, now, LEASE), ClaimedIds(s, BATCH, now))
  }

  /** Claim a batch, then record the outcome of every claimed delivery. */
  function Round(s: State, now: Time, answers: nat -> Answer): State
  {
    DispatchAll(Claimed(s, BATCH, now, LEASE), RoundClaims(s, now), answers)
  }

  /** The store accepts the outcome: the row, and where needed its subscription, is still there. */
  predicate Recorded(s: State, op: Op)
  {
    match op
    case RecordSent(id) => MarkedSent(s, id).Ok?
    case RecordRetry(id, at) => Retried(s, id, at).Ok?
    case RecordFailure(id) => MarkedFailed(s, id).Ok?
    case Disable(id) => Disabled(s, id).Ok?
    case _ => true
  }

  /** The outcomes of a batch that the store did not accept. */
  function Errors(s: State, claims: seq<Claim>, answers: nat -> Answer): nat
    decreases |claims|
  {
    if claims == [] then 0
    else
      var op := Record(claims[0], answers(claims[0].id));
      (if Recorded(s, op) then 0 else 1) + Errors(Step(s, op), claims[1..], answers)
  }

  // ----- What an answer does to its delivery -----

  predicate Expired(c: Claim, a: Answer) { c.expiration.Some? && c.expiration.value <= a.checkedAt }

  /** Sent without an error to a subscription that has not expired, and answered with a 2xx status. */
  predicate WasAccepted(c: Claim, a: Answer) { !Expired(c, a) && !a.failed && 200 <= a.status <= 299 }

  /** The subscription has expired, or the push service does not know it any more. */
  predicate WasGone(c: Claim, a: Answer) { Expired(c, a) || (!WasAccepted(c, a) && (a.status == 404 || a.status == 410)) }

  /** A failure that may pass, with fewer than five attempts used. */
  predicate MayPass(c: Claim, a: Answer)
  {
    && !WasAccepted(c, a) && !WasGone(c, a) && c.attempts < 5
    && (a.failed || a.status == 408 || a.status == 425 || a.status == 429 || a.status >= 500)
  }

  function Later(x: Time, y: Time): Time { if x < y then y else x }

  function Sooner(x: Time, y: Time): Time { if x < y then x else y }

  /** A minute doubled with each further attempt, at most an hour; later if the service asks for it, but
      not by more than a day. */
  function RetryTime(attempts: nat, a: Answer): Time
  {
    var delay := Sooner(Shift(MINUTE, if attempts == 0 then 0 else attempts - 1), HOUR);
    var asked := if a.retryAfter.Some? then Later(a.answeredAt + delay, a.retryAfter.value) else a.answeredAt + delay;
    Sooner(asked, a.answeredAt + DAY)
  }

  /** No other delivery of the notification is pending or being sent. */
  ghost predicate LastOfItsNotification(s: State, id: nat)
    requires id < |s.deliveries|
  {
    forall i :: 0 <= i < |s.deliveries| && i != id && s.deliveries[i].Active() ==> s.deliveries[i].notification != s.deliveries[id].notification
  }

  /** The rows after the answer to a delivery that was being sent. */
  ghost predicate Honours(s: State, s': State, c: Claim, a: Answer)
    requires Inv(s) && c.id < |s.deliveries| && s.deliveries[c.id].status == Sending
  {
    var d := s.deliveries[c.id];
    var n := d.notification;
    GoodDelivery(s, d) && |s'.deliveries| == |s.deliveries| && |s'.notifications| == |s.notifications| &&
    var d' := s'.deliveries[c.id];
    if WasGone(c, a) then
      && d' == Delivery(n, None, Cancelled, d.attempts, d.nextAttempt, None)
      && s'.subscriptions == s.subscriptions[d.subscription.value := None]
    else
      && s'.subscriptions == s.subscriptions
      && (forall i :: 0 <= i < |s.deliveries| && i != c.id ==> s'.deliveries[i] == s.deliveries[i])
      && (forall m :: 0 <= m < |s.notifications| && m != n ==> s'.notifications[m] == s.notifications[m])
      && if WasAccepted(c, a) then
           && d' == Delivery(n, d.subscription, Sent, d.attempts, d.nextAttempt, None)
           && s'.notifications[n] == (if LastOfItsNotification(s, c.id) then Delivered else s.notifications[n])
         else if MayPass(c, a) then
           && d' == Delivery(n, d.subscription, Pending, d.attempts, Some(RetryTime(c.attempts, a)), None)
           && s'.notifications[n] == s.notifications[n]
         else
           && d' == Delivery(n, d.subscription, Failed, d.attempts, d.nextAttempt, None)
           && s'.notifications[n] ==
                if !LastOfItsNotification(s, c.id) then s.notifications[n]
                else if AnySent(s.deliveries, n) then Delivered else Undelivered
  }

  lemma {:induction false} RetryTimeIs(attempts: nat, a: Answer)
    ensures NextAttempt(attempts, a) == RetryTime(attempts, a)
  {
    if attempts >= 1 {
      RetryDelayDoubles(attempts);
      hide Shift, RetryDelay;
    } else {
      RetryDelayDoubles(1);
      FirstDelay();
      hide Shift, RetryDelay;
    }
  }

  lemma {:induction false} FirstDelay()
    ensures RetryDelay(0) == RetryDelay(1)
  {
  }

  lemma {:induction false} GoneHonours(s: State, c: Claim, a: Answer)
    requires Inv(s) && c.id < |s.deliveries| && s.deliveries[c.id].status == Sending && WasGone(c, a)
    ensures Honours(s, Step(s, Record(c, a)), c, a)
  {
    assert GoodDelivery(s, s.deliveries[c.id]);
  }

  /** Settling a row that was being sent decides its notification when it was the last one open. */
  lemma {:induction false} FinishSettles(s: State, id: nat, status: Status)
    requires Inv(s) && id < |s.deliveries| && s.deliveries[id].status == Sending && (status == Sent || status == Failed)
    ensures var (s', n) := (Finish(s, id, status), s.deliveries[id].notification);
      && n < |s.notifications| && |s'.notifications| == |s.notifications|
      && s'.notifications[n] ==
           if !LastOfItsNotification(s, id) then s.notifications[n]
           else if status == Sent || AnySent(s.deliveries, n) then Delivered else Undelivered
  {
    assert GoodDelivery(s, s.deliveries[id]);
    var s', n := Finish(s, id, status), s.deliveries[id].notification;
    assert s'.deliveries[id] in s'.deliveries;
    forall i | 0 <= i < |s.deliveries| && i != id
      ensures s'.deliveries[i] == s.deliveries[i] && s'.deliveries[i] in s'.deliveries && s.deliveries[i] in s.deliveries
    {
    }
    hide Inv, GoodDelivery;
    assert AnyActive(s'.deliveries, n) <==> !LastOfItsNotification(s, id);
    assert AnySent(s'.deliveries, n) <==> status == Sent || AnySent(s.deliveries, n);
  }

  lemma {:induction false} AcceptedHonours(s: State, c: Claim, a: Answer)
    requires Inv(s) && c.id < |s.deliveries| && s.deliveries[c.id].status == Sending && WasAccepted(c, a)
    ensures Honours(s, Step(s, Record(c, a)), c, a)
  {
    assert GoodDelivery(s, s.deliveries[c.id]);
    FinishSettles(s, c.id, Sent);
    hide LastOfItsNotification, AnySent, AnyActive, Aggregated;
  }

  lemma {:induction false} RetriedHonours(s: State, c: Claim, a: Answer)
    requires Inv(s) && c.id < |s.deliveries| && s.deliveries[c.id].status == Sending && MayPass(c, a)
    ensures Honours(s, Step(s, Record(c, a)), c, a)
  {
    assert GoodDelivery(s, s.deliveries[c.id]);
    RetryTimeIs(c.attempts, a);
    hide LastOfItsNotification, NextAttempt, RetryTime;
  }

  lemma {:induction false} FailedHonours(s: State, c: Claim, a: Answer)
    requires Inv(s) && c.id < |s.deliveries| && s.deliveries[c.id].status == Sending
    requires !WasGone(c, a) && !WasAccepted(c, a) && !MayPass(c, a)
    ensures Honours(s, Step(s, Record(c, a)), c, a)
  {
    assert GoodDelivery(s, s.deliveries[c.id]);
    FinishSettles(s, c.id, Failed);
    hide LastOfItsNotification, AnySent, AnyActive, Aggregated;
  }

  /** A delivery being sent ends cancelled with its subscription deleted, sent, put back until the retry
      time, or failed, as its answer says. */
  lemma {:induction false} AnswerIsHonoured(s: State, c: Claim, a: Answer)
    requires Inv(s) && c.id < |s.deliveries| && s.deliveries[c.id].status == Sending
    ensures Honours(s, Step(s, Record(c, a)), c, a)
  {
    hide Honours, Step, Record, Inv;
    if WasGone(c, a) { GoneHonours(s, c, a); }
    else if WasAccepted(c, a) { AcceptedHonours(s, c, a); }
    else if MayPass(c, a) { RetriedHonours(s, c, a); }
    else { FailedHonours(s, c, a); }
  }

  /** An outcome is refused exactly when it needs a subscription that is gone, or, for a retry, when the
      delivery is not being sent any more. */
  predicate Refuses(s: State, c: Claim, a: Answer)
    requires c.id < |s.deliveries|
  {
    if WasAccepted(c, a) || WasGone(c, a) then s.deliveries[c.id].subscription.None?
    else MayPass(c, a) && s.deliveries[c.id].status != Sending
  }

  lemma {:induction false} RefusedIff(s: State, c: Claim, a: Answer)
    requires c.id < |s.deliveries|
    ensures Recorded(s, Record(c, a)) <==> !Refuses(s, c, a)
  {
  }

  lemma {:induction false} SendingIsRecorded(s: State, c: Claim, a: Answer)
    requires Inv(s) && c.id < |s.deliveries| && s.deliveries[c.id].status == Sending
    ensures Recorded(s, Record(c, a))
  {
    assert GoodDelivery(s, s.deliveries[c.id]);
  }

  method Deliver(repository: PushRepository, c: Claim, a: Answer) returns (ok: bool)
    modifies repository
    ensures ok <==> Recorded(old(repository.View()), Record(c, a))
    ensures c.id < |old(repository.View()).deliveries| ==> (ok <==> !Refuses(old(repository.View()), c, a))
    ensures repository.View() == Step(old(repository.View()), Record(c, a))
    ensures var s := old(repository.View());
      Inv(s) && c.id < |s.deliveries| && s.deliveries[c.id].status == Sending ==> ok && Honours(s, repository.View(), c, a)
  {
    ghost var s := repository.View();
    hide Honours, Inv, Refuses;
    if c.id < |s.deliveries| { RefusedIff(s, c, a); }
    if Inv(s) && c.id < |s.deliveries| && s.deliveries[c.id].status == Sending {
      AnswerIsHonoured(s, c, a);
      SendingIsRecorded(s, c, a);
    }
    match Judge(c, a)
    case Success => ok := repository.MarkPushDeliverySent(c.id);
    case Gone => ok := repository.DisablePushSubscription(c.id);
    case RetryAt(at) => ok := repository.RetryPushDelivery(c.id, at);
    case GiveUp => ok := repository.FailPushDelivery(c.id);
  }

  /** One round, when nothing else touches the outbox meanwhile. */
  method DispatchPending(repository: PushRepository, now: Time, answers: nat -> Answer) returns (errors: nat)
    modifies repository
    ensures repository.View() == Round(old(repository.View()), now, answers)
    ensures errors == Errors(Claimed(old(repository.View()), BATCH, now, LEASE), RoundClaims(old(repository.View()), now), answers)
  {
    hide Claimed, ClaimedIds, ClaimRecords, Step, Record, Recorded;
    errors := 0;
    var claimed := repository.ClaimPushDeliveries(BATCH, now, LEASE);
    var deliveries := claimed.value;
    ghost var all := Errors(repository.View(), deliveries, answers);
    assert deliveries[0..] == deliveries;
    for k := 0 to |deliveries|
      invariant DispatchAll(repository.View(), deliveries[k..], answers) == Round(old(repository.View()), now, answers)
      invariant errors + Errors(repository.View(), deliveries[k..], answers) == all
    {
      var c := deliveries[k];
      assert deliveries[k..][0] == c && deliveries[k..][1..] == deliveries[k + 1..];
      var ok := Deliver(repository, c, answers(c.id));
      if !ok { errors := errors + 1; }
    }
  }

  // ----- The attempt budget -----

  function Left(d: Delivery): int { if d.Active() then MAX_ATTEMPTS - d.attempts else 0 }

  /** The attempts all unfinished deliveries from row i on may still use. */
  function Budget(ds: seq<Delivery>, i: nat): int
    requires i <= |ds|
    decreases |ds| - i
  {
    if i == |ds| then 0 else Left(ds[i]) + Budget(ds, i + 1)
  }

  ghost predicate Bounded(s: State)
  {
    forall d <- s.deliveries :: d.attempts <= MAX_ATTEMPTS && (d.status == Pending ==> d.attempts < MAX_ATTEMPTS)
  }

  ghost predicate NoneSending(s: State)
  {
    forall d <- s.deliveries :: d.status != Sending
  }

  /** Every delivery being sent is still waiting for its outcome in the given claims. */
  ghost predicate SendingWithin(s: State, claims: seq<Claim>)
  {
    forall i :: 0 <= i < |s.deliveries| && s.deliveries[i].status == Sending ==>
      Awaited(claims, i, s.deliveries[i].attempts)
  }

  /** Some claim names the row, and every claim naming it saw the row's attempt count. */
  ghost predicate Awaited(claims: seq<Claim>, id: nat, attempts: nat)
  {
    (exists c <- claims :: c.id == id) && (forall c <- claims :: c.id == id ==> c.attempts == attempts)
  }

  lemma {:induction false} BudgetMonotone(ds: seq<Delivery>, ds': seq<Delivery>, i: nat)
    requires |ds| == |ds'| && i <= |ds|
    requires forall k :: i <= k < |ds| ==> Left(ds'[k]) <= Left(ds[k])
    ensures Budget(ds', i) <= Budget(ds, i)
    decreases |ds| - i
  {
    if i < |ds| { BudgetMonotone(ds, ds', i + 1); }
  }

  lemma {:induction false} BudgetCoversPending(s: State, i: nat, k: nat)
    requires Bounded(s) && i <= k < |s.deliveries|
    ensures Budget(s.deliveries, i) >= Left(s.deliveries[k])
    ensures Budget(s.deliveries, i) >= 0
    decreases |s.deliveries| - i
  {
    var d := s.deliveries[i];
    assert d in s.deliveries;
    if i < k { BudgetCoversPending(s, i + 1, k); } else { BudgetNonNegative(s, i + 1); }
  }

  lemma {:induction false} BudgetNonNegative(s: State, i: nat)
    requires Bounded(s) && i <= |s.deliveries|
    ensures Budget(s.deliveries, i) >= 0
    decreases |s.deliveries| - i
  {
    if i < |s.deliveries| {
      assert s.deliveries[i] in s.deliveries;
      BudgetNonNegative(s, i + 1);
    }
  }

  /** Each claim spends one attempt of the budget. */
  lemma {:induction false} ClaimSpends(s: State, now: Time, limit: nat, until: Time, i: nat, all: seq<nat>)
    requires i <= |s.deliveries|
    requires forall k :: i <= k < |s.deliveries| ==> (k in all <==> k in FirstDue(s, now, limit, i))
    ensures Budget(LeaseAll(s.deliveries, all, until), i) + |FirstDue(s, now, limit, i)| == Budget(s.deliveries, i)
    decreases |s.deliveries| - i
  {
    if i < |s.deliveries| {
      if limit > 0 && IsDue(s, i, now) {
        ClaimSpends(s, now, limit - 1, until, i + 1, all);
      } else {
        ClaimSpends(s, now, limit, until, i + 1, all);
      }
    }
  }

  lemma {:induction false} NothingToRelease(s: State, now: Time)
    requires NoneSending(s)
    ensures AfterRelease(s, now) == s
  {
    forall i | 0 <= i < |s.deliveries|
      ensures Release(s.deliveries[i], now) == s.deliveries[i]
    {
      assert s.deliveries[i] in s.deliveries;
    }
    assert Released(s.deliveries, now) == s.deliveries;
  }

  lemma {:induction false} ClaimFromRest(s: State, now: Time)
    requires Inv(s) && NoneSending(s) && Bounded(s)
    ensures var s' := Claimed(s, BATCH, now, LEASE);
      && Inv(s') && Bounded(s') && SendingWithin(s', RoundClaims(s, now))
      && Budget(s'.deliveries, 0) + |RoundClaims(s, now)| == Budget(s.deliveries, 0)
  {
    ClaimKeeps(s, BATCH, now, LEASE);
    NothingToRelease(s, now);
    var s' := Claimed(s, BATCH, now, LEASE);
    var ids := ClaimedIds(s, BATCH, now);
    var claims := RoundClaims(s, now);
    ClaimSpends(s, now, BATCH, now + LEASE, 0, ids);
    forall i | 0 <= i < |s'.deliveries|
      ensures s'.deliveries[i].attempts <= MAX_ATTEMPTS
      ensures s'.deliveries[i].status == Pending ==> s'.deliveries[i].attempts < MAX_ATTEMPTS
      ensures s'.deliveries[i].status == Sending ==>
        Awaited(claims, i, s'.deliveries[i].attempts)
    {
      assert s.deliveries[i] in s.deliveries;
      if i in ids {
        assert IsDue(s, i, now);
        var k :| 0 <= k < |ids| && ids[k] == i;
        assert claims[k] in claims;
      }
    }
  }

  lemma {:induction false} RecordKeepsRows(s: State, c: Claim, a: Answer)
    requires Inv(s)
    ensures |Step(s, Record(c, a)).deliveries| == |s.deliveries|
  {
  }

  lemma {:induction false} RecordedRow(s: State, c: Claim, a: Answer, rest: seq<Claim>, i: nat)
    requires Inv(s) && Bounded(s) && SendingWithin(s, [c] + rest) && i < |s.deliveries|
    requires |Step(s, Record(c, a)).deliveries| == |s.deliveries|
    ensures var (d, d') := (s.deliveries[i], Step(s, Record(c, a)).deliveries[i]);
      && d'.attempts == d.attempts && Left(d') <= Left(d)
      && (d'.status == Pending ==> d'.attempts < MAX_ATTEMPTS)
      && (d'.status == Sending ==> d.status == Sending && i != c.id)
  {
    assert s.deliveries[i] in s.deliveries;
    assert GoodDelivery(s, s.deliveries[i]);
  }

  /** Recording an outcome ends the delivery's sending state, raises nobody's remaining budget, and
      leaves no delivery pending without an attempt. */
  lemma {:induction false} RecordSettles(s: State, c: Claim, a: Answer, rest: seq<Claim>)
    requires Inv(s) && Bounded(s) && SendingWithin(s, [c] + rest)
    ensures var s' := Step(s, Record(c, a));
      && Inv(s') && Bounded(s') && SendingWithin(s', rest)
      && Budget(s'.deliveries, 0) <= Budget(s.deliveries, 0)
  {
    hide Step, Record, Left, Inv;
    var s' := Step(s, Record(c, a));
    StepKeeps(s, Record(c, a));
    RecordKeepsRows(s, c, a);
    forall i | 0 <= i < |s.deliveries|
      ensures s'.deliveries[i].attempts == s.deliveries[i].attempts
      ensures Left(s'.deliveries[i]) <= Left(s.deliveries[i])
      ensures s'.deliveries[i].status == Pending ==> s'.deliveries[i].attempts < MAX_ATTEMPTS
      ensures s'.deliveries[i].status == Sending ==> s.deliveries[i].status == Sending && i != c.id
    {
      RecordedRow(s, c, a, rest, i);
    }
    BudgetMonotone(s.deliveries, s'.deliveries, 0);
  }

  // ----- Runs of the application, one transaction at a time -----

  /** The outbox and the claimed deliveries whose outcome the dispatcher has yet to record. */
  datatype System = System(store: State, inFlight: seq<Claim>)

  /** Other transactions may come at any time, in the middle of a batch too.  The dispatcher works
      through its batch in order and claims again only after the last outcome. */
  datatype Event =
    | Outside(op: Op)
    | Tick(now: Time)
    | Answered(answer: Answer)

  /** Outside the dispatcher only subscriptions and new notifications touch the outbox. */
  predicate FromOutside(op: Op) { op.Subscribe? || op.Unsubscribe? || op.Enqueue? }

  ghost predicate Allowed(events: seq<Event>)
  {
    forall e <- events :: e.Outside? ==> FromOutside(e.op)
  }

  predicate Claims(s: System, e: Event) { e.Tick? && s.inFlight == [] }

  function Advance(s: System, e: Event): System
  {
    match e
    case Outside(op) => s.(store := Step(s.store, op))
    case Tick(now) => if s.inFlight != [] then s else System(Claimed(s.store, BATCH, now, LEASE), RoundClaims(s.store, now))
    case Answered(a) =>
      if s.inFlight == [] then s else System(Step(s.store, Record(s.inFlight[0], a)), s.inFlight[1..])
  }

  function AdvanceAll(s: System, events: seq<Event>): System
    decreases |events|
  {
    if events == [] then s else AdvanceAll(Advance(s, events[0]), events[1..])
  }

  /** How many deliveries a run claims. */
  function Taken(s: System, events: seq<Event>): nat
    decreases |events|
  {
    if events == [] then 0
    else (if Claims(s, events[0]) then |RoundClaims(s.store, events[0].now)| else 0) + Taken(Advance(s, events[0]), events[1..])
  }

  ghost predicate Sound(s: System)
  {
    Inv(s.store) && Bounded(s.store) && SendingWithin(s.store, s.inFlight)
  }

  lemma {:induction false} BudgetAppends(ds: seq<Delivery>, more: seq<Delivery>, i: nat)
    requires i <= |ds|
    ensures Budget(ds + more, i) == Budget(ds, i) + Budget(more, 0)
    decreases |ds| - i
  {
    if i == |ds| {
      BudgetOfTail(ds, more, 0);
    } else {
      BudgetAppends(ds, more, i + 1);
    }
  }

  lemma {:induction false} BudgetOfTail(ds: seq<Delivery>, more: seq<Delivery>, k: nat)
    requires k <= |more|
    ensures Budget(ds + more, |ds| + k) == Budget(more, k)
    decreases |more| - k
  {
    if k < |more| { BudgetOfTail(ds, more, k + 1); }
  }

  lemma {:induction false} BudgetOfFresh(more: seq<Delivery>, k: nat)
    requires k <= |more| && forall d <- more :: d.status == Pending && d.attempts == 0
    ensures Budget(more, k) == MAX_ATTEMPTS * (|more| - k)
    decreases |more| - k
  {
    if k < |more| {
      assert more[k] in more;
      BudgetOfFresh(more, k + 1);
    }
  }

  /** Other transactions keep every delivery in flight either awaited or cancelled; a new delivery
      brings five attempts. */
  lemma {:induction false} OutsideKeepsBudget(s: State, claims: seq<Claim>, op: Op)
    requires Inv(s) && SendingWithin(s, claims) && Bounded(s) && FromOutside(op)
    ensures var s' := Step(s, op);
      && Inv(s') && SendingWithin(s', claims) && Bounded(s') && |s.deliveries| <= |s'.deliveries|
      && (!op.Enqueue? ==> |s'.deliveries| == |s.deliveries|)
      && Budget(s'.deliveries, 0) <= Budget(s.deliveries, 0) + MAX_ATTEMPTS * (|s'.deliveries| - |s.deliveries|)
  {
    StepKeeps(s, op);
    var s' := Step(s, op);
    if op.Enqueue? {
      var fanout := Fanout(s.subscriptions, |s.notifications|, op.now);
      FanoutShape(s.subscriptions, |s.notifications|, op.now);
      BudgetAppends(s.deliveries, fanout, 0);
      BudgetOfFresh(fanout, 0);
      forall d | d in s'.deliveries
        ensures d.attempts <= MAX_ATTEMPTS && (d.status == Pending ==> d.attempts < MAX_ATTEMPTS)
      {
        assert d in s.deliveries || d in fanout;
      }
    } else {
      UnsubscribeShrinks(s, op);
      BudgetMonotone(s.deliveries, s'.deliveries, 0);
    }
  }

  lemma {:induction false} UnsubscribeShrinks(s: State, op: Op)
    requires Bounded(s) && (op.Subscribe? || op.Unsubscribe?)
    ensures var s' := Step(s, op);
      && |s'.deliveries| == |s.deliveries| && Bounded(s')
      && forall i :: 0 <= i < |s.deliveries| ==>
           && s'.deliveries[i].attempts == s.deliveries[i].attempts
           && Left(s'.deliveries[i]) <= Left(s.deliveries[i])
           && (s'.deliveries[i].status == Sending ==> s.deliveries[i].status == Sending)
  {
    var s' := Step(s, op);
    forall i | 0 <= i < |s.deliveries|
      ensures |s'.deliveries| == |s.deliveries|
      ensures s'.deliveries[i].attempts == s.deliveries[i].attempts
      ensures s'.deliveries[i].status == s.deliveries[i].status || !s'.deliveries[i].Active()
      ensures s.deliveries[i].attempts <= MAX_ATTEMPTS
    {
      assert s.deliveries[i] in s.deliveries;
    }
    forall d | d in s'.deliveries
      ensures d.attempts <= MAX_ATTEMPTS && (d.status == Pending ==> d.attempts < MAX_ATTEMPTS)
    {
      var i :| 0 <= i < |s'.deliveries| && s'.deliveries[i] == d;
      assert s.deliveries[i] in s.deliveries;
    }
  }

  lemma {:induction false} NothingInFlight(s: System)
    requires Sound(s) && s.inFlight == []
    ensures NoneSending(s.store)
  {
    assert forall i: nat, attempts :: !Awaited(s.inFlight, i, attempts);
  }

  /** Each transaction keeps the attempt counts in bounds and pays for the deliveries it claims out
      of the remaining attempts; only a new delivery adds to them, five each. */
  lemma {:induction false} AdvancePays(s: System, e: Event)
    requires Sound(s) && (e.Outside? ==> FromOutside(e.op))
    ensures var s' := Advance(s, e);
      && Sound(s') && |s.store.deliveries| <= |s'.store.deliveries|
      && (!(e.Outside? && e.op.Enqueue?) ==> |s'.store.deliveries| == |s.store.deliveries|)
      && Budget(s'.store.deliveries, 0) + (if Claims(s, e) then |RoundClaims(s.store, e.now)| else 0)
           <= Budget(s.store.deliveries, 0) + MAX_ATTEMPTS * (|s'.store.deliveries| - |s.store.deliveries|)
  {
    hide Inv, Bounded, SendingWithin, Claimed, RoundClaims, Step, Record;
    match e
    case Outside(op) => OutsideKeepsBudget(s.store, s.inFlight, op);
    case Tick(now) =>
      if s.inFlight == [] {
        NothingInFlight(s);
        ClaimFromRest(s.store, now);
        ClaimKeepsRows(s.store, now);
      }
    case Answered(a) =>
      if s.inFlight != [] {
        assert s.inFlight == [s.inFlight[0]] + s.inFlight[1..];
        RecordSettles(s.store, s.inFlight[0], a, s.inFlight[1..]);
        RecordKeepsRows(s.store, s.inFlight[0], a);
      }
  }

  lemma {:induction false} ClaimKeepsRows(s: State, now: Time)
    ensures |Claimed(s, BATCH, now, LEASE).deliveries| == |s.deliveries|
  {
  }

  /** Whatever the push service answers, and whatever happens to subscriptions while a batch is under
      way, no delivery is attempted more than five times; and the run's claims are paid out of the
      attempts left at its start and five for each new delivery. */
  lemma {:induction false} AttemptsNeverExceedFive(s: System, events: seq<Event>)
    requires Sound(s) && Allowed(events)
    ensures var s' := AdvanceAll(s, events);
      && Sound(s') && |s.store.deliveries| <= |s'.store.deliveries|
      && Budget(s'.store.deliveries, 0) + Taken(s, events)
           <= Budget(s.store.deliveries, 0) + MAX_ATTEMPTS * (|s'.store.deliveries| - |s.store.deliveries|)
    decreases |events|
  {
    hide Sound, Advance, Claims;
    if events != [] {
      assert events[0] in events;
      AdvancePays(s, events[0]);
      assert forall e <- events[1..] :: e in events;
      AttemptsNeverExceedFive(Advance(s, events[0]), events[1..]);
    }
  }

  /** From an empty outbox: at most five attempts for each delivery, and five claims for each on
      average however they are interleaved. */
  lemma {:induction false} FiveAttemptsFromEmpty(events: seq<Event>)
    requires Allowed(events)
    ensures var s := AdvanceAll(System(EMPTY, []), events);
      && (forall d <- s.store.deliveries :: d.attempts <= MAX_ATTEMPTS)
      && Taken(System(EMPTY, []), events) <= MAX_ATTEMPTS * |s.store.deliveries|
  {
    AttemptsNeverExceedFive(System(EMPTY, []), events);
    BudgetNonNegative(AdvanceAll(System(EMPTY, []), events).store, 0);
  }

  // ----- A round is such a run -----

  function Answers(claims: seq<Claim>, answers: nat -> Answer): (r: seq<Event>)
    ensures |r| == |claims|
  {
    if claims == [] then [] else [Answered(answers(claims[0].id))] + Answers(claims[1..], answers)
  }

  lemma {:induction false} AnswersDispatch(s: State, claims: seq<Claim>, answers: nat -> Answer)
    ensures AdvanceAll(System(s, claims), Answers(claims, answers)) == System(DispatchAll(s, claims, answers), [])
    ensures Taken(System(s, claims), Answers(claims, answers)) == 0
    ensures Allowed(Answers(claims, answers))
    decreases |claims|
  {
    hide Step, Record;
    if claims != [] {
      AnswersDispatch(Step(s, Record(claims[0], answers(claims[0].id))), claims[1..], answers);
    }
  }

  /** A round that starts with nothing in flight ends that way, keeps every attempt count at most
      five, and pays one unit of the budget for every delivery it claimed. */
  lemma {:induction false} RoundPays(s: State, now: Time, answers: nat -> Answer)
    requires Inv(s) && NoneSending(s) && Bounded(s)
    ensures var s' := Round(s, now, answers);
      && Inv(s') && NoneSending(s') && Bounded(s')
      && Budget(s'.deliveries, 0) + |RoundClaims(s, now)| <= Budget(s.deliveries, 0)
  {
    ClaimFromRest(s, now);
    hide Claimed, RoundClaims, Inv, Bounded, SendingWithin, NoneSending, DispatchAll;
    DispatchPays(Claimed(s, BATCH, now, LEASE), RoundClaims(s, now), answers);
  }

  lemma {:induction false} DispatchPays(s: State, claims: seq<Claim>, answers: nat -> Answer)
    requires Inv(s) && Bounded(s) && SendingWithin(s, claims)
    ensures var s' := DispatchAll(s, claims, answers);
      && Inv(s') && NoneSending(s') && Bounded(s')
      && Budget(s'.deliveries, 0) <= Budget(s.deliveries, 0)
  {
    hide Inv, Bounded, SendingWithin, NoneSending, DispatchAll, AdvanceAll;
    AnswersDispatch(s, claims, answers);
    AllAnswered(claims, answers);
    AnswersPay(System(s, claims), Answers(claims, answers));
    NothingInFlight(System(DispatchAll(s, claims, answers), []));
  }

  lemma {:induction false} AllAnswered(claims: seq<Claim>, answers: nat -> Answer)
    ensures forall e <- Answers(claims, answers) :: e.Answered?
  {
    if claims != [] { AllAnswered(claims[1..], answers); }
  }

  lemma {:induction false} AnswersPay(s: System, events: seq<Event>)
    requires Sound(s) && forall e <- events :: e.Answered?
    ensures Sound(AdvanceAll(s, events)) && Budget(AdvanceAll(s, events).store.deliveries, 0) <= Budget(s.store.deliveries, 0)
    decreases |events|
  {
    hide Sound, Advance;
    if events != [] {
      assert events[0] in events;
      AdvancePays(s, events[0]);
      assert forall e <- events[1..] :: e in events;
      AnswersPay(Advance(s, events[0]), events[1..]);
    }
  }

  // ----- Draining -----

  ghost predicate AnyUnfinished(s: State)
  {
    exists d <- s.deliveries :: d.Active()
  }

  ghost predicate AnyDue(s: State, now: Time)
  {
    exists i :: 0 <= i < |s.deliveries| && IsDue(s, i, now)
  }

  /** Nothing new is announced. */
  ghost predicate NothingNew(events: seq<Event>)
  {
    forall e <- events :: !(e.Outside? && e.op.Enqueue?)
  }

  /** A claim takes something whenever some delivery is due. */
  lemma {:induction false} DueIsClaimed(s: State, now: Time, limit: nat, i: nat, k: nat)
    requires i <= k < |s.deliveries| && IsDue(s, k, now) && limit > 0
    ensures FirstDue(s, now, limit, i) != []
    decreases k - i
  {
    if i < k && !IsDue(s, i, now) { DueIsClaimed(s, now, limit, i + 1, k); }
  }

  lemma {:induction false} WorkIsTaken(s: State, now: Time)
    requires NoneSending(s) && AnyDue(s, now)
    ensures RoundClaims(s, now) != []
  {
    hide IsDue, FirstDue;
    NothingToRelease(s, now);
    var i :| 0 <= i < |s.deliveries| && IsDue(s, i, now);
    DueIsClaimed(s, now, BATCH, 0, i);
  }

  lemma {:induction false} FinishedHasNoBudget(s: State, i: nat)
    requires !AnyUnfinished(s) && i <= |s.deliveries|
    ensures Budget(s.deliveries, i) == 0
    decreases |s.deliveries| - i
  {
    if i < |s.deliveries| {
      assert s.deliveries[i] in s.deliveries;
      FinishedHasNoBudget(s, i + 1);
    }
  }

  lemma {:induction false} SoundBudget(s: System)
    requires Sound(s)
    ensures Budget(s.store.deliveries, 0) >= 0
  {
    BudgetNonNegative(s.store, 0);
  }

  lemma {:induction false} SpentIsFinished(s: System)
    requires Sound(s) && s.inFlight == [] && Budget(s.store.deliveries, 0) <= 0
    ensures !AnyUnfinished(s.store)
  {
    NothingInFlight(s);
    if AnyUnfinished(s.store) {
      var k :| 0 <= k < |s.store.deliveries| && s.store.deliveries[k].Active();
      assert s.store.deliveries[k] in s.store.deliveries;
      BudgetCoversPending(s.store, 0, k);
    }
  }

  /** The tick claims something. */
  predicate Works(s: System, e: Event) { Claims(s, e) && RoundClaims(s.store, e.now) != [] }

  function WorkingTicks(s: System, events: seq<Event>): nat
    decreases |events|
  {
    if events == [] then 0
    else (if Works(s, events[0]) then 1 else 0) + WorkingTicks(Advance(s, events[0]), events[1..])
  }

  lemma {:induction false} WorkIsPaid(s: System, events: seq<Event>)
    requires Sound(s) && Allowed(events) && NothingNew(events)
    ensures Sound(AdvanceAll(s, events))
    ensures Budget(AdvanceAll(s, events).store.deliveries, 0) + WorkingTicks(s, events) <= Budget(s.store.deliveries, 0)
    decreases |events|
  {
    hide Sound, Advance, Budget, RoundClaims;
    if events != [] {
      assert events[0] in events;
      AdvancePays(s, events[0]);
      assert forall e <- events[1..] :: e in events;
      WorkIsPaid(Advance(s, events[0]), events[1..]);
    }
  }

  /** The outbox drains.  However many ticks find nothing due, whatever is answered and whoever
      unsubscribes, every tick that claims something uses up one of the attempts left at the start; after
      that many, with every outcome recorded, no delivery is pending or being sent. */
  lemma {:induction false} RoundsDrain(s: System, events: seq<Event>)
    requires Sound(s) && Allowed(events) && NothingNew(events)
    requires AdvanceAll(s, events).inFlight == []
    ensures WorkingTicks(s, events) <= Budget(s.store.deliveries, 0)
    ensures WorkingTicks(s, events) == Budget(s.store.deliveries, 0) ==> !AnyUnfinished(AdvanceAll(s, events).store)
  {
    hide Advance, Budget;
    WorkIsPaid(s, events);
    SoundBudget(AdvanceAll(s, events));
    if WorkingTicks(s, events) == Budget(s.store.deliveries, 0) { SpentIsFinished(AdvanceAll(s, events)); }
  }

  // ----- When ticks find work -----

  ghost predicate RetriesBy(s: State, latest: Time)
  {
    forall d <- s.deliveries :: d.nextAttempt.Some? ==> d.nextAttempt.value <= latest
  }

  /** Later, by the second, than a given time. */
  predicate Late(latest: Time, now: Time)
  {
    TimeText.InRange(now) && TimeText.Second(latest) < TimeText.Second(now)
  }

  lemma {:induction false} LateIsDue(s: System, latest: Time, now: Time)
    requires Sound(s) && s.inFlight == [] && RetriesBy(s.store, latest)
    requires Late(latest, now)
    ensures AnyUnfinished(s.store) ==> AnyDue(s.store, now)
  {
    if AnyUnfinished(s.store) {
      NothingInFlight(s);
      var i :| 0 <= i < |s.store.deliveries| && s.store.deliveries[i].Active();
      var d := s.store.deliveries[i];
      assert d in s.store.deliveries && GoodDelivery(s.store, d);
      if d.nextAttempt.Some? {
        TimeText.EarlierSecondFirst(d.nextAttempt.value, now);
      }
      assert IsDue(s.store, i, now);
    }
  }

  /** The latest retry time after an event. */
  function Latest(s: System, latest: Time, e: Event): Time
  {
    if !e.Answered? || s.inFlight == [] then latest
    else
      var verdict := Judge(s.inFlight[0], e.answer);
      if verdict.RetryAt? && verdict.at > latest then verdict.at else latest
  }

  lemma {:induction false} RetriesStayBy(s: System, e: Event, latest: Time)
    requires Sound(s) && RetriesBy(s.store, latest) && (e.Outside? ==> FromOutside(e.op))
    ensures RetriesBy(Advance(s, e).store, Latest(s, latest, e))
  {
    match e
    case Outside(op) => OutsideSetsNoRetry(s.store, op, latest);
    case Tick(now) => ClaimSetsNoRetry(s.store, now, latest);
    case Answered(a) => if s.inFlight != [] { RecordSetsRetryBy(s.store, s.inFlight[0], a, latest); }
  }

  lemma {:induction false} OutsideSetsNoRetry(s: State, op: Op, latest: Time)
    requires RetriesBy(s, latest) && FromOutside(op)
    ensures RetriesBy(Step(s, op), latest)
  {
    if op.Enqueue? {
      FanoutFresh(s.subscriptions, |s.notifications|, op.now);
    } else {
      UnchangedRetries(s, Step(s, op), latest);
    }
  }

  lemma {:induction false} ClaimSetsNoRetry(s: State, now: Time, latest: Time)
    requires RetriesBy(s, latest)
    ensures RetriesBy(Claimed(s, BATCH, now, LEASE), latest)
  {
    UnchangedRetries(s, Claimed(s, BATCH, now, LEASE), latest);
  }

  lemma {:induction false} UnchangedRetries(s: State, s': State, latest: Time)
    requires RetriesBy(s, latest) && |s'.deliveries| == |s.deliveries|
    requires forall i :: 0 <= i < |s.deliveries| ==> s'.deliveries[i].nextAttempt == s.deliveries[i].nextAttempt
    ensures RetriesBy(s', latest)
  {
    forall d | d in s'.deliveries
      ensures d.nextAttempt.Some? ==> d.nextAttempt.value <= latest
    {
      var i :| 0 <= i < |s'.deliveries| && s'.deliveries[i] == d;
      assert s.deliveries[i] in s.deliveries;
    }
  }

  lemma {:induction false} RecordSetsRetryBy(s: State, c: Claim, a: Answer, latest: Time)
    requires RetriesBy(s, latest)
    ensures RetriesBy(Step(s, Record(c, a)), if Judge(c, a).RetryAt? && Judge(c, a).at > latest then Judge(c, a).at else latest)
  {
    if !(Judge(c, a).RetryAt? && c.id < |s.deliveries|) {
      UnchangedRetries(s, Step(s, Record(c, a)), latest);
    }
  }

  lemma {:induction false} FanoutFresh(subscriptions: seq<Option<Subscription>>, notification: nat, now: Time)
    ensures forall d <- Fanout(subscriptions, notification, now) :: d.nextAttempt.None?
  {
    if subscriptions != [] { FanoutFresh(subscriptions[..|subscriptions| - 1], notification, now); }
  }

  function LatestOf(s: System, latest: Time, events: seq<Event>): Time
    decreases |events|
  {
    if events == [] then latest else LatestOf(Advance(s, events[0]), Latest(s, latest, events[0]), events[1..])
  }

  lemma {:induction false} RunRetriesBy(s: System, events: seq<Event>, latest: Time)
    requires Sound(s) && Allowed(events) && RetriesBy(s.store, latest)
    ensures Sound(AdvanceAll(s, events)) && RetriesBy(AdvanceAll(s, events).store, LatestOf(s, latest, events))
    decreases |events|
  {
    hide Sound, Advance, RetriesBy, Latest;
    if events != [] {
      var e := events[0];
      assert e in events;
      AdvancePays(s, e);
      RetriesStayBy(s, e, latest);
      assert forall e <- events[1..] :: e in events;
      RunRetriesBy(Advance(s, e), events[1..], Latest(s, latest, e));
    }
  }

  lemma {:induction false} LateWorksIff(s: System, latest: Time, now: Time)
    requires Sound(s) && s.inFlight == [] && RetriesBy(s.store, latest) && Late(latest, now)
    ensures Works(s, Tick(now)) <==> AnyUnfinished(s.store)
  {
    hide RoundClaims, Budget;
    NothingInFlight(s);
    LateIsDue(s, latest, now);
    if AnyUnfinished(s.store) {
      WorkIsTaken(s.store, now);
    } else {
      FinishedHasNoBudget(s.store, 0);
      AdvancePays(s, Tick(now));
      SoundBudget(Advance(s, Tick(now)));
    }
  }

  /** After any run, new notifications included, a tick that comes, by the second, after every retry
      time claims nothing exactly when nothing is pending or being sent. */
  lemma {:induction false} LateTickWorksIff(s: System, events: seq<Event>, latest: Time, now: Time)
    requires Sound(s) && Allowed(events) && RetriesBy(s.store, latest)
    requires AdvanceAll(s, events).inFlight == [] && Late(LatestOf(s, latest, events), now)
    ensures Works(AdvanceAll(s, events), Tick(now)) <==> AnyUnfinished(AdvanceAll(s, events).store)
  {
    RunRetriesBy(s, events, latest);
    LateWorksIff(AdvanceAll(s, events), LatestOf(s, latest, events), now);
  }

  predicate IsLate(s: System, latest: Time, e: Event) { Claims(s, e) && Late(latest, e.now) }

  /** How many ticks of a run come after every retry time recorded before them. */
  function LateTicks(s: System, latest: Time, events: seq<Event>): nat
    decreases |events|
  {
    if events == [] then 0
    else (if IsLate(s, latest, events[0]) then 1 else 0)
         + LateTicks(Advance(s, events[0]), Latest(s, latest, events[0]), events[1..])
  }

  function Max(a: int, b: int): int { if a <= b then b else a }

  /** A late tick lowers the budget unless it is already nothing; no event raises it. */
  lemma {:induction false} LateTickPays(s: System, e: Event, latest: Time)
    requires Sound(s) && RetriesBy(s.store, latest) && (e.Outside? ==> FromOutside(e.op) && !e.op.Enqueue?)
    ensures Sound(Advance(s, e))
    ensures Budget(Advance(s, e).store.deliveries, 0)
      <= Max(0, Budget(s.store.deliveries, 0) - if IsLate(s, latest, e) then 1 else 0)
  {
    hide Sound, Advance, AnyUnfinished, Budget, RoundClaims, RetriesBy, Late;
    AdvancePays(s, e);
    SoundBudget(s);
    if IsLate(s, latest, e) && !Works(s, e) {
      LateWorksIff(s, latest, e.now);
      FinishedHasNoBudget(s.store, 0);
    }
  }

  lemma {:induction false} LateTicksPay(s: System, events: seq<Event>, latest: Time)
    requires Sound(s) && Allowed(events) && NothingNew(events) && RetriesBy(s.store, latest)
    ensures Sound(AdvanceAll(s, events))
    ensures Budget(AdvanceAll(s, events).store.deliveries, 0) <= Max(0, Budget(s.store.deliveries, 0) - LateTicks(s, latest, events))
    decreases |events|
  {
    hide Sound, Advance, Budget, RetriesBy, Latest, IsLate;
    if events != [] {
      var e := events[0];
      assert e in events;
      assert forall e <- events[1..] :: e in events;
      LateTickPays(s, e, latest);
      RetriesStayBy(s, e, latest);
      LateTicksPay(Advance(s, e), events[1..], Latest(s, latest, e));
    }
  }

  /** The outbox drains with time: as many late ticks as there were attempts left, with any other ticks
      and transactions in between, leave nothing pending or being sent. */
  lemma {:induction false} LateTicksDrain(s: System, events: seq<Event>, latest: Time)
    requires Sound(s) && Allowed(events) && NothingNew(events) && RetriesBy(s.store, latest)
    requires LateTicks(s, latest, events) >= Budget(s.store.deliveries, 0)
    requires AdvanceAll(s, events).inFlight == []
    ensures !AnyUnfinished(AdvanceAll(s, events).store)
  {
    hide Advance, Budget, Sound;
    LateTicksPay(s, events, latest);
    SpentIsFinished(AdvanceAll(s, events));
  }

  // ----- Every day -----

  /** Retry times are at most a day after the last answer. */
  lemma {:induction false} LatestWithinDay(s: System, latest: Time, events: seq<Event>, answered: Time)
    requires latest <= answered + DAY && forall e <- events :: e.Answered? ==> e.answer.answeredAt <= answered
    ensures LatestOf(s, latest, events) <= answered + DAY
    decreases |events|
  {
    hide Advance;
    if events != [] {
      assert events[0] in events;
      assert forall e <- events[1..] :: e in events;
      LatestWithinDay(Advance(s, events[0]), Latest(s, latest, events[0]), events[1..], answered);
    }
  }

  /** As long as no tick claims anything, nothing is answered. */
  lemma {:induction false} IdleStaysAtRest(s: System, events: seq<Event>, latest: Time, k: nat)
    requires s.inFlight == [] && WorkingTicks(s, events) == 0 && k < |events|
    ensures AdvanceAll(s, events[..k]).inFlight == [] && LatestOf(s, latest, events[..k]) == latest
    ensures !Works(AdvanceAll(s, events[..k]), events[k])
    decreases k
  {
    if k > 0 {
      var next := Advance(s, events[0]);
      IdleKeepsRest(s, events[0]);
      hide Advance, Works;
      IdleStaysAtRest(next, events[1..], latest, k - 1);
      assert events[..k][1..] == events[1..][..k - 1];
    }
  }

  lemma {:induction false} IdleKeepsRest(s: System, e: Event)
    requires s.inFlight == [] && !Works(s, e)
    ensures Advance(s, e).inFlight == []
  {
  }

  /** Every day the dispatcher claims something or finds the outbox finished: once all outcomes are
      recorded, if it then claims nothing up to and including a tick more than a day after the last
      answer, nothing is pending or being sent at that tick. */
  lemma {:induction false} EachDayClaimsOrIsFinished(before: seq<Event>, day: seq<Event>, answered: Time, k: nat)
    requires Allowed(before) && Allowed(day)
    requires forall e <- before :: e.Answered? ==> e.answer.answeredAt <= answered
    requires var s := AdvanceAll(System(EMPTY, []), before);
      s.inFlight == [] && WorkingTicks(s, day) == 0
    requires k < |day| && day[k].Tick? && Late(answered + DAY, day[k].now)
    ensures !AnyUnfinished(AdvanceAll(AdvanceAll(System(EMPTY, []), before), day[..k]).store)
  {
    var empty := System(EMPTY, []);
    var s := AdvanceAll(empty, before);
    var latest := LatestOf(empty, 0, before);
    assert Sound(empty) && RetriesBy(empty.store, 0);
    hide Sound, Advance, AdvanceAll, RetriesBy, Works, Latest, LatestOf, AnyUnfinished;
    RunRetriesBy(empty, before, 0);
    LatestWithinDay(empty, 0, before, answered);
    IdleStaysAtRest(s, day, latest, k);
    assert forall e <- day[..k] :: e in day;
    LateTickWorksIff(s, day[..k], latest, day[k].now);
  }

  // ----- The limit is the dispatcher's, not the store's -----

  /** A claim keeps every count at most five exactly when it takes no delivery that has used five. */
  lemma {:induction false} ClaimKeepsLimitIff(s: State, limit: nat, now: Time, lease: nat)
    requires forall d <- s.deliveries :: d.attempts <= MAX_ATTEMPTS
    ensures (forall d <- Claimed(s, limit, now, lease).deliveries :: d.attempts <= MAX_ATTEMPTS) <==>
      forall id <- ClaimedIds(s, limit, now) :: s.deliveries[id].attempts < MAX_ATTEMPTS
  {
    var s', ids := Claimed(s, limit, now, lease), ClaimedIds(s, limit, now);
    forall i | 0 <= i < |s.deliveries|
      ensures s'.deliveries[i].attempts == s.deliveries[i].attempts + if i in ids then 1 else 0
      ensures s.deliveries[i] in s.deliveries && s'.deliveries[i] in s'.deliveries
    {
    }
  }

  /** One subscriber and one notification, then claims 46 seconds apart, each one second after the
      lease of the one before ran out, and no outcome ever recorded. */
  function Unanswered(claims: nat): (ops: seq<Op>)
    ensures |ops| == claims + 2
  {
    if claims == 0 then [Subscribe("https://push.example", None), Enqueue(0)]
    else Unanswered(claims - 1) + [ClaimBatch(BATCH, ClaimTime(claims - 1), LEASE)]
  }

  function ClaimTime(k: nat): Time { k * (LEASE + TimeText.SECOND) }

  function LostOutbox(claims: nat): State
  {
    State([if claims == 0 then Delivery(0, Some(0), Pending, 0, None, None)
           else Delivery(0, Some(0), Sending, claims, None, Some(ClaimTime(claims - 1) + LEASE))],
          [Waiting], [Some(Subscription("https://push.example", None))])
  }

  lemma {:induction false} RunAppends(s: State, ops: seq<Op>, op: Op)
    ensures Run(s, ops + [op]) == Step(Run(s, ops), op)
    decreases |ops|
  {
    hide Step;
    if ops == [] {
      assert Run(s, [op]) == Run(Step(s, op), []);
    } else {
      assert (ops + [op])[1..] == ops[1..] + [op];
      RunAppends(Step(s, ops[0]), ops[1..], op);
    }
  }

  lemma {:induction false} LostLease(k: nat)
    requires k > 0 && TimeText.InRange(ClaimTime(k))
    ensures TimeText.StoredAtOrBefore(ClaimTime(k - 1) + LEASE, ClaimTime(k))
  {
    assert ClaimTime(k) == ClaimTime(k - 1) + LEASE + TimeText.SECOND;
    TimeText.EarlierSecondFirst(ClaimTime(k - 1) + LEASE, ClaimTime(k));
  }

  lemma {:induction false} LostRelease(k: nat)
    requires TimeText.InRange(ClaimTime(k))
    ensures Released(LostOutbox(k).deliveries, ClaimTime(k)) == [Delivery(0, Some(0), Pending, k, None, None)]
  {
    hide TimeText.StoredAtOrBefore, TimeText.InRange, ClaimTime;
    if k > 0 { LostLease(k); }
  }

  lemma {:induction false} LostDue(s: State, k: nat, now: Time)
    requires s.deliveries == [Delivery(0, Some(0), Pending, k, None, None)] && Live(s, 0)
    ensures FirstDue(s, now, BATCH, 0) == [0]
  {
    assert IsDue(s, 0, now);
    assert FirstDue(s, now, BATCH - 1, 1) == [];
  }

  lemma {:induction false} LostClaim(k: nat)
    requires TimeText.InRange(ClaimTime(k))
    ensures Step(LostOutbox(k), ClaimBatch(BATCH, ClaimTime(k), LEASE)) == LostOutbox(k + 1)
  {
    var s, now := LostOutbox(k), ClaimTime(k);
    hide ClaimTime, TimeText.InRange, TimeText.StoredAtOrBefore, Released, FirstDue;
    LostRelease(k);
    LostDue(AfterRelease(s, now), k, now);
    assert ClaimedIds(s, BATCH, now) == [0];
    assert 0 in [0];
    assert LeaseAll([Delivery(0, Some(0), Pending, k, None, None)], [0], now + LEASE) == LostOutbox(k + 1).deliveries;
  }

  lemma {:induction false} LostStart()
    ensures Run(EMPTY, Unanswered(0)) == LostOutbox(0)
  {
    var subscribe, enqueue := Subscribe("https://push.example", None), Enqueue(0);
    assert Unanswered(0) == [subscribe] + [enqueue];
    var s := Step(EMPTY, subscribe);
    assert Run(EMPTY, [subscribe]) == s by { RunAppends(EMPTY, [], subscribe); }
    RunAppends(EMPTY, [subscribe], enqueue);
    assert Fanout(s.subscriptions, 0, 0) == Fanout([], 0, 0) + [Delivery(0, Some(0), Pending, 0, None, None)];
  }

  /** Nothing in the store stops at five: without recorded outcomes the attempts grow with every
      claim. */
  lemma {:induction false} LostOutcomesAreReclaimed(claims: nat)
    requires TimeText.InRange(ClaimTime(claims))
    ensures Run(EMPTY, Unanswered(claims)) == LostOutbox(claims)
  {
    hide Step, LostOutbox, ClaimTime, TimeText.InRange;
    if claims == 0 {
      LostStart();
    } else {
      ClaimTimesGrow(claims - 1);
      TimeText.EarlierInRange(ClaimTime(claims - 1), ClaimTime(claims));
      LostOutcomesAreReclaimed(claims - 1);
      LostClaim(claims - 1);
      RunAppends(EMPTY, Unanswered(claims - 1), ClaimBatch(BATCH, ClaimTime(claims - 1), LEASE));
    }
  }

  lemma {:induction false} ClaimTimesGrow(k: nat)
    ensures ClaimTime(k) <= ClaimTime(k + 1)
  {
  }

  /** The sixth claim in under four minutes is a sixth attempt. */
  lemma {:induction false} SixthAttempt()
    ensures |Run(EMPTY, Unanswered(6)).deliveries| == 1 && Run(EMPTY, Unanswered(6)).deliveries[0].attempts == 6
  {
    assert ClaimTime(6) == 276 * TimeText.SECOND;
    assert TimeText.Second(ClaimTime(6)) / TimeText.DAY_SECONDS == 0;
    LostOutcomesAreReclaimed(6);
  }
}
