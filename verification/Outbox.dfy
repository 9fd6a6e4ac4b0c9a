/** The push outbox: notification fan-out, delivery leases and retries, and the aggregate status of a
    notification (internal/store/sqlite.go).

    Tables are sequences indexed by row id, since SQLite hands out ids in order and no row of
    notifications or notification_deliveries is deleted; a deleted subscription leaves None. */
module Outbox {
  import opened Wrappers
  import opened TimeText

  type Time = nat

  datatype Status = Pending | Sending | Sent | Failed | Cancelled

  datatype Delivery = Delivery(notification: nat, subscription: Option<nat>, status: Status, attempts: nat,
                               nextAttempt: Option<Time>, lease: Option<Time>)
  {
    predicate Active() { status == Pending || status == Sending }
  }

  datatype Subscription = Subscription(endpoint: string, expiration: Option<Time>)

  datatype NotificationStatus = Waiting | Delivered | Undelivered | Unaddressed

  datatype State = State(deliveries: seq<Delivery>, notifications: seq<NotificationStatus>,
                         subscriptions: seq<Option<Subscription>>)

  const EMPTY := State([], [], [])
  const MAX_ENDPOINT := 4096
  const MAX_KEY := 256
  const MAX_SECRET := 128

  /** What the dispatcher learns about a delivery it has claimed. */
  datatype Claim = Claim(id: nat, attempts: nat, expiration: Option<Time>)

  predicate Live(s: State, subscription: nat)
  {
    subscription < |s.subscriptions| && s.subscriptions[subscription].Some?
  }

  // ----- The transitions -----

  function Subscribed(s: State, endpoint: string, expiration: Option<Time>): State
  {
    var row := Subscription(endpoint, expiration);
    match FindEndpoint(s.subscriptions, endpoint)
    case Some(id) => s.(subscriptions := s.subscriptions[id := Some(row)])
    case None => s.(subscriptions := s.subscriptions + [Some(row)])
  }

  function FindEndpoint(subscriptions: seq<Option<Subscription>>, endpoint: string): (r: Option<nat>)
    ensures r.Some? ==> r.value < |subscriptions| && subscriptions[r.value].Some?
                        && subscriptions[r.value].value.endpoint == endpoint
  {
    if subscriptions == [] then None
    else
      var last := |subscriptions| - 1;
      if subscriptions[last].Some? && subscriptions[last].value.endpoint == endpoint then Some(last)
      else FindEndpoint(subscriptions[..last], endpoint)
  }

  /** One pending delivery for every subscription that has not expired by now. */
  function Fanout(subscriptions: seq<Option<Subscription>>, notification: nat, now: Time): seq<Delivery>
  {
    if subscriptions == [] then []
    else
      var last := |subscriptions| - 1;
      Fanout(subscriptions[..last], notification, now) +
      if subscriptions[last].Some?
         && (subscriptions[last].value.expiration.None?
             || !StoredAtOrBefore(subscriptions[last].value.expiration.value, now))
      then [Delivery(notification, Some(last), Pending, 0, None, None)]
      else []
  }

  function Enqueued(s: State, now: Time): State
  {
    var fanout := Fanout(s.subscriptions, |s.notifications|, now);
    s.(deliveries := s.deliveries + fanout,
       notifications := s.notifications + [if fanout == [] then Unaddressed else Waiting])
  }

  function Release(d: Delivery, now: Time): Delivery
  {
    if d.status == Sending && d.lease.Some? && StoredAtOrBefore(d.lease.value, now)
    then d.(status := Pending, lease := None)
    else d
  }

  function Released(ds: seq<Delivery>, now: Time): (r: seq<Delivery>)
    ensures |r| == |ds|
  {
    seq(|ds|, i requires 0 <= i < |ds| => Release(ds[i], now))
  }

  predicate IsDue(s: State, id: nat, now: Time)
    requires id < |s.deliveries|
  {
    var d := s.deliveries[id];
    && d.status == Pending
    && (d.nextAttempt.None? || StoredAtOrBefore(d.nextAttempt.value, now))
    && d.subscription.Some? && Live(s, d.subscription.value)
  }

  /** The first due deliveries from row i on, in row order. */
  function FirstDue(s: State, now: Time, limit: nat, i: nat): (ids: seq<nat>)
    requires i <= |s.deliveries|
    ensures |ids| <= limit
    ensures forall k :: 0 <= k < |ids| ==> i <= ids[k] < |s.deliveries| && IsDue(s, ids[k], now)
    ensures forall j, k :: 0 <= j < k < |ids| ==> ids[j] < ids[k]
    decreases |s.deliveries| - i
  {
    if limit == 0 || i == |s.deliveries| then []
    else if IsDue(s, i, now) then [i] + FirstDue(s, now, limit - 1, i + 1)
    else FirstDue(s, now, limit, i + 1)
  }

  lemma {:induction false} FirstDueStep(s: State, now: Time, limit: nat, i: nat, due: seq<nat>)
    requires i < |s.deliveries| && |due| <= limit
    requires due + FirstDue(s, now, limit - |due|, i) == FirstDue(s, now, limit, 0)
    ensures var next := if |due| < limit && IsDue(s, i, now) then due + [i] else due;
      next + FirstDue(s, now, limit - |next|, i + 1) == FirstDue(s, now, limit, 0)
  {
    hide IsDue;
    if |due| < limit && IsDue(s, i, now) {
      var rest := FirstDue(s, now, limit - |due| - 1, i + 1);
      assert due + ([i] + rest) == due + [i] + rest;
    }
  }

  lemma {:induction false} FirstDueEnds(s: State, now: Time, limit: nat)
    ensures FirstDue(s, now, limit, |s.deliveries|) == []
  {
  }

  function Lease(d: Delivery, until: Time): Delivery
  {
    d.(status := Sending, attempts := d.attempts + 1, lease := Some(until))
  }

  function AfterRelease(s: State, now: Time): State { s.(deliveries := Released(s.deliveries, now)) }

  function ClaimedIds(s: State, limit: nat, now: Time): (ids: seq<nat>)
    ensures forall k :: 0 <= k < |ids| ==> ids[k] < |s.deliveries|
  {
    FirstDue(AfterRelease(s, now), now, limit, 0)
  }

  function LeaseAll(ds: seq<Delivery>, ids: seq<nat>, until: Time): (r: seq<Delivery>)
    ensures |r| == |ds|
  {
    seq(|ds|, i requires 0 <= i < |ds| => if i in ids then Lease(ds[i], until) else ds[i])
  }

  function Claimed(s: State, limit: nat, now: Time, lease: nat): State
  {
    s.(deliveries := LeaseAll(Released(s.deliveries, now), ClaimedIds(s, limit, now), now + lease))
  }

  predicate AnyActive(ds: seq<Delivery>, n: nat)
  {
    exists d <- ds :: d.notification == n && d.Active()
  }

  predicate AnySent(ds: seq<Delivery>, n: nat)
  {
    exists d <- ds :: d.notification == n && d.status == Sent
  }

  function Aggregated(ds: seq<Delivery>, n: nat, before: NotificationStatus): NotificationStatus
  {
    if AnyActive(ds, n) then before else if AnySent(ds, n) then Delivered else Undelivered
  }

  function Reaggregated(s: State, affected: set<nat>): State
  {
    s.(notifications := seq(|s.notifications|, n requires 0 <= n < |s.notifications| =>
      if n in affected then Aggregated(s.deliveries, n, s.notifications[n]) else s.notifications[n]))
  }

  function Finish(s: State, id: nat, status: Status): State
    requires id < |s.deliveries|
  {
    var d := s.deliveries[id];
    var updated := if d.status == Sending then d.(status := status, lease := None) else d;
    Reaggregated(s.(deliveries := s.deliveries[id := updated]), {d.notification})
  }

  /** Recording a success reads the subscription first, so it fails on an orphaned delivery. */
  function MarkedSent(s: State, id: nat): Result<State, ()>
  {
    if id < |s.deliveries| && s.deliveries[id].subscription.Some? then Ok(Finish(s, id, Sent)) else Err(())
  }

  function MarkedFailed(s: State, id: nat): Result<State, ()>
  {
    if id < |s.deliveries| then Ok(Finish(s, id, Failed)) else Err(())
  }

  function Retried(s: State, id: nat, at: Time): Result<State, ()>
  {
    if id < |s.deliveries| && s.deliveries[id].status == Sending
    then Ok(s.(deliveries := s.deliveries[id := s.deliveries[id].(status := Pending, nextAttempt := Some(at), lease := None)]))
    else Err(())
  }

  function Drop(d: Delivery, subscription: nat): Delivery
  {
    if d.subscription != Some(subscription) then d
    else if d.Active() then d.(status := Cancelled, lease := None, subscription := None)
    else d.(subscription := None)
  }

  function Affected(ds: seq<Delivery>, subscription: nat): set<nat>
  {
    set d <- ds | d.subscription == Some(subscription) && d.Active() :: d.notification
  }

  function DropAll(ds: seq<Delivery>, subscription: nat): seq<Delivery>
  {
    seq(|ds|, i requires 0 <= i < |ds| => Drop(ds[i], subscription))
  }

  /** Cancels a subscription's unfinished deliveries, deletes it, and settles their notifications. */
  function Dropped(s: State, subscription: nat): State
    requires Live(s, subscription)
  {
    Reaggregated(s.(deliveries := DropAll(s.deliveries, subscription),
                    subscriptions := s.subscriptions[subscription := None]),
                 Affected(s.deliveries, subscription))
  }

  function Disabled(s: State, id: nat): Result<State, ()>
  {
    if id < |s.deliveries| && s.deliveries[id].subscription.Some?
    then
      var subscription := s.deliveries[id].subscription.value;
      Ok(if Live(s, subscription) then Dropped(s, subscription) else s)
    else Err(())
  }

  function Unsubscribed(s: State, endpoint: string): State
  {
    match FindEndpoint(s.subscriptions, endpoint)
    case Some(id) => Dropped(s, id)
    case None => s
  }

  // ----- Runs -----

  datatype Op =
    | Subscribe(endpoint: string, expiration: Option<Time>)
    | Unsubscribe(endpoint: string)
    | Enqueue(now: Time)
    | ClaimBatch(limit: nat, now: Time, lease: nat)
    | RecordSent(id: nat)
    | RecordRetry(id: nat, at: Time)
    | RecordFailure(id: nat)
    | Disable(id: nat)

  function OrUnchanged(s: State, r: Result<State, ()>): State
  {
    if r.Ok? then r.value else s
  }

  function Step(s: State, op: Op): State
  {
    match op
    case Subscribe(endpoint, expiration) => Subscribed(s, endpoint, expiration)
    case Unsubscribe(endpoint) => Unsubscribed(s, endpoint)
    case Enqueue(now) => Enqueued(s, now)
    case ClaimBatch(limit, now, lease) => Claimed(s, limit, now, lease)
    case RecordSent(id) => OrUnchanged(s, MarkedSent(s, id))
    case RecordRetry(id, at) => OrUnchanged(s, Retried(s, id, at))
    case RecordFailure(id) => OrUnchanged(s, MarkedFailed(s, id))
    case Disable(id) => OrUnchanged(s, Disabled(s, id))
  }

  function Run(s: State, ops: seq<Op>): State
    decreases |ops|
  {
    if ops == [] then s else Run(Step(s, ops[0]), ops[1..])
  }

  // ----- The invariant -----

  predicate Addressed(ds: seq<Delivery>, n: nat)
  {
    exists d <- ds :: d.notification == n
  }

  /** What a notification's status must be, read off its deliveries alone. */
  function Summary(ds: seq<Delivery>, n: nat): NotificationStatus
  {
    if !Addressed(ds, n) then Unaddressed
    else if AnyActive(ds, n) then Waiting
    else if AnySent(ds, n) then Delivered
    else Undelivered
  }

  ghost predicate GoodDelivery(s: State, d: Delivery)
  {
    && d.notification < |s.notifications|
    && (d.lease.Some? <==> d.status == Sending)
    && (d.Active() ==> d.subscription.Some?)
    && (d.subscription.Some? ==> Live(s, d.subscription.value))
  }

  ghost predicate Inv(s: State)
  {
    && (forall i :: 0 <= i < |s.deliveries| ==> GoodDelivery(s, s.deliveries[i]))
    && (forall n :: 0 <= n < |s.notifications| ==> s.notifications[n] == Summary(s.deliveries, n))
  }

  /** How a delivery may evolve: a finished one keeps everything but its link to a deleted
      subscription. */
  ghost predicate Evolves(before: Delivery, after: Delivery)
  {
    && after.notification == before.notification
    && (!before.Active() ==> after == before || after == before.(subscription := None))
  }

  ghost predicate KeepsFinished(s: State, s': State)
  {
    && |s.deliveries| <= |s'.deliveries|
    && |s.notifications| <= |s'.notifications|
    && forall i :: 0 <= i < |s.deliveries| ==> Evolves(s.deliveries[i], s'.deliveries[i])
  }

  /** A change that touches one row, or rows of a known kind, keeps a notification's summary when
      it keeps, for that notification, which rows are active and which are sent. */
  lemma {:induction false} SummaryUnchanged(ds: seq<Delivery>, ds': seq<Delivery>, n: nat)
    requires |ds| == |ds'|
    requires forall i :: 0 <= i < |ds| ==> ds'[i].notification == ds[i].notification
    requires forall i :: 0 <= i < |ds| && ds[i].notification == n ==>
      ds'[i].Active() == ds[i].Active() && (ds'[i].status == Sent) == (ds[i].status == Sent)
    ensures Summary(ds', n) == Summary(ds, n)
  {
    assert forall i :: 0 <= i < |ds| ==> ds'[i] in ds' && ds[i] in ds;
    assert Addressed(ds', n) == Addressed(ds, n);
    assert AnyActive(ds', n) == AnyActive(ds, n);
    assert AnySent(ds', n) == AnySent(ds, n);
  }

  lemma {:induction false} FanoutShape(subscriptions: seq<Option<Subscription>>, notification: nat, now: Time)
    ensures forall d <- Fanout(subscriptions, notification, now) ::
      && d.notification == notification && d.status == Pending && d.lease.None? && d.attempts == 0
      && d.subscription.Some? && d.subscription.value < |subscriptions| && subscriptions[d.subscription.value].Some?
  {
    if subscriptions != [] { FanoutShape(subscriptions[..|subscriptions| - 1], notification, now); }
  }

  lemma {:induction false} SubscribeKeeps(s: State, endpoint: string, expiration: Option<Time>)
    requires Inv(s)
    ensures Inv(Subscribed(s, endpoint, expiration)) && KeepsFinished(s, Subscribed(s, endpoint, expiration))
  {
  }

  lemma {:induction false} EnqueueKeeps(s: State, now: Time)
    requires Inv(s)
    ensures Inv(Enqueued(s, now)) && KeepsFinished(s, Enqueued(s, now))
  {
    var s' := Enqueued(s, now);
    var n := |s.notifications|;
    var fanout := Fanout(s.subscriptions, n, now);
    FanoutShape(s.subscriptions, n, now);
    forall m | 0 <= m < |s'.notifications|
      ensures s'.notifications[m] == Summary(s'.deliveries, m)
    {
      assert forall d :: d in s'.deliveries <==> d in s.deliveries || d in fanout;
      if m < n {
        assert Summary(s'.deliveries, m) == Summary(s.deliveries, m);
      } else if fanout != [] {
        assert fanout[0] in s'.deliveries;
      }
    }
  }

  lemma {:induction false} ClaimedRow(s: State, limit: nat, now: Time, lease: nat, i: nat)
    requires Inv(s) && i < |s.deliveries|
    ensures var (s', d) := (Claimed(s, limit, now, lease), s.deliveries[i]);
      var d' := s'.deliveries[i];
      && d'.notification == d.notification && d'.Active() == d.Active() && (d'.status == Sent) == (d.status == Sent)
      && GoodDelivery(s', d') && (!d.Active() ==> d' == d)
  {
    hide StoredAtOrBefore;
    assert GoodDelivery(s, s.deliveries[i]);
    if i in ClaimedIds(s, limit, now) { assert IsDue(AfterRelease(s, now), i, now); }
  }

  lemma {:induction false} ClaimKeeps(s: State, limit: nat, now: Time, lease: nat)
    requires Inv(s)
    ensures Inv(Claimed(s, limit, now, lease)) && KeepsFinished(s, Claimed(s, limit, now, lease))
  {
    var s' := Claimed(s, limit, now, lease);
    forall i | 0 <= i < |s.deliveries|
      ensures s'.deliveries[i].notification == s.deliveries[i].notification
      ensures s'.deliveries[i].Active() == s.deliveries[i].Active()
      ensures (s'.deliveries[i].status == Sent) == (s.deliveries[i].status == Sent)
      ensures GoodDelivery(s', s'.deliveries[i]) && (!s.deliveries[i].Active() ==> s'.deliveries[i] == s.deliveries[i])
    {
      ClaimedRow(s, limit, now, lease, i);
    }
    hide Claimed, GoodDelivery;
    forall n | 0 <= n < |s.notifications|
      ensures s'.notifications[n] == Summary(s'.deliveries, n)
    {
      SummaryUnchanged(s.deliveries, s'.deliveries, n);
    }
  }

  /** Settling the notifications of exactly the rows that stopped being active restores the
      invariant. */
  lemma {:induction false} ReaggregateRestores(s: State, mid: State, affected: set<nat>)
    requires Inv(s)
    requires mid.notifications == s.notifications && |mid.deliveries| == |s.deliveries|
    requires forall i :: 0 <= i < |s.deliveries| ==> GoodDelivery(mid, mid.deliveries[i])
    requires forall i :: 0 <= i < |s.deliveries| ==> Evolves(s.deliveries[i], mid.deliveries[i])
    requires forall i :: 0 <= i < |s.deliveries| && s.deliveries[i].notification !in affected ==>
      mid.deliveries[i].Active() == s.deliveries[i].Active()
      && (mid.deliveries[i].status == Sent) == (s.deliveries[i].status == Sent)
    requires forall i :: 0 <= i < |s.deliveries| && mid.deliveries[i].Active() ==> s.deliveries[i].Active()
    requires forall n <- affected :: Addressed(s.deliveries, n)
    ensures Inv(Reaggregated(mid, affected)) && KeepsFinished(s, Reaggregated(mid, affected))
  {
    var s' := Reaggregated(mid, affected);
    forall i | 0 <= i < |s'.deliveries|
      ensures GoodDelivery(s', s'.deliveries[i])
    {
      assert GoodDelivery(mid, mid.deliveries[i]);
    }
    forall n | 0 <= n < |s'.notifications|
      ensures s'.notifications[n] == Summary(s'.deliveries, n)
    {
      if n in affected {
        assert Addressed(s.deliveries, n);
        var i :| 0 <= i < |s.deliveries| && s.deliveries[i].notification == n;
        assert mid.deliveries[i] in mid.deliveries;
        if AnyActive(mid.deliveries, n) {
          var j :| 0 <= j < |mid.deliveries| && mid.deliveries[j].notification == n && mid.deliveries[j].Active();
          assert s.deliveries[j] in s.deliveries;
        }
      } else {
        SummaryUnchanged(s.deliveries, mid.deliveries, n);
      }
    }
  }

  lemma {:induction false} FinishKeeps(s: State, id: nat, status: Status)
    requires Inv(s) && id < |s.deliveries| && (status == Sent || status == Failed)
    ensures Inv(Finish(s, id, status)) && KeepsFinished(s, Finish(s, id, status))
  {
    var d := s.deliveries[id];
    var updated := if d.status == Sending then d.(status := status, lease := None) else d;
    assert d in s.deliveries;
    ReaggregateRestores(s, s.(deliveries := s.deliveries[id := updated]), {d.notification});
  }

  lemma {:induction false} RetryKeeps(s: State, id: nat, at: Time)
    requires Inv(s) && Retried(s, id, at).Ok?
    ensures Inv(Retried(s, id, at).value) && KeepsFinished(s, Retried(s, id, at).value)
  {
    var s' := Retried(s, id, at).value;
    forall n | 0 <= n < |s.notifications|
      ensures s'.notifications[n] == Summary(s'.deliveries, n)
    {
      SummaryUnchanged(s.deliveries, s'.deliveries, n);
    }
  }

  lemma {:induction false} DropKeeps(s: State, subscription: nat)
    requires Inv(s) && Live(s, subscription)
    ensures Inv(Dropped(s, subscription)) && KeepsFinished(s, Dropped(s, subscription))
  {
    var ds := DropAll(s.deliveries, subscription);
    var mid := s.(deliveries := ds, subscriptions := s.subscriptions[subscription := None]);
    forall i | 0 <= i < |ds|
      ensures GoodDelivery(mid, ds[i])
    {
      assert GoodDelivery(s, s.deliveries[i]);
    }
    ReaggregateRestores(s, mid, Affected(s.deliveries, subscription));
  }

  lemma {:induction false} StepKeeps(s: State, op: Op)
    requires Inv(s)
    ensures Inv(Step(s, op)) && KeepsFinished(s, Step(s, op))
  {
    match op
    case Subscribe(endpoint, expiration) => SubscribeKeeps(s, endpoint, expiration);
    case Unsubscribe(endpoint) =>
      var found := FindEndpoint(s.subscriptions, endpoint);
      if found.Some? { DropKeeps(s, found.value); }
    case Enqueue(now) => EnqueueKeeps(s, now);
    case ClaimBatch(limit, now, lease) => ClaimKeeps(s, limit, now, lease);
    case RecordSent(id) => if MarkedSent(s, id).Ok? { FinishKeeps(s, id, Sent); }
    case RecordRetry(id, at) => if Retried(s, id, at).Ok? { RetryKeeps(s, id, at); }
    case RecordFailure(id) => if MarkedFailed(s, id).Ok? { FinishKeeps(s, id, Failed); }
    case Disable(id) => if Disabled(s, id).Ok? { DropKeeps(s, s.deliveries[id].subscription.value); }
  }

  /** Over every run: leases mark exactly the deliveries being sent, every notification carries the
      aggregate of its deliveries, and finished deliveries stay as they are. */
  lemma {:induction false} RunKeeps(s: State, ops: seq<Op>)
    requires Inv(s)
    ensures Inv(Run(s, ops)) && KeepsFinished(s, Run(s, ops))
    decreases |ops|
  {
    if ops != [] {
      StepKeeps(s, ops[0]);
      RunKeeps(Step(s, ops[0]), ops[1..]);
    }
  }

  lemma {:induction false} EveryReachableStateIsConsistent(ops: seq<Op>)
    ensures Inv(Run(EMPTY, ops))
  {
    RunKeeps(EMPTY, ops);
  }

  // ----- Leases exclude a second claim -----

  function ClaimsOf(s: State, op: Op): seq<nat>
  {
    if op.ClaimBatch? then ClaimedIds(s, op.limit, op.now) else []
  }

  /** A lease whose end lies in a later second than the clock is not released. */
  lemma {:induction false} LeaseHolds(end: Time, now: Time)
    requires InRange(end) && Second(now) < Second(end)
    ensures !StoredAtOrBefore(end, now)
  {
    EarlierSecondFirst(now, end);
  }

  /** The delivery is still under the given lease, or finished. */
  predicate Held(s: State, id: nat, end: Time)
  {
    id < |s.deliveries| && (s.deliveries[id].Active() ==> s.deliveries[id].status == Sending && s.deliveries[id].lease == Some(end))
  }

  ghost predicate BeforeEnd(op: Op, end: Time)
  {
    op.ClaimBatch? ==> Second(op.now) < Second(end)
  }

  lemma {:induction false} HeldStep(s: State, op: Op, id: nat, end: Time)
    requires Inv(s) && InRange(end) && Held(s, id, end) && BeforeEnd(op, end)
    requires !(op.RecordRetry? && op.id == id)
    ensures Held(Step(s, op), id, end) && id !in ClaimsOf(s, op)
  {
    hide StoredAtOrBefore, InRange, Second;
    if op.ClaimBatch? { ClaimLeavesHeld(s, op.limit, op.now, op.lease, id, end); }
  }

  lemma {:induction false} ClaimLeavesHeld(s: State, limit: nat, now: Time, lease: nat, id: nat, end: Time)
    requires InRange(end) && Held(s, id, end) && Second(now) < Second(end)
    ensures Held(Claimed(s, limit, now, lease), id, end) && id !in ClaimedIds(s, limit, now)
  {
    LeaseHolds(end, now);
    hide StoredAtOrBefore, InRange, Second;
    assert !IsDue(AfterRelease(s, now), id, now);
  }

  lemma {:induction false} HeldRun(s: State, ops: seq<Op>, id: nat, end: Time)
    requires Inv(s) && InRange(end) && Held(s, id, end)
    requires forall op <- ops :: BeforeEnd(op, end)
    requires forall op <- ops :: !(op.RecordRetry? && op.id == id)
    ensures Held(Run(s, ops), id, end) && Inv(Run(s, ops))
    decreases |ops|
  {
    if ops != [] {
      assert ops[0] in ops;
      HeldStep(s, ops[0], id, end);
      StepKeeps(s, ops[0]);
      assert forall op <- ops[1..] :: op in ops;
      HeldRun(Step(s, ops[0]), ops[1..], id, end);
    }
  }

  lemma {:induction false} NoClaimWhileHeld(s: State, between: seq<Op>, second: Op, id: nat, end: Time)
    requires Inv(s) && InRange(end) && Held(s, id, end) && BeforeEnd(second, end) && !second.RecordRetry?
    requires forall op <- between :: BeforeEnd(op, end)
    requires forall op <- between :: !(op.RecordRetry? && op.id == id)
    ensures id !in ClaimsOf(Run(s, between), second)
  {
    HeldRun(s, between, id, end);
    HeldStep(Run(s, between), second, id, end);
  }

  /** A delivery claimed again before the second in which its first lease ends was put back by a
      recorded retry, provided the claims in between were made before that second as well. */
  lemma {:induction false} SecondClaimNeedsRetry(s: State, first: Op, between: seq<Op>, second: Op, id: nat)
    requires Inv(s) && first.ClaimBatch? && second.ClaimBatch?
    requires id in ClaimsOf(s, first) && id in ClaimsOf(Run(Step(s, first), between), second)
    requires InRange(first.now + first.lease) && BeforeEnd(second, first.now + first.lease)
    requires forall op <- between :: BeforeEnd(op, first.now + first.lease)
    ensures exists op <- between :: op.RecordRetry? && op.id == id
  {
    hide Step, ClaimsOf, Held, Inv, BeforeEnd, InRange, Run;
    var end := first.now + first.lease;
    StepKeeps(s, first);
    ClaimHolds(s, first, id);
    if forall op <- between :: !(op.RecordRetry? && op.id == id) {
      NoClaimWhileHeld(Step(s, first), between, second, id, end);
      assert false;
    }
  }

  lemma {:induction false} ClaimHolds(s: State, claim: Op, id: nat)
    requires claim.ClaimBatch? && id in ClaimsOf(s, claim)
    ensures Held(Step(s, claim), id, claim.now + claim.lease)
  {
    hide StoredAtOrBefore, IsDue;
  }

  // ----- The repository -----

  /** What the dispatcher is told about the claimed rows. */
  function ClaimRecords(s: State, ids: seq<nat>): (r: seq<Claim>)
    requires forall k :: 0 <= k < |ids| ==> ids[k] < |s.deliveries|
    ensures |r| == |ids|
  {
    seq(|ids|, k requires 0 <= k < |ids| => Claim(ids[k], s.deliveries[ids[k]].attempts, ExpirationOf(s, ids[k])))
  }

  function ExpirationOf(s: State, id: nat): Option<Time>
    requires id < |s.deliveries|
  {
    var subscription := s.deliveries[id].subscription;
    if subscription.Some? && Live(s, subscription.value) then s.subscriptions[subscription.value].value.expiration else None
  }

  lemma {:induction false} ReaggregatedOneMore(mid: State, settled: set<nat>, n: nat)
    ensures Reaggregated(Reaggregated(mid, settled), {n}) == Reaggregated(mid, settled + {n})
  {
    var a, b := Reaggregated(Reaggregated(mid, settled), {n}), Reaggregated(mid, settled + {n});
    assert a.notifications == b.notifications;
  }

  /** The push tables; every method is one SQLite transaction. */
  class PushRepository {
    var deliveries: seq<Delivery>
    var notifications: seq<NotificationStatus>
    var subscriptions: seq<Option<Subscription>>

    function View(): State
      reads this
    {
      State(deliveries, notifications, subscriptions)
    }

    constructor ()
      ensures View() == EMPTY
    {
      deliveries, notifications, subscriptions := [], [], [];
    }

    /** Refuses a blank or overlong endpoint or key; says whether the endpoint is new. */
    method UpsertPushSubscription(endpoint: string, p256dh: string, auth: string, expiration: Option<Time>)
      returns (r: Result<bool, ()>)
      modifies this
      ensures r.Ok? <==> 1 <= |endpoint| <= MAX_ENDPOINT && 1 <= |p256dh| <= MAX_KEY && 1 <= |auth| <= MAX_SECRET
      ensures r.Err? ==> View() == old(View())
      ensures r.Ok? ==> View() == Subscribed(old(View()), endpoint, expiration)
      ensures r.Ok? ==> r.value == FindEndpoint(old(subscriptions), endpoint).None?
    {
      if endpoint == "" || p256dh == "" || auth == "" { return Err(()); }
      if |endpoint| > MAX_ENDPOINT || |p256dh| > MAX_KEY || |auth| > MAX_SECRET { return Err(()); }
      var found := FindEndpoint(subscriptions, endpoint);
      if found.Some? {
        subscriptions := subscriptions[found.value := Some(Subscription(endpoint, expiration))];
      } else {
        subscriptions := subscriptions + [Some(Subscription(endpoint, expiration))];
      }
      r := Ok(found.None?);
    }

    method EnqueueNotification(now: Time) returns (id: nat)
      modifies this
      ensures View() == Enqueued(old(View()), now) && id == |old(notifications)|
    {
      id := |notifications|;
      notifications := notifications + [Waiting];
      var fanout := Fanout(subscriptions, id, now);
      deliveries := deliveries + fanout;
      if |fanout| == 0 {
        notifications := notifications[id := Unaddressed];
      }
    }

    method ClaimPushDeliveries(limit: int, now: Time, lease: int) returns (r: Result<seq<Claim>, ()>)
      modifies this
      ensures r.Err? <==> limit < 1 || limit > 100 || lease <= 0
      ensures r.Err? ==> View() == old(View())
      ensures r.Ok? ==> View() == Claimed(old(View()), limit, now, lease)
      ensures r.Ok? ==> r.value == ClaimRecords(View(), ClaimedIds(old(View()), limit, now))
    {
      if limit < 1 || limit > 100 || lease <= 0 { return Err(()); }
      ReleaseExpired(now);
      var due := CollectDue(limit, now);
      var claimed := LeaseRows(due, now, lease);
      r := Ok(claimed);
    }

    method ReleaseExpired(now: Time)
      modifies this`deliveries
      ensures View() == AfterRelease(old(View()), now)
    {
      ghost var before := deliveries;
      for i := 0 to |deliveries|
        invariant |deliveries| == |before|
        invariant forall k :: 0 <= k < |deliveries| ==>
          deliveries[k] == if k < i then Release(before[k], now) else before[k]
      {
        deliveries := deliveries[i := Release(deliveries[i], now)];
      }
      assert deliveries == Released(before, now);
    }

    method CollectDue(limit: nat, now: Time) returns (due: seq<nat>)
      ensures due == FirstDue(View(), now, limit, 0)
    {
      hide FirstDue, IsDue;
      due := [];
      ghost var s := View();
      for i := 0 to |deliveries|
        invariant |due| <= limit
        invariant due + FirstDue(s, now, limit - |due|, i) == FirstDue(s, now, limit, 0)
      {
        FirstDueStep(s, now, limit, i, due);
        if |due| < limit && IsDue(View(), i, now) {
          due := due + [i];
        }
      }
      FirstDueEnds(s, now, limit - |due|);
    }

    /** Takes each collected row that is still pending; within the transaction all of them are. */
    method LeaseRows(due: seq<nat>, now: Time, lease: nat) returns (claimed: seq<Claim>)
      requires forall k :: 0 <= k < |due| ==> due[k] < |deliveries| && deliveries[due[k]].status == Pending
      requires forall j, k :: 0 <= j < k < |due| ==> due[j] < due[k]
      modifies this`deliveries
      ensures View() == old(View()).(deliveries := LeaseAll(old(deliveries), due, now + lease))
      ensures claimed == ClaimRecords(View(), due)
    {
      ghost var before := deliveries;
      claimed := [];
      for k := 0 to |due|
        invariant |deliveries| == |before| && |claimed| == k
        invariant forall i :: 0 <= i < |before| ==>
          deliveries[i] == if i in due[..k] then Lease(before[i], now + lease) else before[i]
        invariant forall j :: 0 <= j < k ==> claimed[j] == Claim(due[j], deliveries[due[j]].attempts, ExpirationOf(View(), due[j]))
      {
        var id := due[k];
        assert id !in due[..k];
        assert due[..k + 1] == due[..k] + [id];
        if deliveries[id].status == Pending {
          deliveries := deliveries[id := Lease(deliveries[id], now + lease)];
          claimed := claimed + [Claim(id, deliveries[id].attempts, ExpirationOf(View(), id))];
        }
      }
      assert due[..|due|] == due;
      assert deliveries == LeaseAll(before, due, now + lease);
    }

    method MarkPushDeliverySent(id: nat) returns (ok: bool)
      modifies this
      ensures ok <==> MarkedSent(old(View()), id).Ok?
      ensures View() == OrUnchanged(old(View()), MarkedSent(old(View()), id))
    {
      ok := id < |deliveries| && deliveries[id].subscription.Some?;
      if ok {
        if deliveries[id].status == Sending {
          deliveries := deliveries[id := deliveries[id].(status := Sent, lease := None)];
        } else {
          assert deliveries == deliveries[id := deliveries[id]];
        }
        UpdateNotification(deliveries[id].notification);
      }
    }

    method FailPushDelivery(id: nat) returns (ok: bool)
      modifies this
      ensures ok <==> MarkedFailed(old(View()), id).Ok?
      ensures View() == OrUnchanged(old(View()), MarkedFailed(old(View()), id))
    {
      ok := id < |deliveries|;
      if ok {
        if deliveries[id].status == Sending {
          deliveries := deliveries[id := deliveries[id].(status := Failed, lease := None)];
        } else {
          assert deliveries == deliveries[id := deliveries[id]];
        }
        UpdateNotification(deliveries[id].notification);
      }
    }

    method RetryPushDelivery(id: nat, at: Time) returns (ok: bool)
      modifies this
      ensures ok <==> Retried(old(View()), id, at).Ok?
      ensures View() == OrUnchanged(old(View()), Retried(old(View()), id, at))
    {
      ok := id < |deliveries| && deliveries[id].status == Sending;
      if ok {
        deliveries := deliveries[id := deliveries[id].(status := Pending, nextAttempt := Some(at), lease := None)];
      }
    }

    method DisablePushSubscription(id: nat) returns (ok: bool)
      modifies this
      ensures ok <==> Disabled(old(View()), id).Ok?
      ensures View() == OrUnchanged(old(View()), Disabled(old(View()), id))
    {
      ok := id < |deliveries| && deliveries[id].subscription.Some?;
      if ok && Live(View(), deliveries[id].subscription.value) {
        DropSubscription(deliveries[id].subscription.value);
      }
    }

    method DeletePushSubscription(endpoint: string) returns (ok: bool)
      modifies this
      ensures ok <==> endpoint != ""
      ensures View() == if ok then Unsubscribed(old(View()), endpoint) else old(View())
    {
      ok := endpoint != "";
      if ok {
        var found := FindEndpoint(subscriptions, endpoint);
        if found.Some? {
          DropSubscription(found.value);
        }
      }
    }

    method DropSubscription(subscription: nat)
      requires Live(View(), subscription)
      modifies this
      ensures View() == Dropped(old(View()), subscription)
    {
      var affected := CancelRows(subscription);
      subscriptions := subscriptions[subscription := None];
      ghost var mid := View();
      ghost var all := affected;
      while affected != {}
        invariant affected <= all
        invariant View() == Reaggregated(mid, all - affected)
        decreases |affected|
      {
        var n :| n in affected;
        ghost var settled := all - affected;
        UpdateNotification(n);
        affected := affected - {n};
        ReaggregatedOneMore(mid, settled, n);
        assert all - affected == settled + {n};
      }
      assert all - affected == all;
    }

    method CancelRows(subscription: nat) returns (affected: set<nat>)
      modifies this`deliveries
      ensures deliveries == DropAll(old(deliveries), subscription)
      ensures affected == Affected(old(deliveries), subscription)
    {
      ghost var before := deliveries;
      affected := {};
      for i := 0 to |deliveries|
        invariant |deliveries| == |before|
        invariant forall k :: 0 <= k < |deliveries| ==>
          deliveries[k] == if k < i then Drop(before[k], subscription) else before[k]
        invariant affected == Affected(before[..i], subscription)
      {
        assert before[..i + 1] == before[..i] + [before[i]];
        if deliveries[i].subscription == Some(subscription) && deliveries[i].Active() {
          affected := affected + {deliveries[i].notification};
        }
        deliveries := deliveries[i := Drop(deliveries[i], subscription)];
      }
      assert before[..|before|] == before;
      assert deliveries == DropAll(before, subscription);
    }

    method UpdateNotification(n: nat)
      modifies this`notifications
      ensures View() == Reaggregated(old(View()), {n})
    {
      if n < |notifications| && !AnyActive(deliveries, n) {
        notifications := notifications[n := if AnySent(deliveries, n) then Delivered else Undelivered];
      }
    }
  }
}
