/** The life of one delivery and of one subscription through the outbox's transactions, row by row
    (internal/store/sqlite.go). */
module Deliveries {
  import opened Wrappers
  import opened TimeText
  import opened Outbox

  // ----- Which deliveries a claim takes -----

  predicate TextPassed(at: Option<Time>, now: Time) { at.Some? && StoredAtOrBefore(at.value, now) }

  /** Being sent under a lease that has run out. */
  predicate Lapsed(d: Delivery, now: Time) { d.status == Sending && TextPassed(d.lease, now) }

  /** Waiting, not before the time of its retry, for a subscriber that is still there. */
  predicate Claimable(s: State, id: nat, now: Time)
    requires id < |s.deliveries|
  {
    var d := s.deliveries[id];
    && (d.status == Pending || Lapsed(d, now))
    && (d.nextAttempt.None? || TextPassed(d.nextAttempt, now))
    && d.subscription.Some? && d.subscription.value < |s.subscriptions| && s.subscriptions[d.subscription.value].Some?
  }

  /** How many claimable deliveries stand from row i up to row id. */
  function Ahead(s: State, i: nat, id: nat, now: Time): nat
    requires i <= id <= |s.deliveries|
    decreases id - i
  {
    if i == id then 0 else (if Claimable(s, i, now) then 1 else 0) + Ahead(s, i + 1, id, now)
  }

  lemma {:induction false} DueIffClaimable(s: State, id: nat, now: Time)
    requires id < |s.deliveries|
    ensures IsDue(AfterRelease(s, now), id, now) <==> Claimable(s, id, now)
  {
    hide StoredAtOrBefore;
  }

  lemma {:induction false} FirstDueIff(s: State, now: Time, limit: nat, i: nat, id: nat)
    requires i <= id < |s.deliveries|
    ensures id in FirstDue(AfterRelease(s, now), now, limit, i) <==> Claimable(s, id, now) && Ahead(s, i, id, now) < limit
    decreases id - i
  {
    hide Claimable, IsDue;
    DueIffClaimable(s, i, now);
    var due, s' := IsDue(AfterRelease(s, now), i, now), AfterRelease(s, now);
    if i == id {
      if limit > 0 && due { assert FirstDue(s', now, limit, i) == [i] + FirstDue(s', now, limit - 1, i + 1); }
    } else if limit > 0 {
      if due {
        FirstDueIff(s, now, limit - 1, i + 1, id);
        assert FirstDue(s', now, limit, i) == [i] + FirstDue(s', now, limit - 1, i + 1);
      } else {
        FirstDueIff(s, now, limit, i + 1, id);
      }
    }
  }

  /** A claim takes a delivery exactly when it is claimable and fewer claimable ones than the limit stand
      before it. */
  lemma {:induction false} ClaimTakesIff(s: State, limit: nat, now: Time, id: nat)
    requires id < |s.deliveries|
    ensures id in ClaimedIds(s, limit, now) <==> Claimable(s, id, now) && Ahead(s, 0, id, now) < limit
  {
    FirstDueIff(s, now, limit, 0, id);
  }

  /** No delivery is taken in a second before that of its retry. */
  lemma {:induction false} ClaimWaitsForRetry(s: State, limit: nat, now: Time, id: nat)
    requires id in ClaimedIds(s, limit, now)
    requires s.deliveries[id].nextAttempt.Some? && InRange(s.deliveries[id].nextAttempt.value)
    ensures Second(s.deliveries[id].nextAttempt.value) <= Second(now)
  {
    hide StoredAtOrBefore, InRange, Second;
    ClaimTakesIff(s, limit, now, id);
    if Second(now) < Second(s.deliveries[id].nextAttempt.value) { EarlierSecondFirst(now, s.deliveries[id].nextAttempt.value); }
  }

  /** A pending delivery that is left out has a later retry time, or no subscriber, or stands behind a
      full batch. */
  lemma {:induction false} LeftOutForAReason(s: State, limit: nat, now: Time, id: nat)
    requires id < |s.deliveries| && s.deliveries[id].status == Pending && id !in ClaimedIds(s, limit, now)
    requires InRange(now)
    ensures var d := s.deliveries[id];
      || (d.nextAttempt.Some? && Second(now) <= Second(d.nextAttempt.value))
      || d.subscription.None? || !Live(s, d.subscription.value)
      || Ahead(s, 0, id, now) >= limit
  {
    hide StoredAtOrBefore, InRange, Second;
    ClaimTakesIff(s, limit, now, id);
    var d := s.deliveries[id];
    if d.nextAttempt.Some? && Second(d.nextAttempt.value) < Second(now) { EarlierSecondFirst(d.nextAttempt.value, now); }
  }

  /** The dispatcher is told the row's new attempt count and when its subscription expires. */
  lemma {:induction false} ClaimsTellRows(s: State, ids: seq<nat>, k: nat)
    requires forall j :: 0 <= j < |ids| ==> ids[j] < |s.deliveries|
    requires k < |ids|
    ensures var (c, d) := (ClaimRecords(s, ids)[k], s.deliveries[ids[k]]);
      && c.id == ids[k] && c.attempts == d.attempts
      && (d.subscription.Some? && Live(s, d.subscription.value) ==>
            c.expiration == s.subscriptions[d.subscription.value].value.expiration)
  {
  }

  // ----- Endpoints -----

  /** Some subscription has the endpoint and this expiry. */
  ghost predicate Has(s: State, endpoint: string, expiration: Option<Time>)
  {
    exists i :: 0 <= i < |s.subscriptions| && s.subscriptions[i] == Some(Subscription(endpoint, expiration))
  }

  ghost predicate OneEach(s: State)
  {
    forall i, j :: 0 <= i < j < |s.subscriptions| && s.subscriptions[i].Some? && s.subscriptions[j].Some? ==>
      s.subscriptions[i].value.endpoint != s.subscriptions[j].value.endpoint
  }

  lemma {:induction false} Found(subscriptions: seq<Option<Subscription>>, endpoint: string, i: nat)
    requires i < |subscriptions| && subscriptions[i].Some? && subscriptions[i].value.endpoint == endpoint
    ensures FindEndpoint(subscriptions, endpoint).Some?
  {
    var last := |subscriptions| - 1;
    if i < last { Found(subscriptions[..last], endpoint, i); }
  }

  lemma {:induction false} FoundOnly(s: State, endpoint: string, i: nat)
    requires OneEach(s) && i < |s.subscriptions| && s.subscriptions[i].Some? && s.subscriptions[i].value.endpoint == endpoint
    ensures FindEndpoint(s.subscriptions, endpoint) == Some(i)
  {
    Found(s.subscriptions, endpoint, i);
  }

  // ----- One row through one transaction -----

  /** The transaction deletes the subscription of the row. */
  predicate Drops(s: State, op: Op, d: Delivery)
  {
    && d.subscription.Some? && Live(s, d.subscription.value)
    && match op
       case Unsubscribe(endpoint) => s.subscriptions[d.subscription.value].value.endpoint == endpoint
       case Disable(k) => k < |s.deliveries| && s.deliveries[k].subscription == d.subscription
       case _ => false
  }

  /** The row before a transaction made into the row after it. */
  function Turned(s: State, op: Op, id: nat): Delivery
    requires id < |s.deliveries|
  {
    var d := s.deliveries[id];
    match op
    case ClaimBatch(limit, now, lease) =>
      if Claimable(s, id, now) && Ahead(s, 0, id, now) < limit
      then Delivery(d.notification, d.subscription, Sending, d.attempts + 1, d.nextAttempt, Some(now + lease))
      else if Lapsed(d, now) then Delivery(d.notification, d.subscription, Pending, d.attempts, d.nextAttempt, None)
      else d
    case RecordSent(k) =>
      if k == id && d.status == Sending && d.subscription.Some?
      then Delivery(d.notification, d.subscription, Sent, d.attempts, d.nextAttempt, None) else d
    case RecordFailure(k) =>
      if k == id && d.status == Sending
      then Delivery(d.notification, d.subscription, Failed, d.attempts, d.nextAttempt, None) else d
    case RecordRetry(k, at) =>
      if k == id && d.status == Sending
      then Delivery(d.notification, d.subscription, Pending, d.attempts, Some(at), None) else d
    case _ =>
      if !Drops(s, op, d) then d
      else if d.status == Pending || d.status == Sending
      then Delivery(d.notification, None, Cancelled, d.attempts, d.nextAttempt, None)
      else Delivery(d.notification, None, d.status, d.attempts, d.nextAttempt, d.lease)
  }

  lemma {:induction false} ClaimTurns(s: State, op: Op, id: nat)
    requires id < |s.deliveries| && op.ClaimBatch?
    ensures Step(s, op).deliveries[id] == Turned(s, op, id)
  {
    hide StoredAtOrBefore, Claimable, Ahead, ClaimedIds;
    ClaimTakesIff(s, op.limit, op.now, id);
    TakenWasWaiting(s, op.limit, op.now, id);
  }

  lemma {:induction false} TakenWasWaiting(s: State, limit: nat, now: Time, id: nat)
    requires id < |s.deliveries|
    ensures Claimable(s, id, now) ==> s.deliveries[id].status == Pending || Lapsed(s.deliveries[id], now)
  {
  }

  lemma {:induction false} DropTurns(s: State, op: Op, id: nat)
    requires Inv(s) && OneEach(s) && id < |s.deliveries| && (op.Unsubscribe? || op.Disable?)
    ensures |Step(s, op).deliveries| == |s.deliveries| && Step(s, op).deliveries[id] == Turned(s, op, id)
  {
    var d := s.deliveries[id];
    assert GoodDelivery(s, d);
    if op.Unsubscribe? && Drops(s, op, d) { FoundOnly(s, op.endpoint, d.subscription.value); }
    if op.Disable? && op.id < |s.deliveries| { assert GoodDelivery(s, s.deliveries[op.id]); }
  }

  /** Every transaction turns every row as described, adds rows only when something is enqueued, and
      removes none. */
  lemma {:induction false} StepTurns(s: State, op: Op, id: nat)
    requires Inv(s) && OneEach(s) && id < |s.deliveries|
    ensures |s.deliveries| <= |Step(s, op).deliveries| && (!op.Enqueue? ==> |Step(s, op).deliveries| == |s.deliveries|)
    ensures Step(s, op).deliveries[id] == Turned(s, op, id)
  {
    hide StoredAtOrBefore, Inv, OneEach;
    match op
    case ClaimBatch(limit, now, lease) => ClaimTurns(s, op, id);
    case Unsubscribe(endpoint) => DropTurns(s, op, id);
    case Disable(k) => DropTurns(s, op, id);
    case _ =>
  }

  /** Which endpoints are subscribed after a transaction, and until when. */
  lemma {:induction false} StepSubscribes(s: State, op: Op, endpoint: string, expiration: Option<Time>)
    requires Inv(s) && OneEach(s)
    ensures OneEach(Step(s, op))
    ensures Has(Step(s, op), endpoint, expiration) <==>
      match op
      case Subscribe(e, until) => if e == endpoint then until == expiration else Has(s, endpoint, expiration)
      case Unsubscribe(e) => e != endpoint && Has(s, endpoint, expiration)
      case Disable(k) =>
        && Has(s, endpoint, expiration)
        && !(k < |s.deliveries| && s.deliveries[k].subscription.Some?
             && s.subscriptions[s.deliveries[k].subscription.value].value.endpoint == endpoint)
      case _ => Has(s, endpoint, expiration)
  {
    match op
    case Subscribe(e, until) => SubscribeHas(s, e, until, endpoint, expiration);
    case Unsubscribe(e) =>
      var found := FindEndpoint(s.subscriptions, e);
      if found.Some? { DropHas(s, found.value, endpoint, expiration); }
      else if Has(s, endpoint, expiration) && e == endpoint {
        var i :| 0 <= i < |s.subscriptions| && s.subscriptions[i] == Some(Subscription(endpoint, expiration));
        Found(s.subscriptions, e, i);
      }
    case Disable(k) =>
      if k < |s.deliveries| && s.deliveries[k].subscription.Some? {
        assert GoodDelivery(s, s.deliveries[k]);
        DropHas(s, s.deliveries[k].subscription.value, endpoint, expiration);
      }
    case _ => assert Step(s, op).subscriptions == s.subscriptions;
  }

  lemma {:induction false} DropHas(s: State, i: nat, endpoint: string, expiration: Option<Time>)
    requires OneEach(s) && Live(s, i)
    ensures OneEach(Dropped(s, i))
    ensures Has(Dropped(s, i), endpoint, expiration) <==> s.subscriptions[i].value.endpoint != endpoint && Has(s, endpoint, expiration)
  {
    var s' := Dropped(s, i);
    assert s'.subscriptions == s.subscriptions[i := None];
    hide Dropped;
    if Has(s, endpoint, expiration) && s.subscriptions[i].value.endpoint != endpoint {
      var j :| 0 <= j < |s.subscriptions| && s.subscriptions[j] == Some(Subscription(endpoint, expiration));
      assert s'.subscriptions[j] == Some(Subscription(endpoint, expiration));
    }
    if Has(s', endpoint, expiration) {
      var j :| 0 <= j < |s'.subscriptions| && s'.subscriptions[j] == Some(Subscription(endpoint, expiration));
      assert s.subscriptions[j] == Some(Subscription(endpoint, expiration));
    }
  }

  lemma {:induction false} SubscribeHas(s: State, e: string, until: Option<Time>, endpoint: string, expiration: Option<Time>)
    requires OneEach(s)
    ensures OneEach(Subscribed(s, e, until))
    ensures Has(Subscribed(s, e, until), endpoint, expiration) <==> if e == endpoint then until == expiration else Has(s, endpoint, expiration)
  {
    var s', row := Subscribed(s, e, until), Some(Subscription(e, until));
    var found := FindEndpoint(s.subscriptions, e);
    var at := if found.Some? then found.value else |s.subscriptions|;
    assert s'.subscriptions == if found.Some? then s.subscriptions[at := row] else s.subscriptions + [row];
    assert s'.subscriptions[at] == row;
    forall j | 0 <= j < |s.subscriptions| && j != at
      ensures s'.subscriptions[j] == s.subscriptions[j]
      ensures s.subscriptions[j].Some? ==> s.subscriptions[j].value.endpoint != e
    {
      if s.subscriptions[j].Some? && s.subscriptions[j].value.endpoint == e { FoundOnly(s, e, j); }
    }
    hide Subscribed;
    if Has(s, endpoint, expiration) && e != endpoint {
      var j :| 0 <= j < |s.subscriptions| && s.subscriptions[j] == Some(Subscription(endpoint, expiration));
      assert s'.subscriptions[j] == s.subscriptions[j];
    }
    if Has(s', endpoint, expiration) && e != endpoint {
      var j :| 0 <= j < |s'.subscriptions| && s'.subscriptions[j] == Some(Subscription(endpoint, expiration));
      assert s.subscriptions[j] == s'.subscriptions[j];
    }
  }

  // ----- Fan-out -----

  /** The subscription is there and has not expired. */
  predicate Reachable(subscriptions: seq<Option<Subscription>>, i: nat, now: Time)
  {
    && i < |subscriptions| && subscriptions[i].Some?
    && !TextPassed(subscriptions[i].value.expiration, now)
  }

  lemma {:induction false} FanoutAddresses(subscriptions: seq<Option<Subscription>>, n: nat, now: Time, i: nat)
    ensures Delivery(n, Some(i), Pending, 0, None, None) in Fanout(subscriptions, n, now) <==> Reachable(subscriptions, i, now)
    ensures multiset(Fanout(subscriptions, n, now))[Delivery(n, Some(i), Pending, 0, None, None)] <= 1
    ensures forall d <- Fanout(subscriptions, n, now) ::
      d.subscription.Some? && d.subscription.value < |subscriptions| && d == Delivery(n, d.subscription, Pending, 0, None, None)
  {
    hide StoredAtOrBefore;
    if subscriptions != [] {
      var last := |subscriptions| - 1;
      FanoutAddresses(subscriptions[..last], n, now, i);
      var before := Fanout(subscriptions[..last], n, now);
      assert subscriptions[..last] == subscriptions[..last];
      if i < last { assert subscriptions[..last][i] == subscriptions[i]; }
    }
  }

  /** A new notification is delivered once to each subscriber that has not expired and to nobody else. */
  lemma {:induction false} EnqueueAddresses(s: State, now: Time, i: nat)
    ensures var (s', n) := (Step(s, Enqueue(now)), |s.notifications|);
      && |s.deliveries| <= |s'.deliveries| && s'.deliveries[..|s.deliveries|] == s.deliveries && |s'.notifications| == n + 1
      && var added := s'.deliveries[|s.deliveries|..];
         && (Delivery(n, Some(i), Pending, 0, None, None) in added <==> Reachable(s.subscriptions, i, now))
         && multiset(added)[Delivery(n, Some(i), Pending, 0, None, None)] <= 1
         && (forall d <- added :: d.subscription.Some? && d == Delivery(n, d.subscription, Pending, 0, None, None))
         && s'.notifications[n] == (if added == [] then Unaddressed else Waiting)
  {
    FanoutAddresses(s.subscriptions, |s.notifications|, now, i);
    hide Fanout;
  }

  // ----- Runs -----

  lemma {:induction false} StepKeepsEndpoints(s: State, op: Op)
    requires Inv(s) && OneEach(s)
    ensures Inv(Step(s, op)) && OneEach(Step(s, op))
  {
    hide Step, Has, Inv, OneEach;
    StepKeeps(s, op);
    StepSubscribes(s, op, "", None);
  }

  /** In every reachable outbox an endpoint has at most one subscription. */
  lemma {:induction false} EndpointsAreUnique(s: State, ops: seq<Op>)
    requires Inv(s) && OneEach(s)
    ensures Inv(Run(s, ops)) && OneEach(Run(s, ops))
    decreases |ops|
  {
    hide Step, Inv, OneEach;
    if ops != [] {
      StepKeepsEndpoints(s, ops[0]);
      EndpointsAreUnique(Step(s, ops[0]), ops[1..]);
    }
  }

  /** How often a run takes the delivery. */
  function Takings(s: State, ops: seq<Op>, id: nat): nat
    decreases |ops|
  {
    if ops == [] then 0 else (if id in ClaimsOf(s, ops[0]) then 1 else 0) + Takings(Step(s, ops[0]), ops[1..], id)
  }

  /** A delivery's attempt count is the number of claims that took it. */
  lemma {:induction false} AttemptsAreTakings(s: State, ops: seq<Op>, id: nat)
    requires Inv(s) && OneEach(s) && id < |s.deliveries|
    ensures id < |Run(s, ops).deliveries|
    ensures Run(s, ops).deliveries[id].attempts == s.deliveries[id].attempts + Takings(s, ops, id)
    decreases |ops|
  {
    hide Step, Inv, OneEach, ClaimedIds, Claimable, Ahead;
    if ops != [] {
      StepTurns(s, ops[0], id);
      StepKeepsEndpoints(s, ops[0]);
      if ops[0].ClaimBatch? { ClaimTakesIff(s, ops[0].limit, ops[0].now, id); }
      AttemptsAreTakings(Step(s, ops[0]), ops[1..], id);
    }
  }

  /** The transaction that ends the delivery, and how. */
  function Ends(s: State, op: Op, id: nat): Option<Status>
    requires id < |s.deliveries|
  {
    var d := s.deliveries[id];
    match op
    case RecordSent(k) => if k == id && d.status == Sending && d.subscription.Some? then Some(Sent) else None
    case RecordFailure(k) => if k == id && d.status == Sending then Some(Failed) else None
    case _ => if Drops(s, op, d) then Some(Cancelled) else None
  }

  ghost predicate EndsAs(s: State, ops: seq<Op>, id: nat, status: Status)
    decreases |ops|
  {
    && ops != [] && id < |s.deliveries|
    && match Ends(s, ops[0], id)
       case Some(end) => end == status
       case None => EndsAs(Step(s, ops[0]), ops[1..], id, status)
  }

  ghost predicate NeverEnds(s: State, ops: seq<Op>, id: nat)
    decreases |ops|
  {
    ops != [] ==> id < |s.deliveries| && Ends(s, ops[0], id).None? && NeverEnds(Step(s, ops[0]), ops[1..], id)
  }

  lemma {:induction false} FinishedStays(s: State, ops: seq<Op>, id: nat)
    requires Inv(s) && OneEach(s) && id < |s.deliveries| && !s.deliveries[id].Active()
    ensures id < |Run(s, ops).deliveries| && Run(s, ops).deliveries[id].status == s.deliveries[id].status
  {
    RunKeeps(s, ops);
    assert Evolves(s.deliveries[id], Run(s, ops).deliveries[id]);
  }

  /** An unfinished delivery is sent, failed or cancelled at the end of a run exactly as the first
      transaction that ended it says: an accepted success, an accepted failure, or the deletion of its
      subscription; and it is still unfinished if there was none. */
  lemma {:induction false} StatusIsFirstEnd(s: State, ops: seq<Op>, id: nat)
    requires Inv(s) && OneEach(s) && id < |s.deliveries| && s.deliveries[id].Active()
    ensures id < |Run(s, ops).deliveries|
    ensures var d := Run(s, ops).deliveries[id];
      if d.Active() then NeverEnds(s, ops, id) else EndsAs(s, ops, id, d.status)
    decreases |ops|
  {
    hide Step, Inv, OneEach, Claimable, Ahead, Lapsed, Live, Drops;
    if ops != [] {
      var op := ops[0];
      StepTurns(s, op, id);
      StepKeepsEndpoints(s, op);
      OnlyEndsFinish(s, op, id);
      if Ends(s, op, id).Some? {
        FinishedStays(Step(s, op), ops[1..], id);
      } else {
        StatusIsFirstEnd(Step(s, op), ops[1..], id);
      }
    }
  }

  lemma {:induction false} OnlyEndsFinish(s: State, op: Op, id: nat)
    requires id < |s.deliveries| && s.deliveries[id].Active()
    ensures Turned(s, op, id).status == (match Ends(s, op, id) case Some(end) => end case None => Turned(s, op, id).status)
    ensures Turned(s, op, id).Active() <==> Ends(s, op, id).None?
  {
    hide StoredAtOrBefore, Claimable, Ahead, Lapsed;
  }

  // ----- A retry is not taken early -----

  /** Put back until the given time, or finished. */
  predicate PutBack(s: State, id: nat, at: Time)
  {
    id < |s.deliveries| && (s.deliveries[id].Active() ==> s.deliveries[id].status == Pending && s.deliveries[id].nextAttempt == Some(at))
  }

  lemma {:induction false} PutBackStep(s: State, op: Op, id: nat, at: Time)
    requires Inv(s) && OneEach(s) && InRange(at) && PutBack(s, id, at) && BeforeEnd(op, at)
    ensures PutBack(Step(s, op), id, at) && id !in ClaimsOf(s, op)
  {
    hide Step, Inv, OneEach, Ahead, StoredAtOrBefore, InRange, Second, Drops;
    StepTurns(s, op, id);
    if op.ClaimBatch? {
      LeaseHolds(at, op.now);
      ClaimTakesIff(s, op.limit, op.now, id);
    }
  }

  lemma {:induction false} PutBackRun(s: State, ops: seq<Op>, id: nat, at: Time, op: Op)
    requires Inv(s) && OneEach(s) && InRange(at) && PutBack(s, id, at)
    requires (forall o <- ops :: BeforeEnd(o, at)) && BeforeEnd(op, at)
    ensures id !in ClaimsOf(Run(s, ops), op)
    decreases |ops|
  {
    hide Step, Inv, OneEach, PutBack, ClaimsOf, BeforeEnd, InRange;
    if ops == [] {
      PutBackStep(s, op, id, at);
    } else {
      assert ops[0] in ops;
      PutBackStep(s, ops[0], id, at);
      StepKeepsEndpoints(s, ops[0]);
      assert forall o <- ops[1..] :: o in ops;
      PutBackRun(Step(s, ops[0]), ops[1..], id, at, op);
    }
  }

  /** After a retry was accepted, no claim made in a second before that of the retry takes the delivery,
      whatever else happens. */
  lemma {:induction false} RetryIsNotEarly(s: State, id: nat, at: Time, ops: seq<Op>, claim: Op)
    requires Inv(s) && OneEach(s) && InRange(at)
    requires id < |s.deliveries| && s.deliveries[id].status == Sending
    requires forall o <- ops :: o.ClaimBatch? ==> Second(o.now) < Second(at)
    requires claim.ClaimBatch? && Second(claim.now) < Second(at)
    ensures id !in ClaimsOf(Run(Step(s, RecordRetry(id, at)), ops), claim)
  {
    hide Step, Inv, OneEach, ClaimsOf, InRange, Second;
    StepTurns(s, RecordRetry(id, at), id);
    StepKeepsEndpoints(s, RecordRetry(id, at));
    assert forall o <- ops :: BeforeEnd(o, at);
    PutBackRun(Step(s, RecordRetry(id, at)), ops, id, at, claim);
  }

  /** The time of the last accepted retry of the delivery. */
  function LastRetry(s: State, ops: seq<Op>, id: nat, before: Option<Time>): Option<Time>
    decreases |ops|
  {
    if ops == [] then before
    else
      var now := if ops[0].RecordRetry? && ops[0].id == id && id < |s.deliveries| && s.deliveries[id].status == Sending
                 then Some(ops[0].at) else before;
      LastRetry(Step(s, ops[0]), ops[1..], id, now)
  }

  /** The recorded next attempt is the last accepted retry's. */
  lemma {:induction false} NextAttemptIsLastRetry(s: State, ops: seq<Op>, id: nat)
    requires Inv(s) && OneEach(s) && id < |s.deliveries|
    ensures id < |Run(s, ops).deliveries|
    ensures Run(s, ops).deliveries[id].nextAttempt == LastRetry(s, ops, id, s.deliveries[id].nextAttempt)
    decreases |ops|
  {
    hide Step, Inv, OneEach, Claimable, Ahead, Lapsed, Drops;
    if ops != [] {
      StepTurns(s, ops[0], id);
      StepKeepsEndpoints(s, ops[0]);
      NextAttemptIsLastRetry(Step(s, ops[0]), ops[1..], id);
    }
  }
}
