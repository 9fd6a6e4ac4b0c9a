/** The persistent per-scope access budget: reservations, protective failures with exponential
    cooldown, and successes (internal/store/sqlite.go).

    Instants and durations are whole nanoseconds.  A stored timestamp reads back as the instant
    written, so the comparisons here are on instants. */
module Access {
  import opened Wrappers

  type Time = int

  datatype AccessState = AccessState(failures: nat, nextAllowed: Option<Time>, blockedUntil: Option<Time>)

  const FRESH := AccessState(0, None, None)

  datatype Reservation = Granted(failures: nat) | Denied(retryAt: Time, failures: nat)

  // ----- Cooldown -----

  function Power2(n: nat): nat { if n == 0 then 1 else 2 * Power2(n - 1) }

  lemma {:induction false} Power2Grows(a: nat, b: nat)
    requires a <= b
    ensures Power2(a) <= Power2(b) && 1 <= Power2(a)
  {
    if a < b { Power2Grows(a, b - 1); } else if a > 0 { Power2Grows(a - 1, a - 1); }
  }

  /** The closed form: base doubled once per failure after the first, cut off at maximum. */
  function Cooldown(base: nat, maximum: nat, failures: nat): nat
    requires failures >= 1
  {
    var doubled := base * Power2(failures - 1);
    if doubled > maximum then maximum else doubled
  }

  /** The first cooldown is the base, and every further failure doubles the cooldown up to the maximum. */
  lemma {:induction false} CooldownDoubles(base: nat, maximum: nat, failures: nat)
    requires base <= maximum && failures >= 1
    ensures Cooldown(base, maximum, 1) == base
    ensures Cooldown(base, maximum, failures + 1) ==
      if 2 * Cooldown(base, maximum, failures) > maximum then maximum else 2 * Cooldown(base, maximum, failures)
  {
    assert base * Power2(0) == base;
    DoubledProduct(base, failures);
  }

  lemma {:induction false} CooldownSaturates(base: nat, maximum: nat, a: nat, b: nat)
    requires 1 <= a <= b && base * Power2(a - 1) >= maximum
    ensures Cooldown(base, maximum, b) == maximum
  {
    Power2Grows(a - 1, b - 1);
    ProductGrows(base, Power2(a - 1), Power2(b - 1));
  }

  lemma {:induction false} ProductGrows(base: nat, x: nat, y: nat)
    requires x <= y
    ensures base * x <= base * y
  {
  }

  /** The doubling loop.  The running value never passes maximum, so it cannot overflow. */
  method ExponentialCooldown(base: nat, maximum: nat, failures: nat) returns (cooldown: nat)
    requires 0 < base <= maximum && failures >= 1
    ensures cooldown == Cooldown(base, maximum, failures)
  {
    cooldown := base;
    var attempt := 1;
    assert base * Power2(0) == base;
    while attempt < failures && cooldown < maximum
      invariant 1 <= attempt <= failures
      invariant cooldown == base * Power2(attempt - 1) <= maximum
      decreases failures - attempt
    {
      DoubledProduct(base, attempt);
      if cooldown > maximum / 2 {
        CooldownSaturates(base, maximum, attempt + 1, failures);
        return maximum;
      }
      cooldown := cooldown * 2;
      attempt := attempt + 1;
    }
    if attempt < failures {
      CooldownSaturates(base, maximum, attempt, failures);
    }
  }

  lemma {:induction false} DoubledProduct(base: nat, attempt: nat)
    requires attempt >= 1
    ensures base * Power2(attempt) == 2 * (base * Power2(attempt - 1))
  {
  }

  // ----- One scope's transitions -----

  function Latest(a: Option<Time>, b: Option<Time>): Option<Time>
  {
    if a.None? then b else if b.Some? && b.value > a.value then b else a
  }

  function Reserve(s: AccessState, at: Time, interval: nat): (AccessState, Reservation)
  {
    var next := Latest(s.nextAllowed, s.blockedUntil);
    if next.Some? && at < next.value then (s, Denied(next.value, s.failures))
    else (s.(nextAllowed := Some(at + interval)), Granted(s.failures))
  }

  function Fail(s: AccessState, at: Time, retryAfter: Option<Time>, base: nat, maximum: nat): AccessState
  {
    var cooled := at + Cooldown(base, maximum, s.failures + 1);
    var blocked := if retryAfter.Some? && retryAfter.value > cooled then retryAfter.value else cooled;
    s.(failures := s.failures + 1, blockedUntil := Some(blocked))
  }

  function Succeed(s: AccessState): AccessState
  {
    s.(failures := 0, blockedUntil := None)
  }

  // ----- Any sequence of calls on one scope -----

  datatype Call =
    | Reserving(at: Time, interval: nat)
    | Failing(at: Time, retryAfter: Option<Time>, base: nat, maximum: nat)
    | Succeeding

  function Step(s: AccessState, c: Call): AccessState
  {
    match c
    case Reserving(at, interval) => Reserve(s, at, interval).0
    case Failing(at, retryAfter, base, maximum) => Fail(s, at, retryAfter, base, maximum)
    case Succeeding => Succeed(s)
  }

  function Run(s: AccessState, calls: seq<Call>): AccessState
    decreases |calls|
  {
    if calls == [] then s else Run(Step(s, calls[0]), calls[1..])
  }

  predicate Grants(s: AccessState, c: Call)
  {
    c.Reserving? && Reserve(s, c.at, c.interval).1.Granted?
  }

  /** No call of the sequence is granted when it is run from s. */
  ghost predicate NoGrants(s: AccessState, calls: seq<Call>)
    decreases |calls|
  {
    calls == [] || (!Grants(s, calls[0]) && NoGrants(Step(s, calls[0]), calls[1..]))
  }

  lemma {:induction false} NextAllowedStays(s: AccessState, calls: seq<Call>)
    requires NoGrants(s, calls)
    ensures Run(s, calls).nextAllowed == s.nextAllowed
    decreases |calls|
  {
    if calls != [] { NextAllowedStays(Step(s, calls[0]), calls[1..]); }
  }

  /** Two consecutive grants of a scope are at least the earlier one's minimum interval apart,
      whatever failures and successes are recorded between them. */
  lemma {:induction false} ConsecutiveGrantsAreSpaced(s: AccessState, first: Call, between: seq<Call>, second: Call)
    requires Grants(s, first)
    requires NoGrants(Step(s, first), between)
    requires Grants(Run(Step(s, first), between), second)
    ensures second.at >= first.at + first.interval
  {
    NextAllowedStays(Step(s, first), between);
  }

  lemma {:induction false} BlockStays(s: AccessState, calls: seq<Call>)
    requires forall c <- calls :: c.Reserving?
    ensures Run(s, calls).blockedUntil == s.blockedUntil
    decreases |calls|
  {
    if calls != [] {
      assert calls[0] in calls;
      assert forall c <- calls[1..] :: c in calls;
      BlockStays(Step(s, calls[0]), calls[1..]);
    }
  }

  /** The failures recorded one after another, with reservations but no success in between, since
      the scope was last clean. */
  function Failures(calls: seq<Call>): nat
  {
    if calls == [] then 0
    else
      var last := calls[|calls| - 1];
      var before := calls[..|calls| - 1];
      match last
      case Reserving(_, _) => Failures(before)
      case Failing(_, _, _, _) => Failures(before) + 1
      case Succeeding => 0
  }

  lemma {:induction false} RunLast(s: AccessState, calls: seq<Call>)
    requires calls != []
    ensures Run(s, calls) == Step(Run(s, calls[..|calls| - 1]), calls[|calls| - 1])
    decreases |calls|
  {
    if |calls| > 1 {
      RunLast(Step(s, calls[0]), calls[1..]);
      assert calls[1..][..|calls| - 2] == calls[..|calls| - 1][1..];
    }
  }

  lemma {:induction false} FailuresAreCounted(calls: seq<Call>)
    ensures Run(FRESH, calls).failures == Failures(calls)
    decreases |calls|
  {
    if calls != [] {
      RunLast(FRESH, calls);
      FailuresAreCounted(calls[..|calls| - 1]);
    }
  }

  /** After the n-th consecutive failure nothing is granted before the requested Retry-After nor
      before base * 2^(n-1), cut off at maximum, has passed, as long as neither a success nor a
      later failure is recorded. */
  lemma {:induction false} NothingGrantedDuringCooldown(
      history: seq<Call>, failure: Call, between: seq<Call>, reservation: Call)
    requires failure.Failing?
    requires forall c <- between :: c.Reserving?
    requires Grants(Run(Step(Run(FRESH, history), failure), between), reservation)
    ensures reservation.at >= failure.at + Cooldown(failure.base, failure.maximum, Failures(history) + 1)
    ensures failure.retryAfter.Some? ==> reservation.at >= failure.retryAfter.value
  {
    FailuresAreCounted(history);
    BlockStays(Step(Run(FRESH, history), failure), between);
  }

  // ----- When a reservation is granted, read off the calls -----

  /** Call i took the latest grant of the history. */
  ghost predicate LastGrant(calls: seq<Call>, i: nat)
  {
    && i < |calls| && Grants(Run(FRESH, calls[..i]), calls[i])
    && forall j: nat :: i < j < |calls| ==> !Grants(Run(FRESH, calls[..j]), calls[j])
  }

  /** Call i recorded the latest failure, and no success came after it. */
  ghost predicate Standing(calls: seq<Call>, i: nat)
  {
    && i < |calls| && calls[i].Failing?
    && forall j: nat :: i < j < |calls| ==> calls[j].Reserving?
  }

  /** The interval of the grant taken by call i is over. */
  predicate IntervalOver(calls: seq<Call>, i: nat, at: Time)
  {
    i < |calls| && calls[i].Reserving? && at >= calls[i].at + calls[i].interval
  }

  /** The requested Retry-After and the n-th cooldown of the failure of call i are over. */
  predicate CooledDown(calls: seq<Call>, i: nat, at: Time)
  {
    && i < |calls| && calls[i].Failing?
    && at >= calls[i].at + Cooldown(calls[i].base, calls[i].maximum, Failures(calls[..i]) + 1)
    && (calls[i].retryAfter.Some? ==> at >= calls[i].retryAfter.value)
  }

  predicate Passed(bound: Option<Time>, at: Time) { bound.None? || at >= bound.value }

  lemma {:induction false} OneGrantMore(calls: seq<Call>, c: Call, i: nat)
    ensures Grants(Run(FRESH, calls), c) ==> (LastGrant(calls + [c], i) <==> i == |calls|)
    ensures !Grants(Run(FRESH, calls), c) ==> (LastGrant(calls + [c], i) <==> LastGrant(calls, i))
  {
    hide Run, Grants;
    var all := calls + [c];
    forall j: nat | j < |calls|
      ensures all[..j] == calls[..j] && all[j] == calls[j]
    {
    }
    assert all[..|calls|] == calls && all[|calls|] == c;
    assert Grants(Run(FRESH, calls), c) == Grants(Run(FRESH, all[..|calls|]), all[|calls|]);
  }

  lemma {:induction false} OneFailureMore(calls: seq<Call>, c: Call, i: nat, at: Time)
    ensures c.Failing? ==> (Standing(calls + [c], i) <==> i == |calls|)
    ensures c.Succeeding? ==> !Standing(calls + [c], i)
    ensures c.Reserving? ==> (Standing(calls + [c], i) <==> Standing(calls, i))
    ensures i < |calls| ==> CooledDown(calls + [c], i, at) == CooledDown(calls, i, at)
    ensures i < |calls| ==> IntervalOver(calls + [c], i, at) == IntervalOver(calls, i, at)
  {
    hide Failures, Cooldown;
    var all := calls + [c];
    forall j: nat | j < |calls|
      ensures all[..j] == calls[..j] && all[j] == calls[j]
    {
    }
    assert all[|calls|] == c;
  }

  lemma {:induction false} NextAllowedIsLastGrant(calls: seq<Call>, at: Time)
    ensures Passed(Run(FRESH, calls).nextAllowed, at) <==> forall i: nat :: LastGrant(calls, i) ==> IntervalOver(calls, i, at)
    decreases |calls|
  {
    if calls == [] { return; }
    var n := |calls| - 1;
    var before, c := calls[..n], calls[n];
    assert calls == before + [c];
    NextAllowedIsLastGrant(before, at);
    RunLast(FRESH, calls);
    forall i: nat
      ensures Grants(Run(FRESH, before), c) ==> (LastGrant(calls, i) <==> i == n)
      ensures !Grants(Run(FRESH, before), c) ==> (LastGrant(calls, i) <==> LastGrant(before, i))
      ensures i < n ==> IntervalOver(calls, i, at) == IntervalOver(before, i, at)
    {
      OneGrantMore(before, c, i);
      OneFailureMore(before, c, i, at);
    }
    hide LastGrant, Run;
    if Grants(Run(FRESH, before), c) {
      assert LastGrant(calls, n);
    }
  }

  lemma {:induction false} BlockIsStandingFailure(calls: seq<Call>, at: Time)
    ensures Passed(Run(FRESH, calls).blockedUntil, at) <==> forall i: nat :: Standing(calls, i) ==> CooledDown(calls, i, at)
    decreases |calls|
  {
    if calls == [] { return; }
    var n := |calls| - 1;
    var before, c := calls[..n], calls[n];
    assert calls == before + [c];
    BlockIsStandingFailure(before, at);
    RunLast(FRESH, calls);
    FailuresAreCounted(before);
    forall i: nat
      ensures c.Failing? ==> (Standing(calls, i) <==> i == n)
      ensures c.Succeeding? ==> !Standing(calls, i)
      ensures c.Reserving? ==> (Standing(calls, i) <==> Standing(before, i))
      ensures i < n ==> CooledDown(calls, i, at) == CooledDown(before, i, at)
    {
      OneFailureMore(before, c, i, at);
    }
    assert forall i: nat :: Standing(before, i) ==> i < n;
    hide Standing, Cooldown, Failures, Run;
    if c.Failing? {
      assert Standing(calls, n);
    }
  }

  /** After any calls a reservation is granted exactly when the interval of the latest grant is over
      and the latest failure, unless a success came after it, has cooled down.  In particular a
      success leaves nothing but the interval in the way. */
  lemma {:induction false} GrantedIff(calls: seq<Call>, at: Time, interval: nat)
    ensures Grants(Run(FRESH, calls), Reserving(at, interval)) <==>
      && (forall i: nat :: LastGrant(calls, i) ==> IntervalOver(calls, i, at))
      && (forall i: nat :: Standing(calls, i) ==> CooledDown(calls, i, at))
  {
    NextAllowedIsLastGrant(calls, at);
    BlockIsStandingFailure(calls, at);
  }

  // ----- The repository -----

  datatype Decision = Decision(allowed: bool, retryAt: Option<Time>, failures: nat)

  /** The source_access_states table.  The normalisation of a scope name to a key is a parameter. */
  class AccessRepository {
    const key: string -> string
    var states: map<string, AccessState>

    constructor (key: string -> string)
      ensures this.key == key && states == map[]
    {
      this.key := key;
      states := map[];
    }

    function StateOf(scope: string): AccessState
      reads this
    {
      if key(scope) in states then states[key(scope)] else FRESH
    }

    method ReserveSourceAccess(scope: string, at: Time, interval: int) returns (r: Result<Decision, ()>)
      modifies this`states
      ensures r.Err? <==> key(scope) == "" || interval <= 0
      ensures r.Err? ==> states == old(states)
      ensures r.Ok? ==>
        var (next, reservation) := Reserve(old(StateOf(scope)), at, interval);
        && states == old(states)[key(scope) := next]
        && r.value == (if reservation.Granted? then Decision(true, None, reservation.failures)
                       else Decision(false, Some(reservation.retryAt), reservation.failures))
        && (reservation.Denied? ==>
              at < reservation.retryAt
              && forall later: Time, other: nat :: Grants(next, Reserving(later, other)) <==> later >= reservation.retryAt)
    {
      var k := key(scope);
      if k == "" || interval <= 0 { return Err(()); }
      if k !in states {
        states := states[k := FRESH];
      }
      var row := states[k];
      var next := Latest(row.nextAllowed, row.blockedUntil);
      if next.Some? && at < next.value {
        assert states == old(states)[k := row];
        return Ok(Decision(false, next, row.failures));
      }
      states := states[k := row.(nextAllowed := Some(at + interval))];
      r := Ok(Decision(true, None, row.failures));
    }

    /** Fails when the scope was never reserved: the row is read, not created. */
    method RecordSourceAccessFailure(scope: string, at: Time, retryAfter: Option<Time>, reason: string,
                                     base: int, maximum: int) returns (r: Result<Decision, ()>)
      modifies this`states
      ensures r.Err? <==> key(scope) == "" || reason == "" || base <= 0 || maximum < base || key(scope) !in old(states)
      ensures r.Err? ==> states == old(states)
      ensures r.Ok? ==>
        var next := Fail(old(StateOf(scope)), at, retryAfter, base, maximum);
        && states == old(states)[key(scope) := next]
        && r.value == Decision(false, Latest(next.blockedUntil, next.nextAllowed), next.failures)
        && forall later: Time, other: nat :: Grants(next, Reserving(later, other)) <==> later >= r.value.retryAt.value
    {
      var k := key(scope);
      if k == "" || reason == "" || base <= 0 || maximum < base || k !in states { return Err(()); }
      var row := states[k];
      var failures := row.failures + 1;
      var cooldown := ExponentialCooldown(base, maximum, failures);
      var blocked := at + cooldown;
      if retryAfter.Some? && retryAfter.value > blocked {
        blocked := retryAfter.value;
      }
      states := states[k := row.(failures := failures, blockedUntil := Some(blocked))];
      var retryAt := blocked;
      if row.nextAllowed.Some? && row.nextAllowed.value > retryAt {
        retryAt := row.nextAllowed.value;
      }
      r := Ok(Decision(false, Some(retryAt), failures));
    }

    method RecordSourceAccessSuccess(scope: string) returns (ok: bool)
      modifies this`states
      ensures ok <==> key(scope) != "" && key(scope) in old(states)
      ensures states == if ok then old(states)[key(scope) := Succeed(old(StateOf(scope)))] else old(states)
    {
      var k := key(scope);
      ok := k != "" && k in states;
      if ok {
        states := states[k := states[k].(failures := 0, blockedUntil := None)];
      }
    }
  }
}
