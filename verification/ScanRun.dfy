/** One scan over all sources: access reservations, robots checks, fetches, listing processing and
    the final report (internal/orchestrator/service.go).

    The store, the robots checker, the sources and the analyzer answer arbitrarily; their answers
    for a source are its Visit.  The calls a run makes are returned in order as a trace. */
module ScanRun {
  import opened Wrappers

  datatype Policy = Policy(scope: string, robots: bool)

  /** A source without a policy is not access-protected. */
  datatype Source = Source(name: string, policy: Option<Policy>)

  datatype ListingOutcome =
    | UpsertFailed
    | CheckFailed(isNew: bool)
    | NotRequired(isNew: bool)
    | AnalysisFailed(isNew: bool)
    | SaveFailed(isNew: bool)
    | Saved(isNew: bool)

  datatype FetchAnswer = FetchError(protective: bool) | Listings(outcomes: seq<ListingOutcome>)

  /** reserved is None when the reservation itself failed, robots when the check failed or no checker
      is configured; recorded tells whether the source's result could be written. */
  datatype Visit = Visit(reserved: Option<bool>, robots: Option<bool>, fetch: FetchAnswer, recorded: bool)

  datatype SourceResult = SourceResult(source: string, found: nat, added: nat, processErrors: nat,
                                       fetchFailed: bool, skipped: bool)

  datatype Event =
    | Reserve(scope: string, granted: bool)
    | RobotsCheck(index: nat, allowed: bool)
    | Fetch(index: nat, ok: bool)
    | AccessFailure(scope: string)
    | AccessSuccess(scope: string)

  datatype ScopeState = ScopeState(allowed: bool, reserved: bool, protectionTriggered: bool, successfulFetch: bool)

  // ----- What a trace may look like -----

  ghost predicate ReservedOnce(trace: seq<Event>)
  {
    forall i, j :: 0 <= i < j < |trace| && trace[i].Reserve? && trace[j].Reserve? ==> trace[i].scope != trace[j].scope
  }

  /** A fetch of a protected source comes after its scope's granted reservation, with no protective
      failure of the scope so far, and in robots mode after an allowing decision for the source. */
  ghost predicate FetchAllowed(sources: seq<Source>, before: seq<Event>, index: nat)
  {
    && index < |sources|
    && (sources[index].policy.Some? ==>
          var p := sources[index].policy.value;
          && Reserve(p.scope, true) in before
          && AccessFailure(p.scope) !in before
          && (p.robots ==> RobotsCheck(index, true) in before))
  }

  ghost predicate FetchesAllowed(sources: seq<Source>, trace: seq<Event>)
  {
    forall j :: 0 <= j < |trace| && trace[j].Fetch? ==> FetchAllowed(sources, trace[..j], trace[j].index)
  }

  predicate InScope(sources: seq<Source>, index: nat, scope: string)
  {
    index < |sources| && sources[index].policy.Some? && sources[index].policy.value.scope == scope
  }

  ghost predicate FetchedOk(sources: seq<Source>, trace: seq<Event>, scope: string)
  {
    exists e <- trace :: e.Fetch? && e.ok && InScope(sources, e.index, scope)
  }

  /** A scope has earned its reset: granted, fetched successfully, never tripped. */
  ghost predicate Healthy(sources: seq<Source>, trace: seq<Event>, scope: string)
  {
    Reserve(scope, true) in trace && FetchedOk(sources, trace, scope) && AccessFailure(scope) !in trace
  }

  /** The run's bookkeeping for one scope says what the trace says. */
  ghost predicate TracksScope(sources: seq<Source>, trace: seq<Event>, states: map<string, ScopeState>, scope: string)
  {
    var granted, tripped, fetched := Reserve(scope, true) in trace, AccessFailure(scope) in trace, FetchedOk(sources, trace, scope);
    && (scope in states <==> granted || Reserve(scope, false) in trace)
    && (scope in states ==> states[scope] == ScopeState(granted && !tripped, granted, tripped, fetched))
    && (tripped || fetched ==> scope in states)
    && AccessSuccess(scope) !in trace
  }

  ghost predicate Tracks(sources: seq<Source>, trace: seq<Event>, states: map<string, ScopeState>)
  {
    forall scope :: TracksScope(sources, trace, states, scope)
  }

  ghost predicate Good(sources: seq<Source>, trace: seq<Event>, states: map<string, ScopeState>)
  {
    ReservedOnce(trace) && FetchesAllowed(sources, trace) && Tracks(sources, trace, states)
  }

  lemma {:induction false} AppendedFetches(sources: seq<Source>, trace: seq<Event>, e: Event)
    requires FetchesAllowed(sources, trace)
    requires e.Fetch? ==> FetchAllowed(sources, trace, e.index)
    ensures FetchesAllowed(sources, trace + [e])
  {
    var longer := trace + [e];
    forall j | 0 <= j < |longer| && longer[j].Fetch?
      ensures FetchAllowed(sources, longer[..j], longer[j].index)
    {
      if j < |trace| {
        assert longer[..j] == trace[..j];
      } else {
        assert longer[..j] == trace;
      }
    }
  }

  lemma {:induction false} AppendedFetchedOk(sources: seq<Source>, trace: seq<Event>, e: Event, scope: string)
    ensures FetchedOk(sources, trace + [e], scope) <==>
      FetchedOk(sources, trace, scope) || (e.Fetch? && e.ok && InScope(sources, e.index, scope))
  {
    assert forall x :: x in trace + [e] <==> x in trace || x == e;
    if e.Fetch? && e.ok && InScope(sources, e.index, scope) { assert e in trace + [e]; }
  }

  /** How the bookkeeping follows one more event. */
  function Follow(sources: seq<Source>, states: map<string, ScopeState>, e: Event): map<string, ScopeState>
  {
    match e
    case Reserve(scope, granted) => states[scope := ScopeState(granted, granted, false, false)]
    case AccessFailure(scope) =>
      if scope in states then states[scope := states[scope].(allowed := false, protectionTriggered := true)] else states
    case Fetch(index, ok) =>
      if ok && index < |sources| && sources[index].policy.Some? && sources[index].policy.value.scope in states
      then var scope := sources[index].policy.value.scope; states[scope := states[scope].(successfulFetch := true)]
      else states
    case _ => states
  }

  lemma {:induction false} Append(sources: seq<Source>, trace: seq<Event>, states: map<string, ScopeState>, e: Event)
    requires Good(sources, trace, states) && !e.AccessSuccess?
    requires e.Fetch? ==> FetchAllowed(sources, trace, e.index)
    requires e.Reserve? ==> e.scope !in states
    requires e.AccessFailure? ==> e.scope in states
    ensures Good(sources, trace + [e], Follow(sources, states, e))
  {
    AppendedFetches(sources, trace, e);
    if e.Reserve? { assert TracksScope(sources, trace, states, e.scope); }
    forall scope: string
      ensures TracksScope(sources, trace + [e], Follow(sources, states, e), scope)
    {
      if e.Fetch? && InScope(sources, e.index, scope) { assert TracksScope(sources, trace, states, scope); }
      AppendedTracks(sources, trace, states, e, scope);
    }
  }

  lemma {:induction false} AppendedTracks(
      sources: seq<Source>, trace: seq<Event>, states: map<string, ScopeState>, e: Event, scope: string)
    requires TracksScope(sources, trace, states, scope) && !e.AccessSuccess?
    requires e.Fetch? && InScope(sources, e.index, scope) ==> scope in states
    requires e.Reserve? ==> e.scope !in states
    requires e.AccessFailure? ==> e.scope in states
    ensures TracksScope(sources, trace + [e], Follow(sources, states, e), scope)
  {
    AppendedFetchedOk(sources, trace, e, scope);
    assert forall x :: x in trace + [e] <==> x in trace || x == e;
  }

  // ----- The trace agrees with what the world answered -----

  ghost predicate Answered(sources: seq<Source>, visits: seq<Visit>, e: Event)
  {
    match e
    case Reserve(scope, granted) =>
      exists i :: 0 <= i < |visits| && InScope(sources, i, scope) && granted == (visits[i].reserved == Some(true))
    case RobotsCheck(index, allowed) => index < |visits| && allowed == (visits[index].robots == Some(true))
    case Fetch(index, ok) => index < |visits| && ok == visits[index].fetch.Listings?
    case _ => true
  }

  /** A fetch failed in a way that protects the source's scope. */
  predicate Trips(sources: seq<Source>, visits: seq<Visit>, e: Event)
  {
    && e.Fetch? && e.index < |sources| && e.index < |visits| && sources[e.index].policy.Some?
    && visits[e.index].fetch.FetchError? && visits[e.index].fetch.protective
  }

  /** Protective failures are recorded at once, for the scope concerned, and nothing else is. */
  ghost predicate FailuresFollow(sources: seq<Source>, visits: seq<Visit>, trace: seq<Event>)
  {
    && (forall j :: 0 <= j < |trace| && Trips(sources, visits, trace[j]) ==>
          j + 1 < |trace| && trace[j + 1] == AccessFailure(sources[trace[j].index].policy.value.scope))
    && (forall j :: 0 <= j < |trace| && trace[j].AccessFailure? ==>
          0 < j && Trips(sources, visits, trace[j - 1]) && InScope(sources, trace[j - 1].index, trace[j].scope))
  }

  ghost predicate Faithful(sources: seq<Source>, visits: seq<Visit>, trace: seq<Event>)
  {
    (forall e <- trace :: Answered(sources, visits, e)) && FailuresFollow(sources, visits, trace)
  }

  /** A source that was passed over had a refused or tripped scope, or robots refused it. */
  ghost predicate SkipJustified(sources: seq<Source>, trace: seq<Event>, index: nat)
  {
    && index < |sources| && sources[index].policy.Some?
    && var scope := sources[index].policy.value.scope;
       Reserve(scope, false) in trace || AccessFailure(scope) in trace || RobotsCheck(index, false) in trace
  }

  lemma {:induction false} FaithfulAppend(sources: seq<Source>, visits: seq<Visit>, trace: seq<Event>, tail: seq<Event>)
    requires Faithful(sources, visits, trace) && FailuresFollow(sources, visits, tail)
    requires forall e <- tail :: Answered(sources, visits, e)
    ensures Faithful(sources, visits, trace + tail)
  {
    var all := trace + tail;
    forall j | 0 <= j < |all| && Trips(sources, visits, all[j])
      ensures j + 1 < |all| && all[j + 1] == AccessFailure(sources[all[j].index].policy.value.scope)
    {
      if j >= |trace| { assert all[j] == tail[j - |trace|]; }
    }
    forall j | 0 <= j < |all| && all[j].AccessFailure?
      ensures 0 < j && Trips(sources, visits, all[j - 1]) && InScope(sources, all[j - 1].index, all[j].scope)
    {
      if j >= |trace| { assert all[j] == tail[j - |trace|]; }
    }
  }

  // ----- Processing one source's listings -----

  /** The listings that were stored for the first time. */
  ghost function NewAt(outcomes: seq<ListingOutcome>): set<nat>
  {
    set k: nat | k < |outcomes| && !outcomes[k].UpsertFailed? && outcomes[k].isNew
  }

  /** The listings that are not in the state they should be in: analysed and saved, or not in need of it. */
  ghost function ErrorsAt(outcomes: seq<ListingOutcome>): set<nat>
  {
    set k: nat | k < |outcomes| && !outcomes[k].NotRequired? && !outcomes[k].Saved?
  }

  lemma {:induction false} OneNewMore(outcomes: seq<ListingOutcome>, k: nat)
    requires k < |outcomes|
    ensures |NewAt(outcomes[..k + 1])| == |NewAt(outcomes[..k])| + if k in NewAt(outcomes) then 1 else 0
  {
    var shorter, longer := NewAt(outcomes[..k]), NewAt(outcomes[..k + 1]);
    assert k !in shorter;
    assert longer == if k in NewAt(outcomes) then shorter + {k} else shorter;
  }

  lemma {:induction false} OneErrorMore(outcomes: seq<ListingOutcome>, k: nat)
    requires k < |outcomes|
    ensures |ErrorsAt(outcomes[..k + 1])| == |ErrorsAt(outcomes[..k])| + if k in ErrorsAt(outcomes) then 1 else 0
  {
    var shorter, longer := ErrorsAt(outcomes[..k]), ErrorsAt(outcomes[..k + 1]);
    assert k !in shorter;
    assert longer == if k in ErrorsAt(outcomes) then shorter + {k} else shorter;
  }

  method ProcessListings(outcomes: seq<ListingOutcome>) returns (added: nat, errors: nat)
    ensures added == |NewAt(outcomes)| && errors == |ErrorsAt(outcomes)|
    ensures added <= |outcomes| && errors <= |outcomes|
  {
    added, errors := 0, 0;
    for k := 0 to |outcomes|
      invariant added == |NewAt(outcomes[..k])| && errors == |ErrorsAt(outcomes[..k])|
      invariant added <= k && errors <= k
    {
      OneNewMore(outcomes, k);
      OneErrorMore(outcomes, k);
      match outcomes[k]
      case UpsertFailed => errors := errors + 1;
      case CheckFailed(isNew) => errors := errors + 1; added := added + if isNew then 1 else 0;
      case NotRequired(isNew) => added := added + if isNew then 1 else 0;
      case AnalysisFailed(isNew) => errors := errors + 1; added := added + if isNew then 1 else 0;
      case SaveFailed(isNew) => errors := errors + 1; added := added + if isNew then 1 else 0;
      case Saved(isNew) => added := added + if isNew then 1 else 0;
    }
    assert outcomes[..|outcomes|] == outcomes;
  }

  // ----- One source -----

  /** Reserves the scope on its first use in the run, consults robots in robots mode, and says
      whether the source may be fetched. */
  method PassGate(sources: seq<Source>, index: nat, visits: seq<Visit>, states: map<string, ScopeState>, trace: seq<Event>)
    returns (pass: bool, states': map<string, ScopeState>, trace': seq<Event>)
    requires index < |sources| == |visits| && Good(sources, trace, states)
    requires Faithful(sources, visits, trace)
    ensures Good(sources, trace', states') && Faithful(sources, visits, trace') && trace <= trace'
    ensures if pass then FetchAllowed(sources, trace', index) else SkipJustified(sources, trace', index)
    ensures forall e <- trace'[|trace|..] :: !e.Fetch?
  {
    states', trace' := states, trace;
    if sources[index].policy.None? { return true, states', trace'; }
    var policy := sources[index].policy.value;
    if policy.scope !in states' {
      var granted := visits[index].reserved == Some(true);
      var e := Event.Reserve(policy.scope, granted);
      assert InScope(sources, index, policy.scope);
      Append(sources, trace', states', e);
      FaithfulAppend(sources, visits, trace', [e]);
      states', trace' := states'[policy.scope := ScopeState(granted, granted, false, false)], trace' + [e];
    }
    assert TracksScope(sources, trace', states', policy.scope);
    if !states'[policy.scope].allowed { return false, states', trace'; }
    if policy.robots {
      var allowed := visits[index].robots == Some(true);
      var e := RobotsCheck(index, allowed);
      Append(sources, trace', states', e);
      FaithfulAppend(sources, visits, trace', [e]);
      trace' := trace' + [e];
      if !allowed { return false, states', trace'; }
    }
    pass := true;
  }

  /** The numbers of a source's result.  What could not be recorded is one more error, and the
      listings count only when the source was fetched. */
  ghost predicate Tells(visit: Visit, r: SourceResult)
  {
    var unrecorded := if visit.recorded then 0 else 1;
    var fetched := !r.skipped && visit.fetch.Listings?;
    && (r.fetchFailed <==> !r.skipped && visit.fetch.FetchError?)
    && (fetched ==> r.found == |visit.fetch.outcomes| && r.added == |NewAt(visit.fetch.outcomes)|)
    && (fetched ==> r.processErrors == |ErrorsAt(visit.fetch.outcomes)| + unrecorded)
    && (!fetched ==> r.found == 0 && r.added == 0 && r.processErrors == unrecorded)
  }

  method FetchSource(sources: seq<Source>, index: nat, visits: seq<Visit>, states: map<string, ScopeState>, trace: seq<Event>)
    returns (result: SourceResult, states': map<string, ScopeState>, trace': seq<Event>)
    requires index < |sources| == |visits| && Good(sources, trace, states)
    requires Faithful(sources, visits, trace)
    requires FetchAllowed(sources, trace, index)
    ensures Good(sources, trace', states') && Faithful(sources, visits, trace')
    ensures trace <= trace' && |trace| < |trace'| && trace'[|trace|] == Fetch(index, visits[index].fetch.Listings?)
    ensures forall e <- trace'[|trace| + 1..] :: !e.Fetch?
    ensures result.source == sources[index].name && !result.skipped
    ensures Tells(visits[index], result)
  {
    var visit := visits[index];
    var e := Fetch(index, visit.fetch.Listings?);
    Append(sources, trace, states, e);
    states', trace' := Follow(sources, states, e), trace + [e];
    if visit.fetch.FetchError? {
      if sources[index].policy.Some? && visit.fetch.protective {
        var failure := AccessFailure(sources[index].policy.value.scope);
        assert TracksScope(sources, trace, states, failure.scope);
        Append(sources, trace', states', failure);
        states' := Follow(sources, states', failure);
        trace' := trace' + [failure];
        FaithfulAppend(sources, visits, trace, [e, failure]);
        assert trace + [e, failure] == trace';
      } else {
        FaithfulAppend(sources, visits, trace, [e]);
      }
      result := SourceResult(sources[index].name, 0, 0, if visit.recorded then 0 else 1, true, false);
    } else {
      FaithfulAppend(sources, visits, trace, [e]);
      var added, errors := ProcessListings(visit.fetch.outcomes);
      if !visit.recorded { errors := errors + 1; }
      result := SourceResult(sources[index].name, |visit.fetch.outcomes|, added, errors, false, false);
    }
  }

  // ----- The run -----

  ghost predicate Fetched(trace: seq<Event>, index: nat)
  {
    Fetch(index, true) in trace || Fetch(index, false) in trace
  }

  /** The results so far: one per source, in order, skipped exactly when the source was not fetched,
      and with the numbers its visit gave. */
  ghost predicate Reports(sources: seq<Source>, visits: seq<Visit>, trace: seq<Event>, results: seq<SourceResult>)
    requires |visits| == |sources|
  {
    && |results| <= |sources|
    && (forall i :: 0 <= i < |results| ==>
          && results[i].source == sources[i].name && Tells(visits[i], results[i])
          && (results[i].skipped <==> !Fetched(trace, i))
          && (results[i].skipped ==> SkipJustified(sources, trace, i)))
    && (forall i: nat :: |results| <= i ==> !Fetched(trace, i))
  }

  method Run(sources: seq<Source>, visits: seq<Visit>) returns (results: seq<SourceResult>, trace: seq<Event>)
    requires |visits| == |sources|
    ensures ReservedOnce(trace) && FetchesAllowed(sources, trace)
    ensures forall scope :: AccessSuccess(scope) in trace <==> Healthy(sources, trace, scope)
    ensures |results| == |sources| && Reports(sources, visits, trace, results)
    ensures Faithful(sources, visits, trace)
  {
    hide Healthy, FetchAllowed, Tells, SkipJustified;
    results, trace := [], [];
    var states: map<string, ScopeState> := map[];
    for index := 0 to |sources|
      invariant |results| == index
      invariant Good(sources, trace, states) && Faithful(sources, visits, trace)
      invariant Reports(sources, visits, trace, results)
    {
      ghost var before := trace;
      var pass;
      pass, states, trace := PassGate(sources, index, visits, states, trace);
      ghost var gated := trace;
      SameFetches(before, gated);
      var result;
      if pass {
        result, states, trace := FetchSource(sources, index, visits, states, trace);
        OneMoreFetch(gated, trace, index, visits[index].fetch.Listings?);
      } else {
        result := SourceResult(sources[index].name, 0, 0, if visits[index].recorded then 0 else 1, false, true);
        SkippedTells(visits[index], result);
      }
      OneMoreReport(sources, visits, before, trace, results, result, pass);
      results := results + [result];
    }
    ghost var before := trace;
    trace := ResetHealthyScopes(sources, visits, trace, states);
    SameReports(sources, visits, before, trace, results);
  }

  lemma {:induction false} SkippedTells(visit: Visit, r: SourceResult)
    requires r.skipped && !r.fetchFailed && r.found == 0 && r.added == 0
    requires r.processErrors == if visit.recorded then 0 else 1
    ensures Tells(visit, r)
  {
  }

  lemma {:induction false} OneMoreReport(sources: seq<Source>, visits: seq<Visit>, before: seq<Event>, after: seq<Event>,
                                         results: seq<SourceResult>, result: SourceResult, fetched: bool)
    requires |visits| == |sources| && |results| < |sources|
    requires Reports(sources, visits, before, results) && before <= after
    requires forall i: nat :: Fetched(after, i) <==> Fetched(before, i) || (fetched && i == |results|)
    requires result.source == sources[|results|].name && Tells(visits[|results|], result)
    requires result.skipped == !fetched && (!fetched ==> SkipJustified(sources, after, |results|))
    ensures Reports(sources, visits, after, results + [result])
  {
    hide Tells, Fetched;
    forall i: nat | SkipJustified(sources, before, i)
      ensures SkipJustified(sources, after, i)
    {
      assert forall e <- before :: e in after;
    }
  }

  lemma {:induction false} SameFetches(before: seq<Event>, after: seq<Event>)
    requires before <= after
    requires forall e <- after[|before|..] :: !e.Fetch?
    ensures forall i: nat :: Fetched(after, i) <==> Fetched(before, i)
  {
    assert after == before + after[|before|..];
  }

  lemma {:induction false} OneMoreFetch(before: seq<Event>, after: seq<Event>, index: nat, ok: bool)
    requires before <= after && |before| < |after| && after[|before|] == Fetch(index, ok)
    requires forall e <- after[|before| + 1..] :: !e.Fetch?
    ensures forall i: nat :: Fetched(after, i) <==> Fetched(before, i) || i == index
  {
    assert after == before + [Fetch(index, ok)] + after[|before| + 1..];
    forall e: Event | e.Fetch?
      ensures e in after <==> e in before || e == Fetch(index, ok)
    {
    }
  }

  /** The two traces differ only in recorded successes. */
  ghost predicate SameBesideSuccesses(a: seq<Event>, b: seq<Event>)
  {
    forall e: Event :: !e.AccessSuccess? ==> (e in a <==> e in b)
  }

  lemma {:induction false} SameReports(
      sources: seq<Source>, visits: seq<Visit>, a: seq<Event>, b: seq<Event>, results: seq<SourceResult>)
    requires |visits| == |sources| && SameBesideSuccesses(a, b) && Reports(sources, visits, a, results)
    ensures Reports(sources, visits, b, results)
  {
    hide Tells;
    forall i: nat
      ensures Fetched(a, i) <==> Fetched(b, i)
      ensures SkipJustified(sources, a, i) <==> SkipJustified(sources, b, i)
    {
    }
    hide Fetched, SkipJustified;
  }

  lemma {:induction false} SameHealth(sources: seq<Source>, a: seq<Event>, b: seq<Event>, scope: string)
    requires SameBesideSuccesses(a, b)
    ensures Healthy(sources, a, scope) <==> Healthy(sources, b, scope)
  {
  }

  lemma {:induction false} SuccessAppended(sources: seq<Source>, trace: seq<Event>, scope: string)
    requires ReservedOnce(trace) && FetchesAllowed(sources, trace)
    ensures var longer := trace + [AccessSuccess(scope)];
      && ReservedOnce(longer) && FetchesAllowed(sources, longer) && SameBesideSuccesses(trace, longer)
      && forall s :: AccessSuccess(s) in longer <==> AccessSuccess(s) in trace || s == scope
  {
    AppendedFetches(sources, trace, AccessSuccess(scope));
  }

  predicate EarnsReset(state: ScopeState)
  {
    state.reserved && !state.protectionTriggered && state.successfulFetch
  }

  /** The closing loop over the access states. */
  method ResetHealthyScopes(
      sources: seq<Source>, visits: seq<Visit>, trace: seq<Event>, states: map<string, ScopeState>)
    returns (trace': seq<Event>)
    requires Good(sources, trace, states) && Faithful(sources, visits, trace)
    ensures Faithful(sources, visits, trace')
    ensures ReservedOnce(trace') && FetchesAllowed(sources, trace') && SameBesideSuccesses(trace, trace')
    ensures forall scope :: AccessSuccess(scope) in trace' <==> Healthy(sources, trace', scope)
  {
    trace' := trace;
    var rest := states.Keys;
    forall scope: string
      ensures AccessSuccess(scope) !in trace
    {
      assert TracksScope(sources, trace, states, scope);
    }
    while rest != {}
      invariant rest <= states.Keys && Faithful(sources, visits, trace')
      invariant ReservedOnce(trace') && FetchesAllowed(sources, trace') && SameBesideSuccesses(trace, trace')
      invariant forall scope :: AccessSuccess(scope) in trace' <==> scope in states.Keys - rest && EarnsReset(states[scope])
      decreases |rest|
    {
      var scope :| scope in rest;
      if EarnsReset(states[scope]) {
        SuccessAppended(sources, trace', scope);
        FaithfulAppend(sources, visits, trace', [AccessSuccess(scope)]);
        trace' := trace' + [AccessSuccess(scope)];
      }
      rest := rest - {scope};
    }
    forall scope: string
      ensures AccessSuccess(scope) in trace' <==> Healthy(sources, trace', scope)
    {
      SameHealth(sources, trace, trace', scope);
      assert TracksScope(sources, trace, states, scope);
    }
  }

  // ----- The report -----

  datatype RunStatus = Completed | Partial | Failed

  predicate Succeeded(r: SourceResult)
  {
    !r.fetchFailed && r.processErrors == 0 && !r.skipped
  }

  function CountSucceeded(results: seq<SourceResult>): (n: nat)
    ensures n <= |results|
  {
    if results == [] then 0
    else CountSucceeded(results[..|results| - 1]) + if Succeeded(results[|results| - 1]) then 1 else 0
  }

  /** Every source is counted once, as succeeded or as failed. */
  method Summarize(results: seq<SourceResult>) returns (succeeded: nat, failed: nat, status: RunStatus)
    ensures succeeded == CountSucceeded(results) && succeeded + failed == |results|
    ensures status == Completed <==> forall r <- results :: Succeeded(r)
    ensures status == Failed <==> results != [] && forall r <- results :: !Succeeded(r)
  {
    succeeded, failed := 0, 0;
    for k := 0 to |results|
      invariant succeeded == CountSucceeded(results[..k]) && succeeded + failed == k
      invariant failed == 0 <==> forall r <- results[..k] :: Succeeded(r)
      invariant succeeded == 0 <==> forall r <- results[..k] :: !Succeeded(r)
    {
      assert results[..k + 1][..k] == results[..k] && results[..k + 1] == results[..k] + [results[k]];
      if Succeeded(results[k]) {
        succeeded := succeeded + 1;
      } else {
        failed := failed + 1;
      }
    }
    assert results[..|results|] == results;
    status := if failed == 0 then Completed else if succeeded == 0 then Failed else Partial;
  }

  /** A source went well when it was fetched, every listing ended as it should, and that was recorded. */
  ghost predicate WentWell(visits: seq<Visit>, trace: seq<Event>, index: nat)
  {
    && index < |visits| && Fetch(index, true) in trace && visits[index].fetch.Listings?
    && (forall o <- visits[index].fetch.outcomes :: o.NotRequired? || o.Saved?)
    && visits[index].recorded
  }

  /** A run is completed exactly when every source went well, and failed exactly when there are
      sources and none did. */
  method RunAndSummarize(sources: seq<Source>, visits: seq<Visit>)
    returns (results: seq<SourceResult>, trace: seq<Event>, succeeded: nat, status: RunStatus)
    requires |visits| == |sources|
    ensures status == Completed <==> forall i: nat :: i < |sources| ==> WentWell(visits, trace, i)
    ensures status == Failed <==> sources != [] && forall i: nat :: i < |sources| ==> !WentWell(visits, trace, i)
    ensures succeeded == |set i: nat | i < |sources| && WentWell(visits, trace, i)|
  {
    results, trace := Run(sources, visits);
    var failed;
    succeeded, failed, status := Summarize(results);
    forall i: nat | i < |sources|
      ensures Succeeded(results[i]) <==> WentWell(visits, trace, i)
    {
      SucceededIffWell(sources, visits, trace, results, i);
    }
    CountedIffWell(visits, trace, results);
  }

  lemma {:induction false} SucceededIffWell(
      sources: seq<Source>, visits: seq<Visit>, trace: seq<Event>, results: seq<SourceResult>, i: nat)
    requires |visits| == |sources| == |results| && i < |sources|
    requires Reports(sources, visits, trace, results) && Faithful(sources, visits, trace)
    ensures Succeeded(results[i]) <==> WentWell(visits, trace, i)
  {
    var visit := visits[i];
    assert Fetch(i, true) in trace ==> Answered(sources, visits, Fetch(i, true));
    assert Fetch(i, false) in trace ==> Answered(sources, visits, Fetch(i, false));
    if visit.fetch.Listings? {
      var outcomes := visit.fetch.outcomes;
      if k: nat :| k in ErrorsAt(outcomes) {
        assert outcomes[k] in outcomes;
        assert ErrorsAt(outcomes) != {};
      } else {
        assert ErrorsAt(outcomes) == {};
        assert forall o <- outcomes :: exists k: nat :: k < |outcomes| && outcomes[k] == o && k !in ErrorsAt(outcomes);
      }
    }
  }

  lemma {:induction false} CountedIffWell(visits: seq<Visit>, trace: seq<Event>, results: seq<SourceResult>)
    requires forall i: nat :: i < |results| ==> (Succeeded(results[i]) <==> WentWell(visits, trace, i))
    ensures CountSucceeded(results) == |set i: nat | i < |results| && WentWell(visits, trace, i)|
  {
    var well := set i: nat | i < |results| && WentWell(visits, trace, i);
    if results == [] {
      assert well == {};
    } else {
      var n := |results| - 1;
      CountedIffWell(visits, trace, results[..n]);
      var before := set i: nat | i < n && WentWell(visits, trace, i);
      assert well == before + if WentWell(visits, trace, n) then {n} else {};
    }
  }
}
