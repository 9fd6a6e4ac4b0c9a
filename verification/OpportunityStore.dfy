/** The opportunity tables as the repository updates them in place (internal/store/sqlite.go,
    internal/store/reassess.go).  Each public method takes one step of
    Opportunities.Step; start-up reconciliation commits after every listing, the others once. */
module OpportunityStore {
  import opened Wrappers
  import opened Text
  import opened Opportunities
  import M = Matcher
  import Reconciliation
  import TimeText

  lemma {:induction false} ItemsStep(s: State, order: seq<ListingId>, i: nat, items: seq<ListingId>)
    requires i < |order| && items + Items(s, order[i..]) == Items(s, order)
    ensures var next := if order[i] in s.analyses && s.analyses[order[i]].processed then items + [order[i]] else items;
      next + Items(s, order[i + 1..]) == Items(s, order)
  {
    var rest := Items(s, order[i + 1..]);
    assert order[i..][1..] == order[i + 1..];
    if order[i] in s.analyses && s.analyses[order[i]].processed {
      assert Items(s, order[i..]) == [order[i]] + rest;
      assert items + ([order[i]] + rest) == items + [order[i]] + rest;
    } else {
      assert Items(s, order[i..]) == [] + rest == rest;
    }
  }

  lemma {:induction false} NoItems(s: State)
    ensures Items(s, []) == []
  {
  }

  ghost function Members(membership: map<ListingId, OppId>, o: OppId): set<ListingId>
  {
    set l | l in membership && membership[l] == o
  }

  lemma {:induction false} SharedIff(s: State, l: ListingId)
    requires Tables(s) && l in s.listings
    ensures |Members(s.membership, s.membership[l])| > 1 <==> FirstOther(s, l, s.order).Some?
  {
    AloneIff(s, l);
    hide NoDuplicates;
    var members := Members(s.membership, s.membership[l]);
    var others := members - {l};
    assert members == others + {l};
    if others != {} {
      var k :| k in others;
      assert IsOther(s, l, k);
    }
    if !Alone(s, l) {
      var k :| IsOther(s, l, k);
      assert k in others;
    }
  }

  lemma {:induction false} AloneResolves(t: Chars, s: State, l: ListingId, location: string, auto: seq<OppId>)
    requires Tables(s) && l in s.listings && FirstOther(s, l, s.order).None?
    requires var c := AutoCandidates(t, Refreshed(t, s, l, IdentityAt(s, l, location)), l, IdentityAt(s, l, location));
      |auto| == |c| && forall o :: o in auto <==> o in c
    ensures var refreshed := Refreshed(t, s, l, IdentityAt(s, l, location));
      Resolved(t, s, l, location) == if |auto| == 1 then Merging(refreshed, l, auto[0]) else refreshed
  {
    SameCandidates(t, s, l, IdentityAt(s, l, location));
    hide Resolved, Refreshed, Merging, AutoCandidates, Tables, FirstOther;
    if |auto| == 1 {
      assert auto[0] in auto;
      Reconciliation.OnlyElement(AutoCandidates(t, s, l, IdentityAt(s, l, location)), auto[0]);
      LonelyJoins(t, s, l, location, auto[0]);
    } else {
      LonelyStays(t, s, l, location);
    }
  }

  // ----- Invalidating row by row -----

  /** The rows that an invalidation marks pending. */
  ghost function Stale(s: State, provider: string): set<ListingId>
  {
    set l | l in s.analyses && Invalidates(s.analyses[l], provider)
  }

  /** The analyses when the rest is still to be visited. */
  ghost function InvalidatedBut(s: State, provider: string, rest: set<ListingId>): map<ListingId, Analysis>
  {
    map l | l in s.analyses :: if l in rest then s.analyses[l] else Invalidated(s, provider).analyses[l]
  }

  lemma {:induction false} InvalidatedRows(s: State, provider: string)
    ensures InvalidatedBut(s, provider, s.analyses.Keys) == s.analyses
    ensures Invalidated(s, provider) == s.(analyses := InvalidatedBut(s, provider, {}))
    ensures Stale(s, provider) - s.analyses.Keys == {}
  {
    assert InvalidatedBut(s, provider, {}) == Invalidated(s, provider).analyses;
  }

  lemma {:induction false} InvalidatedRow(s: State, provider: string, rest: set<ListingId>, l: ListingId)
    requires l in rest && rest <= s.analyses.Keys
    ensures var before, after := InvalidatedBut(s, provider, rest), InvalidatedBut(s, provider, rest - {l});
      && l in before && before[l] == s.analyses[l]
      && after == (if Invalidates(before[l], provider)
                   then before[l := before[l].(processed := false, retries := 0)] else before)
  {
    hide Invalidates;
  }

  lemma {:induction false} StaleRow(s: State, provider: string, rest: set<ListingId>, l: ListingId)
    requires l in rest && rest <= s.analyses.Keys
    ensures |Stale(s, provider) - (rest - {l})| ==
      |Stale(s, provider) - rest| + if Invalidates(s.analyses[l], provider) then 1 else 0
  {
    hide Invalidates;
    var seen := Stale(s, provider) - rest;
    assert l in Stale(s, provider) <==> Invalidates(s.analyses[l], provider);
    hide Stale;
    if Invalidates(s.analyses[l], provider) {
      assert Stale(s, provider) - (rest - {l}) == seen + {l};
    } else {
      assert Stale(s, provider) - (rest - {l}) == seen;
    }
  }

  // ----- What each transaction is, given the invariant -----

  lemma {:induction false} UpsertIs(t: Chars, s: State, source: string, company: string, url: string, title: string, position: nat)
    requires Inv(s) && position <= |s.order|
    ensures Tables(s)
    ensures var s' := Step(t, s, Upsert(source, company, url, title, position));
      && Inv(s')
      && s' == if Accepts(t, s, source, company, title)
               then Upserted(t, s, source, ListingId(company, url), title, position) else s
  {
    StepKeeps(t, s, Upsert(source, company, url, title, position));
    hide Upserted, Accepts;
  }

  lemma {:induction false} SaveIs(t: Chars, s: State, l: ListingId, input: AnalysisInput)
    requires Inv(s)
    ensures Tables(s) && Inv(Step(t, s, Save(l, input)))
    ensures !(l in s.listings && input.valid) ==> Step(t, s, Save(l, input)) == s
    ensures l in s.listings ==>
      var analyzed := Analyzed(s, l, input);
      && Tables(analyzed) && l in analyzed.listings
      && var resolved := Resolved(t, analyzed, l, input.location);
        && Tables(resolved) && l in resolved.listings
        && (input.valid ==> Step(t, s, Save(l, input)) == Announced(resolved, l, input.strong, FirstSuccess(s, l)))
  {
    StepKeeps(t, s, Save(l, input));
    hide Resolved, Announced, OwnRows, Homes, Announcements, NoDuplicates;
    if l in s.listings {
      AnalyzedTables(s, l, input);
      ResolveKeepsTables(t, Analyzed(s, l, input), l, input.location);
      hide Tables;
    }
  }

  lemma {:induction false} FailIs(t: Chars, s: State, l: ListingId, provider: string)
    requires Inv(s)
    ensures Tables(s)
    ensures var s' := Step(t, s, Fail(l, provider));
      Inv(s') && s' == if l in s.listings && provider != "" then Failing(s, l, provider) else s
  {
    StepKeeps(t, s, Fail(l, provider));
    hide Failing;
  }

  lemma {:induction false} InvalidateIs(t: Chars, s: State, provider: string)
    requires Inv(s)
    ensures Tables(s)
    ensures var s' := Step(t, s, Invalidate(provider)); Inv(s') && s' == Invalidated(s, provider)
  {
    StepKeeps(t, s, Invalidate(provider));
    hide Invalidated;
  }

  lemma {:induction false} ReconcileIs(t: Chars, s: State)
    requires Inv(s)
    ensures Tables(s) && forall l <- Items(s, s.order) :: l in s.listings
    ensures var s' := Step(t, s, Reconcile); Inv(s') && s' == ReconciledOver(t, s, Items(s, s.order))
  {
    hide ReconciledOver, OwnRows, Homes, Announcements;
    StepKeeps(t, s, Reconcile);
  }

  lemma {:induction false} CandidatesAreRows(t: Chars, s: State, l: ListingId, identity: M.Identity)
    requires l in s.membership
    ensures AutoCandidates(t, s, l, identity) <= s.opportunities.Keys
  {
    hide M.Evaluate;
  }

  lemma {:induction false} CandidateIff(t: Chars, s: State, l: ListingId, identity: M.Identity, o: OppId)
    requires l in s.membership && o in s.opportunities
    ensures o in AutoCandidates(t, s, l, identity) <==>
      && o != s.membership[l] && s.opportunities[o].active && s.opportunities[o].company == l.company
      && M.Evaluate(t, identity, s.opportunities[o].identity).outcome == M.AutoMerge
  {
    hide M.Evaluate;
  }

  // ----- What is refused -----

  datatype Registration = Registration(
    key: string, company: string, priority: string, trackingPhase: string, reasonCode: string,
    kind: string, adapter: string, url: string, urlIsValid: bool,
    mode: string, scope: string, minimumInterval: int, baseCooldown: int, maximumCooldown: int,
    enabled: bool, strategy: string, trackingStatus: string, coverage: string, trust: string)

  function PriorityOf(text: string): Option<Priority>
  {
    match text
    case "primary" => Some(Primary)
    case "secondary" => Some(Secondary)
    case "candidate" => Some(Candidate)
    case _ => None
  }

  /** A blank trust level means an aggregator. */
  function TrustOf(t: Chars, text: string): Option<Trust>
  {
    match Trim(text, t.space)
    case "official_company" => Some(OfficialCompany)
    case "official_ats" => Some(OfficialAts)
    case "verified_newsletter" => Some(VerifiedNewsletter)
    case "" => Some(Aggregator)
    case "aggregator" => Some(Aggregator)
    case _ => None
  }

  const REASON_CODES := {"account_required", "third_party_restricted", "no_public_job_source",
                         "client_rendered_unverified", "periodic_program", "source_unreachable"}

  const COVERAGE := {"automatic", "feed", "manual", "researching", "broken"}

  const TRACKING := {"", "active", "manual", "paused"}

  predicate AccessIsValid(t: Chars, r: Registration)
  {
    match Trim(r.mode, t.space)
    case "" => true
    case "legacy" => true
    case "manual_only" => !r.enabled && r.adapter == "manual" && r.strategy == "manual" && r.trackingStatus == "manual"
    case mode =>
      (mode == "robots" || mode == "public_api") && !Blank(t, r.scope) && r.minimumInterval > 0
      && r.baseCooldown > 0 && r.maximumCooldown >= r.baseCooldown
  }

  predicate Registrable(t: Chars, r: Registration)
  {
    && !Blank(t, r.key) && !Blank(t, r.company) && PriorityOf(r.priority).Some?
    && (r.trackingPhase == "" || r.trackingPhase == "16.5")
    && (r.reasonCode == "" || r.reasonCode in REASON_CODES)
    && !Blank(t, r.kind) && !Blank(t, r.adapter) && r.urlIsValid
    && AccessIsValid(t, r)
    && (Blank(t, r.coverage) || Trim(r.coverage, t.space) in COVERAGE)
    && TrustOf(t, r.trust).Some?
    && Trim(r.trackingStatus, t.space) in TRACKING
  }

  /** Another source of the company has the address already. */
  predicate UrlIsTaken(sources: map<string, Source>, urls: map<string, string>, r: Registration)
  {
    exists k <- sources :: k != r.key && sources[k].company == r.company && k in urls && urls[k] == r.url
  }

  /** Every source has an address, and no two of a company share one. */
  ghost predicate OwnUrls(sources: map<string, Source>, urls: map<string, string>)
  {
    && urls.Keys == sources.Keys
    && forall j, k :: j in sources && k in sources && j != k && sources[j].company == sources[k].company ==> urls[j] != urls[k]
  }

  /** A program window as it is submitted; the dates are instants from year 1 on. */
  datatype Window = Window(key: string, company: string, name: string, kind: string, urlIsValid: bool,
                           status: string, opensAt: Option<nat>, closesAt: Option<nat>)

  /** The dates are compared as instants and again as stored texts. */
  predicate Acceptable(t: Chars, w: Window)
  {
    && !Blank(t, w.key) && !Blank(t, w.company) && !Blank(t, w.name) && !Blank(t, w.kind) && w.urlIsValid
    && w.status in {"open", "closed", "unknown"}
    && (w.opensAt.Some? && w.closesAt.Some? ==>
          w.opensAt.value <= w.closesAt.value && TimeText.StoredAtOrBefore(w.opensAt.value, w.closesAt.value))
  }

  /** Dates in order are refused exactly when their texts sort the wrong way round. */
  lemma {:induction false} OrderedDatesAcceptedIff(a: nat, b: nat)
    requires a <= b
    ensures TimeText.StoredAtOrBefore(a, b) <==> a == b || !TimeText.Inverted(a, b)
  {
    hide TimeText.Text, TimeText.LexLess;
    if a == b { NotBeforeItself(TimeText.Text(a)); } else { TimeText.TextOrderIff(a, b); }
  }

  lemma {:induction false} NotBeforeItself(text: string)
    ensures !TimeText.LexLess(text, text)
  {
    if TimeText.LexLess(text, text) { TimeText.LexAsymmetric(text, text); }
  }

  class Repository {
    const t: Chars
    var companies: map<string, Priority>
    var sources: map<string, Source>
    var urls: map<string, string>
    var order: seq<ListingId>
    var listings: map<ListingId, Listing>
    var opportunities: map<OppId, Opportunity>
    var membership: map<ListingId, OppId>
    var analyses: map<ListingId, Analysis>
    var notifications: seq<Notification>

    ghost function View(): State
      reads this
    {
      State(companies, sources, order, listings, opportunities, membership, analyses, notifications)
    }

    ghost predicate Valid()
      reads this
    {
      Inv(View()) && OwnUrls(sources, urls)
    }

    constructor (t: Chars)
      ensures Valid() && View() == EMPTY && urls == map[] && this.t == t
    {
      this.t := t;
      companies, sources, urls, order, listings := map[], map[], map[], [], map[];
      opportunities, membership, analyses, notifications := map[], map[], map[], [];
    }

    method RegisterSource(r: Registration) returns (ok: bool)
      requires Valid()
      modifies this`companies, this`sources, this`urls
      ensures ok <==> Registrable(t, r) && !UrlIsTaken(old(sources), old(urls), r)
      ensures urls == if ok then old(urls)[r.key := r.url] else old(urls)
      ensures Valid() && View() ==
        if ok then Step(t, old(View()), Register(r.key, r.company, PriorityOf(r.priority).value, TrustOf(t, r.trust).value))
        else old(View())
    {
      hide Blank, AccessIsValid, TrustOf, PriorityOf, Inv;
      if !Registrable(t, r) || UrlIsTaken(sources, urls, r) { return false; }
      var priority, trust := PriorityOf(r.priority).value, TrustOf(t, r.trust).value;
      hide Registrable;
      StepKeeps(t, View(), Register(r.key, r.company, priority, trust));
      companies := companies[r.company := priority];
      sources := sources[r.key := Source(r.company, trust)];
      urls := urls[r.key := r.url];
      return true;
    }

    method RegisterProgramWindow(w: Window) returns (ok: bool)
      requires Valid()
      modifies this`opportunities
      ensures ok <==> Acceptable(t, w) && w.company in old(companies)
      ensures Valid() && View() ==
        if ok then Step(t, old(View()), RegisterProgram(Trim(w.key, t.space), w.company, Trim(w.name, t.space)))
        else old(View())
    {
      var key, name := Trim(w.key, t.space), Trim(w.name, t.space);
      StepKeeps(t, View(), RegisterProgram(key, w.company, name));
      hide M.NormalizeTitle, Inv, Acceptable, Trim;
      if !Acceptable(t, w) || w.company !in companies { return false; }
      var row := Opportunity(w.company, M.Identity(M.NormalizeTitle(t, name), ""), true);
      if Program(key) in opportunities {
        row := row.(identity := opportunities[Program(key)].identity.(title := M.NormalizeTitle(t, name)));
      }
      opportunities := opportunities[Program(key) := row];
      return true;
    }

    /** canonical is the listing's canonical URL, none when it has no acceptable one. */
    method UpsertRawListing(source: string, company: string, canonical: Option<string>, title: string, position: nat)
      returns (r: Result<(ListingId, bool), ()>)
      requires Valid() && position <= |order|
      modifies this`order, this`listings, this`opportunities, this`membership
      ensures r.Ok? <==> canonical.Some? && Accepts(t, old(View()), source, company, title)
      ensures r.Ok? ==> r.value == (ListingId(company, canonical.value), ListingId(company, canonical.value) !in old(listings))
      ensures Valid() && View() ==
        if canonical.Some? then Step(t, old(View()), Upsert(source, company, canonical.value, title, position)) else old(View())
    {
      ghost var s := View();
      hide M.NormalizeTitle, Inv, Tables, Trim, Step;
      if canonical.None? { return Err(()); }
      UpsertIs(t, s, source, company, canonical.value, title, position);
      if Blank(t, company) || Blank(t, source) || Blank(t, title) { return Err(()); }
      if source !in sources || sources[source].company != company || company !in companies { return Err(()); }
      var l := ListingId(company, canonical.value);
      var isNew := l !in listings;
      if isNew {
        order := order[..position] + [l] + order[position..];
        opportunities := opportunities[Own(l) := Opportunity(company, M.Identity(M.NormalizeTitle(t, title), ""), true)];
        membership := membership[l := Own(l)];
      }
      listings := listings[l := Listing(source, title)];
      return Ok((l, isNew));
    }

    // ----- Resolving -----

    method CountMembers(o: OppId) returns (count: nat)
      ensures count == |Members(membership, o)|
    {
      count := 0;
      var rest := membership.Keys;
      while rest != {}
        invariant rest <= membership.Keys
        invariant count == |Members(membership, o) - rest|
        decreases |rest|
      {
        var l :| l in rest;
        ghost var seen := Members(membership, o) - rest;
        if membership[l] == o {
          count := count + 1;
          assert Members(membership, o) - (rest - {l}) == seen + {l};
        } else {
          assert Members(membership, o) - (rest - {l}) == seen;
        }
        rest := rest - {l};
      }
      assert Members(membership, o) - {} == Members(membership, o);
    }

    /** The earliest other member in first-seen order. */
    method ComparisonMember(l: ListingId) returns (other: Option<ListingId>)
      ensures other == FirstOther(View(), l, order)
    {
      for i := 0 to |order|
        invariant FirstOther(View(), l, order) == FirstOther(View(), l, order[i..])
      {
        if order[i] != l && l in membership && order[i] in membership && membership[order[i]] == membership[l] {
          return Some(order[i]);
        }
      }
      other := None;
    }

    /** The listing's notifications follow it to its new opportunity. */
    method MoveNotifications(l: ListingId, o: OppId)
      modifies this`notifications
      ensures notifications == Relinked(old(notifications), l, o)
    {
      for i := 0 to |notifications|
        invariant |notifications| == |old(notifications)|
        invariant forall j :: 0 <= j < i ==> notifications[j] == Relinked(old(notifications), l, o)[j]
        invariant forall j :: i <= j < |notifications| ==> notifications[j] == old(notifications)[j]
      {
        if notifications[i].listing == l {
          notifications := notifications[i := notifications[i].(opportunity := o)];
        }
      }
    }

    method SplitOpportunity(l: ListingId, identity: M.Identity) returns (target: OppId)
      requires l in membership
      modifies this`opportunities, this`membership, this`notifications
      ensures View() == Splitting(t, old(View()), l, identity) && target == membership[l]
    {
      hide M.Normal, Relinked;
      var normal := M.Normal(t, identity);
      target := Own(l);
      if target == membership[l] {
        target := SplitOff(l, normal.title, normal.location);
      }
      var row := Opportunity(l.company, normal, true);
      if target in opportunities {
        row := opportunities[target].(identity := normal, active := true);
      }
      opportunities := opportunities[target := row];
      membership := membership[l := target];
      MoveNotifications(l, target);
    }

    /** The rows the listing merges with, collected in the order the query happens to return them. */
    method CollectAutoCandidates(l: ListingId, identity: M.Identity) returns (auto: seq<OppId>)
      requires l in membership
      ensures |auto| == |AutoCandidates(t, View(), l, identity)|
      ensures forall o :: o in auto <==> o in AutoCandidates(t, View(), l, identity)
    {
      hide M.Evaluate, AutoCandidates;
      auto := [];
      var rest := opportunities.Keys;
      ghost var s := View();
      ghost var all := AutoCandidates(t, s, l, identity);
      assert all - rest == {} by { CandidatesAreRows(t, s, l, identity); }
      while rest != {}
        invariant rest <= opportunities.Keys
        invariant |auto| == |all - rest|
        invariant forall o :: o in auto <==> o in all - rest
        decreases |rest|
      {
        var o :| o in rest;
        ghost var seen := all - rest;
        var row := opportunities[o];
        CandidateIff(t, s, l, identity, o);
        if o != membership[l] && row.active && row.company == l.company
           && M.Evaluate(t, identity, row.identity).outcome == M.AutoMerge {
          auto := auto + [o];
          assert all - (rest - {o}) == seen + {o};
        } else {
          assert all - (rest - {o}) == seen;
        }
        rest := rest - {o};
      }
      assert all - {} == all;
    }

    method MergeListing(l: ListingId, into: OppId)
      requires l in membership && membership[l] in opportunities
      modifies this`opportunities, this`membership, this`notifications
      ensures View() == Merging(old(View()), l, into) && membership[l] == into
    {
      var current := membership[l];
      membership := membership[l := into];
      MoveNotifications(l, into);
      opportunities := opportunities[current := opportunities[current].(active := false)];
    }

    /** A shared opportunity is left when its earliest other member no longer fits. */
    method LeaveUnlessFitting(l: ListingId, location: string)
      requires Tables(View()) && l in listings && FirstOther(View(), l, order).Some?
      modifies this`opportunities, this`membership, this`notifications
      ensures View() == Resolved(t, old(View()), l, location)
    {
      ghost var s := View();
      SharedResolves(t, s, l, location);
      hide M.Evaluate, Splitting, Resolved, FirstOther, NoDuplicates;
      var identity := M.Identity(listings[l].title, location);
      var other := ComparisonMember(l);
      var k := other.value;
      var otherLocation := if k in analyses then analyses[k].location else "";
      var decision := M.Evaluate(t, identity, M.Identity(listings[k].title, otherLocation));
      if decision.outcome == M.Separate {
        var target := SplitOpportunity(l, identity);
      }
    }

    /** A listing alone in its opportunity refreshes it and joins its only candidate, if it has one. */
    method JoinOnlyCandidate(l: ListingId, location: string)
      requires Tables(View()) && l in listings && FirstOther(View(), l, order).None?
      modifies this`opportunities, this`membership, this`notifications
      ensures View() == Resolved(t, old(View()), l, location)
    {
      ghost var s := View();
      var current := membership[l];
      assert current in opportunities;
      hide M.Evaluate, M.Normal, AutoCandidates, Merging, Resolved, FirstOther, Tables;
      var identity := M.Identity(listings[l].title, location);
      opportunities := opportunities[current := opportunities[current].(identity := M.Normal(t, identity), active := true)];
      assert View() == Refreshed(t, s, l, identity);
      hide Refreshed;
      var auto := CollectAutoCandidates(l, identity);
      AloneResolves(t, s, l, location, auto);
      if |auto| == 1 {
        MergeListing(l, auto[0]);
      }
    }

    method ResolveOpportunity(l: ListingId, location: string) returns (home: OppId)
      requires Tables(View()) && l in listings
      modifies this`opportunities, this`membership, this`notifications
      ensures Tables(View()) && SameListings(old(View()), View())
      ensures View() == Resolved(t, old(View()), l, location) && home == membership[l]
    {
      ResolveKeepsTables(t, View(), l, location);
      SharedIff(View(), l);
      hide Resolved, FirstOther, Members, NoDuplicates;
      var memberCount := CountMembers(membership[l]);
      if memberCount > 1 {
        LeaveUnlessFitting(l, location);
      } else {
        JoinOnlyCandidate(l, location);
      }
      return membership[l];
    }

    // ----- Analyses and notifications -----

    method EnqueueListingNotification(l: ListingId, strong: bool, first: bool)
      requires Tables(View()) && l in listings
      modifies this`notifications
      ensures View() == Announced(old(View()), l, strong, first)
    {
      var o := membership[l];
      if sources[listings[l].source].trust == Aggregator { return; }
      var event := NewListingNotification(o, l, companies[l.company], strong, first);
      if event.None? { return; }
      var alreadyNotified := exists n <- notifications :: n.opportunity == o;
      if alreadyNotified { return; }
      var conflict := exists n <- notifications :: n.key == event.value.key;
      if !conflict {
        notifications := notifications + [event.value];
      }
    }

    method StoreAnalysis(l: ListingId, input: AnalysisInput) returns (first: bool)
      modifies this`analyses
      ensures View() == Analyzed(old(View()), l, input) && first == FirstSuccess(old(View()), l)
    {
      first := l !in analyses || !analyses[l].everProcessed;
      var retries := if l in analyses then analyses[l].retries else 0;
      var provider := if input.provider == "" then "deterministic" else input.provider;
      analyses := analyses[l := Analysis(input.location, provider, true, true, retries)];
    }

    /** An analysis of an unknown listing or with invalid numbers is refused and changes nothing. */
    method SaveAnalysis(l: ListingId, input: AnalysisInput) returns (ok: bool)
      requires Valid()
      modifies this`analyses, this`opportunities, this`membership, this`notifications
      ensures ok <==> l in old(listings) && input.valid
      ensures Valid() && View() == Step(t, old(View()), Save(l, input.(provider := Trim(input.provider, t.space))))
    {
      hide Resolved, Announced, Inv, Tables, Step, AnalysisSaved, Analyzed, FirstSuccess, Trim;
      var trimmed := input.(provider := Trim(input.provider, t.space));
      SaveIs(t, View(), l, trimmed);
      if l !in listings || !input.valid { return false; }
      var first := StoreAnalysis(l, trimmed);
      var home := ResolveOpportunity(l, input.location);
      EnqueueListingNotification(l, input.strong, first);
      return true;
    }

    /** A failure needs a known listing, a provider and a reason. */
    method SaveAnalysisFailure(l: ListingId, provider: string, reason: string) returns (ok: bool)
      requires Valid()
      modifies this`analyses
      ensures ok <==> l in old(listings) && !Blank(t, provider) && !Blank(t, reason)
      ensures Valid() && View() == if ok then Step(t, old(View()), Fail(l, Trim(provider, t.space))) else old(View())
    {
      ghost var s := View();
      hide Inv, Tables, Step, Trim;
      var trimmed := Trim(provider, t.space);
      FailIs(t, s, l, trimmed);
      if trimmed == "" || Blank(t, reason) || l !in listings { return false; }
      if l in analyses {
        var row := analyses[l];
        analyses := analyses[l := row.(provider := trimmed, processed := false, retries := row.retries + 1)];
      } else {
        analyses := analyses[l := Analysis("", trimmed, false, false, 1)];
      }
      return true;
    }

    /** How many rows were marked pending. */
    method InvalidateProcessedAnalyses(anyProvider: string) returns (rows: nat)
      requires Valid()
      modifies this`analyses
      ensures rows == |Stale(old(View()), Trim(anyProvider, t.space))|
      ensures Valid() && View() == Step(t, old(View()), Invalidate(Trim(anyProvider, t.space)))
    {
      var provider := Trim(anyProvider, t.space);
      ghost var s := View();
      hide Inv, Tables, Step, Stale, Invalidated, InvalidatedBut, Invalidates, Trim;
      InvalidateIs(t, s, provider);
      rows := 0;
      var rest := analyses.Keys;
      InvalidatedRows(s, provider);
      while rest != {}
        invariant rest <= s.analyses.Keys
        invariant rows == |Stale(s, provider) - rest|
        invariant analyses == InvalidatedBut(s, provider, rest)
        decreases |rest|
      {
        var l :| l in rest;
        InvalidatedRow(s, provider, rest, l);
        StaleRow(s, provider, rest, l);
        if Invalidates(analyses[l], provider) {
          analyses := analyses[l := analyses[l].(processed := false, retries := 0)];
          rows := rows + 1;
        }
        rest := rest - {l};
      }
      assert Stale(s, provider) - {} == Stale(s, provider);
    }

    // ----- Start-up reconciliation -----

    method AnalyzedListings() returns (items: seq<ListingId>)
      ensures items == Items(View(), order)
    {
      hide Items;
      items := [];
      ghost var s := View();
      assert order[0..] == order;
      for i := 0 to |order|
        invariant items + Items(s, order[i..]) == Items(s, order)
      {
        ItemsStep(s, order, i, items);
        if order[i] in analyses && analyses[order[i]].processed {
          items := items + [order[i]];
        }
      }
      assert order[|order|..] == [] && Items(s, []) == [] by { NoItems(s); }
    }

    method ReconcileOpportunities()
      requires Valid()
      modifies this`opportunities, this`membership, this`notifications
      ensures Valid() && View() == Step(t, old(View()), Reconcile)
    {
      ghost var s := View();
      hide Resolved, Tables, Inv, Step, Items;
      ReconcileIs(t, s);
      var items := AnalyzedListings();
      assert items[0..] == items;
      for i := 0 to |items|
        invariant Tables(View()) && SameListings(s, View())
        invariant forall l <- items :: l in listings
        invariant forall l <- items[i..] :: l in items
        invariant ReconciledOver(t, View(), items[i..]) == ReconciledOver(t, s, items)
      {
        var l := items[i];
        assert items[i..][0] == l && items[i..][1..] == items[i + 1..];
        var location := if l in analyses then analyses[l].location else "";
        var home := ResolveOpportunity(l, location);
      }
    }
  }
}
