/** Opportunity identity: how listings are grouped into canonical opportunities, regrouped when an
    analysis changes, and announced at most once (internal/store/sqlite.go, internal/store/reassess.go,
    internal/domain/notification.go).

    A listing id is the hash of company and canonical URL and an opportunity id a hash of what its
    constructor holds; hashes are taken as injective.  Every transition is one SQLite transaction. */
module Opportunities {
  import opened Wrappers
  import opened Text
  import M = Matcher

  datatype ListingId = ListingId(company: string, url: string)

  datatype OppId = Own(listing: ListingId) | SplitOff(listing: ListingId, title: string, location: string) | Program(key: string)

  datatype Trust = OfficialCompany | OfficialAts | VerifiedNewsletter | Aggregator

  datatype Priority = Primary | Secondary | Candidate

  datatype Source = Source(company: string, trust: Trust)

  datatype Listing = Listing(source: string, title: string)

  datatype Opportunity = Opportunity(company: string, identity: M.Identity, active: bool)

  /** everProcessed is whether first_processed_at is set. */
  datatype Analysis = Analysis(location: string, provider: string, processed: bool, everProcessed: bool, retries: nat)

  /** There is a single event type; the deduplication key is built from the opportunity notified. */
  datatype Notification = Notification(listing: ListingId, opportunity: OppId, key: OppId)

  /** order lists the listings by first_seen_at and id. */
  datatype State = State(
    companies: map<string, Priority>,
    sources: map<string, Source>,
    order: seq<ListingId>,
    listings: map<ListingId, Listing>,
    opportunities: map<OppId, Opportunity>,
    membership: map<ListingId, OppId>,
    analyses: map<ListingId, Analysis>,
    notifications: seq<Notification>)

  const EMPTY := State(map[], map[], [], map[], map[], map[], map[], [])

  /** What an analysis brings: valid is whether its usage and assessment pass validation, strong
      whether the assessment, after the trusted-source promotion, asks for a push notification. */
  datatype AnalysisInput = AnalysisInput(location: string, provider: string, valid: bool, strong: bool)

  // ----- Tables fit together -----

  ghost predicate NoDuplicates<T>(s: seq<T>)
  {
    forall i, j :: 0 <= i < j < |s| ==> s[i] != s[j]
  }

  ghost predicate Tables(s: State)
  {
    && NoDuplicates(s.order)
    && (forall l :: l in s.order <==> l in s.listings)
    && (forall l :: l in s.membership <==> l in s.listings)
    && (forall l <- s.listings :: l.company in s.companies && s.listings[l].source in s.sources)
    && (forall l <- s.listings :: s.membership[l] in s.opportunities && Own(l) in s.opportunities)
    && (forall l <- s.analyses :: l in s.listings)
  }

  // ----- Resolving one listing -----

  function LocationOf(s: State, l: ListingId): string
  {
    if l in s.analyses then s.analyses[l].location else ""
  }

  function IdentityAt(s: State, l: ListingId, location: string): M.Identity
    requires l in s.listings
  {
    M.Identity(s.listings[l].title, location)
  }

  predicate IsOther(s: State, l: ListingId, k: ListingId)
  {
    k != l && l in s.membership && k in s.membership && s.membership[k] == s.membership[l]
  }

  /** The earliest other listing of l's opportunity among the given ones. */
  function FirstOther(s: State, l: ListingId, among: seq<ListingId>): (r: Option<ListingId>)
    ensures r.Some? ==> r.value in among && IsOther(s, l, r.value)
    ensures r.None? ==> forall k <- among :: !IsOther(s, l, k)
  {
    if among == [] then None
    else if IsOther(s, l, among[0]) then Some(among[0])
    else FirstOther(s, l, among[1..])
  }

  function Relinked(ns: seq<Notification>, l: ListingId, o: OppId): (r: seq<Notification>)
    ensures |r| == |ns|
  {
    seq(|ns|, i requires 0 <= i < |ns| => if ns[i].listing == l then ns[i].(opportunity := o) else ns[i])
  }

  /** Moves a listing and its notifications to another opportunity. */
  function Moved(s: State, l: ListingId, o: OppId): State
  {
    s.(membership := s.membership[l := o], notifications := Relinked(s.notifications, l, o))
  }

  function SplitTarget(t: Chars, s: State, l: ListingId, identity: M.Identity): OppId
    requires l in s.membership
  {
    if s.membership[l] != Own(l) then Own(l)
    else var n := M.Normal(t, identity); SplitOff(l, n.title, n.location)
  }

  /** Gives the listing an opportunity of its own id, creating or reactivating the row. */
  function Splitting(t: Chars, s: State, l: ListingId, identity: M.Identity): State
    requires l in s.membership
  {
    var target := SplitTarget(t, s, l, identity);
    var row := if target in s.opportunities
               then s.opportunities[target].(identity := M.Normal(t, identity), active := true)
               else Opportunity(l.company, M.Normal(t, identity), true);
    Moved(s.(opportunities := s.opportunities[target := row]), l, target)
  }

  /** The other active opportunities of the listing's company that it merges with automatically. */
  function AutoCandidates(t: Chars, s: State, l: ListingId, identity: M.Identity): set<OppId>
    requires l in s.membership
  {
    set o <- s.opportunities |
      && o != s.membership[l]
      && s.opportunities[o].active
      && s.opportunities[o].company == l.company
      && M.Evaluate(t, identity, s.opportunities[o].identity).outcome == M.AutoMerge
  }

  function Refreshed(t: Chars, s: State, l: ListingId, identity: M.Identity): State
    requires l in s.membership && s.membership[l] in s.opportunities
  {
    var current := s.membership[l];
    s.(opportunities := s.opportunities[current := s.opportunities[current].(identity := M.Normal(t, identity), active := true)])
  }

  function Merging(s: State, l: ListingId, into: OppId): State
    requires l in s.membership && s.membership[l] in s.opportunities
  {
    var current := s.membership[l];
    Moved(s.(opportunities := s.opportunities[current := s.opportunities[current].(active := false)]), l, into)
  }

  /** A shared opportunity is left when the listing no longer fits its earliest other member; a
      listing alone in its opportunity joins the only candidate it merges with, if there is just
      one. */
  ghost function Resolved(t: Chars, s: State, l: ListingId, location: string): State
    requires Tables(s) && l in s.listings
  {
    var identity := IdentityAt(s, l, location);
    var other := FirstOther(s, l, s.order);
    if other.Some? then
      var k := other.value;
      if M.Evaluate(t, identity, IdentityAt(s, k, LocationOf(s, k))).outcome == M.Separate
      then Splitting(t, s, l, identity)
      else s
    else
      var candidates := AutoCandidates(t, s, l, identity);
      var refreshed := Refreshed(t, s, l, identity);
      if |candidates| == 1 then var o :| o in candidates; Merging(refreshed, l, o) else refreshed
  }

  // ----- Notification -----

  predicate Trusted(trust: Trust) { trust != Aggregator }

  /** The event for a listing's first successful analysis, if it deserves one. */
  function NewListingNotification(o: OppId, l: ListingId, priority: Priority, strong: bool, first: bool): Option<Notification>
  {
    if first && strong && priority != Candidate then Some(Notification(l, o, o)) else None
  }

  ghost function Announced(s: State, l: ListingId, strong: bool, first: bool): State
    requires Tables(s) && l in s.listings
  {
    var o := s.membership[l];
    var event := NewListingNotification(o, l, s.companies[l.company], strong, first);
    if !Trusted(s.sources[s.listings[l].source].trust) || event.None? then s
    else if exists n <- s.notifications :: n.opportunity == o then s
    else if exists n <- s.notifications :: n.key == event.value.key then s
    else s.(notifications := s.notifications + [event.value])
  }

  // ----- The transitions -----

  function Registered(s: State, key: string, company: string, priority: Priority, trust: Trust): State
  {
    s.(companies := s.companies[company := priority], sources := s.sources[key := Source(company, trust)])
  }

  function ProgramRow(t: Chars, s: State, key: string, company: string, name: string): Opportunity
  {
    if Program(key) in s.opportunities
    then
      var row := s.opportunities[Program(key)];
      row.(company := company, identity := row.identity.(title := M.NormalizeTitle(t, name)), active := true)
    else Opportunity(company, M.Identity(M.NormalizeTitle(t, name), ""), true)
  }

  function ProgramProjected(t: Chars, s: State, key: string, company: string, name: string): State
  {
    s.(opportunities := s.opportunities[Program(key) := ProgramRow(t, s, key, company, name)])
  }

  /** position is where first_seen_at and id place a new listing among the existing ones. */
  function Upserted(t: Chars, s: State, source: string, l: ListingId, title: string, position: nat): State
    requires position <= |s.order|
  {
    if l in s.listings then s.(listings := s.listings[l := Listing(source, title)])
    else
      s.(order := s.order[..position] + [l] + s.order[position..],
         listings := s.listings[l := Listing(source, title)],
         opportunities := s.opportunities[Own(l) := Opportunity(l.company, M.Identity(M.NormalizeTitle(t, title), ""), true)],
         membership := s.membership[l := Own(l)])
  }

  function Analyzed(s: State, l: ListingId, input: AnalysisInput): State
  {
    var retries := if l in s.analyses then s.analyses[l].retries else 0;
    var provider := if input.provider == "" then "deterministic" else input.provider;
    s.(analyses := s.analyses[l := Analysis(input.location, provider, true, true, retries)])
  }

  predicate FirstSuccess(s: State, l: ListingId)
  {
    l !in s.analyses || !s.analyses[l].everProcessed
  }

  ghost function AnalysisSaved(t: Chars, s: State, l: ListingId, input: AnalysisInput): State
    requires Tables(s) && l in s.listings
  {
    var resolved := Resolved(t, Analyzed(s, l, input), l, input.location);
    ResolveKeepsTables(t, Analyzed(s, l, input), l, input.location);
    Announced(resolved, l, input.strong, FirstSuccess(s, l))
  }

  function Failing(s: State, l: ListingId, provider: string): State
  {
    var row := if l in s.analyses
               then s.analyses[l].(provider := provider, processed := false, retries := s.analyses[l].retries + 1)
               else Analysis("", provider, false, false, 1);
    s.(analyses := s.analyses[l := row])
  }

  predicate Invalidates(a: Analysis, provider: string)
  {
    a.processed && (provider == "" || a.provider == provider)
  }

  function Invalidated(s: State, provider: string): State
  {
    s.(analyses := map l | l in s.analyses ::
      if Invalidates(s.analyses[l], provider) then s.analyses[l].(processed := false, retries := 0) else s.analyses[l])
  }

  /** The analysed listings in reconciliation order. */
  function Items(s: State, among: seq<ListingId>): (r: seq<ListingId>)
    ensures forall l :: l in r <==> l in among && l in s.analyses && s.analyses[l].processed
  {
    if among == [] then []
    else (if among[0] in s.analyses && s.analyses[among[0]].processed then [among[0]] else []) + Items(s, among[1..])
  }

  ghost function ReconciledOver(t: Chars, s: State, items: seq<ListingId>): State
    requires Tables(s) && forall l <- items :: l in s.listings
    decreases |items|
  {
    if items == [] then s
    else
      assert items[0] in items;
      ResolveKeepsTables(t, s, items[0], LocationOf(s, items[0]));
      ReconciledOver(t, Resolved(t, s, items[0], LocationOf(s, items[0])), items[1..])
  }

  ghost function Reconciled(t: Chars, s: State): State
    requires Tables(s)
  {
    ReconciledOver(t, s, Items(s, s.order))
  }

  // ----- Tables are kept -----

  /** No other listing shares l's opportunity. */
  ghost predicate Alone(s: State, l: ListingId)
  {
    forall k :: !IsOther(s, l, k)
  }

  /** The four things resolving a listing can do. */
  ghost predicate IsStep(t: Chars, s: State, s': State, l: ListingId, identity: M.Identity)
    requires Tables(s) && l in s.listings
  {
    || s' == s
    || (!Alone(s, l) && s' == Splitting(t, s, l, identity))
    || (Alone(s, l) && s' == Refreshed(t, s, l, identity))
    || (Alone(s, l) && exists o <- AutoCandidates(t, s, l, identity) :: s' == Merging(Refreshed(t, s, l, identity), l, o))
  }

  lemma {:induction false} ResolveIsStep(t: Chars, s: State, l: ListingId, location: string)
    requires Tables(s) && l in s.listings
    ensures IsStep(t, s, Resolved(t, s, l, location), l, IdentityAt(s, l, location))
  {
    hide AutoCandidates, Refreshed, Merging, Splitting, M.Evaluate;
    AloneIff(s, l);
  }

  lemma {:induction false} AloneIff(s: State, l: ListingId)
    requires Tables(s)
    ensures Alone(s, l) <==> FirstOther(s, l, s.order).None?
  {
  }

  lemma {:induction false} SplittingKeepsTables(t: Chars, s: State, l: ListingId, identity: M.Identity)
    requires Tables(s) && l in s.listings
    ensures Tables(Splitting(t, s, l, identity))
  {
    hide M.Normal, NoDuplicates;
  }

  lemma {:induction false} MergingKeepsTables(t: Chars, s: State, l: ListingId, identity: M.Identity, o: OppId)
    requires Tables(s) && l in s.listings && o in s.opportunities
    ensures Tables(Refreshed(t, s, l, identity))
    ensures Tables(Merging(Refreshed(t, s, l, identity), l, o))
  {
    hide M.Normal, NoDuplicates;
  }

  ghost predicate SameListings(s: State, s': State)
  {
    && s'.listings == s.listings && s'.order == s.order && s'.analyses == s.analyses
    && s'.companies == s.companies && s'.sources == s.sources
  }

  lemma {:induction false} ResolveKeepsTables(t: Chars, s: State, l: ListingId, location: string)
    requires Tables(s) && l in s.listings
    ensures Tables(Resolved(t, s, l, location)) && SameListings(s, Resolved(t, s, l, location))
  {
    hide Resolved, M.Evaluate, M.Normal, NoDuplicates;
    var identity := IdentityAt(s, l, location);
    ResolveIsStep(t, s, l, location);
    SplittingKeepsTables(t, s, l, identity);
    forall o <- AutoCandidates(t, s, l, identity)
      ensures Tables(Refreshed(t, s, l, identity)) && Tables(Merging(Refreshed(t, s, l, identity), l, o))
    {
      MergingKeepsTables(t, s, l, identity, o);
    }
    MergingKeepsTables(t, s, l, identity, s.membership[l]);
  }

  // ----- Resolving, case by case -----

  lemma {:induction false} SharedResolves(t: Chars, s: State, l: ListingId, location: string)
    requires Tables(s) && l in s.listings
    ensures Tables(Resolved(t, s, l, location)) && SameListings(s, Resolved(t, s, l, location))
    ensures var other := FirstOther(s, l, s.order);
      other.Some? ==>
        Resolved(t, s, l, location) ==
          if M.Evaluate(t, IdentityAt(s, l, location), IdentityAt(s, other.value, LocationOf(s, other.value))).outcome == M.Separate
          then Splitting(t, s, l, IdentityAt(s, l, location)) else s
  {
    ResolveKeepsTables(t, s, l, location);
    hide M.Evaluate, Splitting, Refreshed, Merging, AutoCandidates;
  }

  /** Refreshing the listing's own row changes no candidate. */
  lemma {:induction false} SameCandidates(t: Chars, s: State, l: ListingId, identity: M.Identity)
    requires Tables(s) && l in s.listings
    ensures AutoCandidates(t, Refreshed(t, s, l, identity), l, identity) == AutoCandidates(t, s, l, identity)
  {
    hide M.Evaluate, M.Normal, NoDuplicates;
  }

  lemma {:induction false} LonelyStays(t: Chars, s: State, l: ListingId, location: string)
    requires Tables(s) && l in s.listings && FirstOther(s, l, s.order).None?
    requires |AutoCandidates(t, s, l, IdentityAt(s, l, location))| != 1
    ensures Resolved(t, s, l, location) == Refreshed(t, s, l, IdentityAt(s, l, location))
  {
    hide M.Evaluate, Splitting, Refreshed, Merging, AutoCandidates;
  }

  lemma {:induction false} LonelyJoins(t: Chars, s: State, l: ListingId, location: string, o: OppId)
    requires Tables(s) && l in s.listings && FirstOther(s, l, s.order).None?
    requires AutoCandidates(t, s, l, IdentityAt(s, l, location)) == {o}
    ensures Resolved(t, s, l, location) == Merging(Refreshed(t, s, l, IdentityAt(s, l, location)), l, o)
  {
    hide M.Evaluate, Splitting, Refreshed, Merging, AutoCandidates;
  }

  // ----- The invariant -----

  /** A listing's own rows keep its company. */
  ghost predicate OwnRows(s: State)
  {
    forall o <- s.opportunities :: !o.Program? ==>
      o.listing in s.listings && s.opportunities[o].company == o.listing.company
  }

  /** Every listing sits in exactly one opportunity (membership is a map); it is active and, unless it
      is a program window's, of the listing's company. */
  ghost predicate Homes(s: State)
  {
    forall l <- s.membership :: s.membership[l] in s.opportunities ==>
      && s.opportunities[s.membership[l]].active
      && (!s.membership[l].Program? ==> s.opportunities[s.membership[l]].company == l.company)
  }

  /** Every notification points at its listing's current opportunity; no listing and no key has two. */
  ghost predicate Announcements(s: State)
  {
    && (forall n <- s.notifications ::
          && n.listing in s.membership && n.opportunity == s.membership[n.listing]
          && n.listing in s.analyses && s.analyses[n.listing].everProcessed)
    && (forall i, j :: 0 <= i < j < |s.notifications| ==>
          s.notifications[i].listing != s.notifications[j].listing && s.notifications[i].key != s.notifications[j].key)
  }

  ghost predicate Inv(s: State)
  {
    Tables(s) && OwnRows(s) && Homes(s) && Announcements(s)
  }

  /** Program windows included: every listing's opportunity is of its company. */
  ghost predicate Placed(s: State)
  {
    forall l <- s.membership :: s.membership[l] in s.opportunities ==> s.opportunities[s.membership[l]].company == l.company
  }

  /** The notifications of s' begin with those of s, each for the same listing under the same key. */
  ghost predicate KeepsAnnouncements(s: State, s': State)
  {
    && |s.notifications| <= |s'.notifications|
    && forall i :: 0 <= i < |s.notifications| ==>
         s'.notifications[i].listing == s.notifications[i].listing && s'.notifications[i].key == s.notifications[i].key
  }

  lemma {:induction false} MovedKeepsAnnouncements(s: State, l: ListingId, o: OppId)
    requires Announcements(s) && l in s.membership
    ensures Announcements(Moved(s, l, o)) && KeepsAnnouncements(s, Moved(s, l, o))
  {
    var s' := Moved(s, l, o);
    forall n | n in s'.notifications
      ensures n.listing in s'.membership && n.opportunity == s'.membership[n.listing]
      ensures n.listing in s'.analyses && s'.analyses[n.listing].everProcessed
    {
      var i :| 0 <= i < |s'.notifications| && s'.notifications[i] == n;
      assert s.notifications[i] in s.notifications;
    }
  }

  lemma {:induction false} SplittingKeepsPlaces(t: Chars, s: State, l: ListingId, identity: M.Identity)
    requires Inv(s) && l in s.listings
    ensures var s' := Splitting(t, s, l, identity);
      OwnRows(s') && Homes(s') && (Placed(s) ==> Placed(s'))
  {
    hide M.Normal, NoDuplicates, Announcements;
  }

  lemma {:induction false} SplittingKeeps(t: Chars, s: State, l: ListingId, identity: M.Identity)
    requires Inv(s) && l in s.listings && !Alone(s, l)
    ensures var s' := Splitting(t, s, l, identity);
      Inv(s') && KeepsAnnouncements(s, s') && (Placed(s) ==> Placed(s'))
  {
    SplittingKeepsPlaces(t, s, l, identity);
    hide M.Normal, NoDuplicates, Announcements, KeepsAnnouncements, Alone, OwnRows, Homes, Placed;
    var target := SplitTarget(t, s, l, identity);
    var s' := Splitting(t, s, l, identity);
    var row := s'.opportunities[target];
    SplittingKeepsTables(t, s, l, identity);
    MovedKeepsAnnouncements(s.(opportunities := s.opportunities[target := row]), l, target) by {
      SameAnnouncements(s, s.(opportunities := s.opportunities[target := row]));
    }
    SameKept(s, s.(opportunities := s.opportunities[target := row]), s');
  }

  /** A split listing shares its opportunity with none of its former companions, but it is alone only
      when nobody had settled in the opportunity it returns to. */
  lemma {:induction false} SplitLeavesCompanions(t: Chars, s: State, l: ListingId, identity: M.Identity)
    requires Tables(s) && l in s.listings
    ensures var s', target := Splitting(t, s, l, identity), SplitTarget(t, s, l, identity);
      && s'.membership[l] == target && target in s'.opportunities
      && s'.opportunities[target].active && s'.opportunities[target].identity == M.Normal(t, identity)
      && (forall k :: IsOther(s, l, k) ==> !IsOther(s', l, k) && s'.membership[k] == s.membership[k])
      && (Alone(s', l) <==> forall k <- s.membership :: s.membership[k] != target)
  {
    hide M.Normal, NoDuplicates, Relinked;
    var s', target := Splitting(t, s, l, identity), SplitTarget(t, s, l, identity);
    assert s.membership[l] != target;
    if Alone(s', l) {
      forall k | k in s.membership
        ensures s.membership[k] != target
      {
        if k != l { assert !IsOther(s', l, k); }
      }
    }
  }

  lemma {:induction false} SameAnnouncements(s: State, s': State)
    requires Announcements(s) && s'.notifications == s.notifications && s'.membership == s.membership
    requires forall l <- s.analyses :: l in s'.analyses && (s.analyses[l].everProcessed ==> s'.analyses[l].everProcessed)
    ensures Announcements(s')
  {
  }

  lemma {:induction false} SameKept(s: State, mid: State, s': State)
    requires mid.notifications == s.notifications && KeepsAnnouncements(mid, s')
    ensures KeepsAnnouncements(s, s')
  {
  }

  /** The row of every opportunity but the one left is unchanged by a merge, and so is every other
      listing's place. */
  lemma {:induction false} MergingAt(t: Chars, s: State, l: ListingId, identity: M.Identity, o: OppId)
    requires Tables(s) && l in s.listings
    ensures var s' := Merging(Refreshed(t, s, l, identity), l, o);
      && s'.membership == s.membership[l := o]
      && s'.opportunities == s.opportunities[s.membership[l] :=
           s.opportunities[s.membership[l]].(identity := M.Normal(t, identity), active := false)]
      && s'.notifications == Relinked(s.notifications, l, o)
      && SameListings(s, s')
  {
    hide M.Normal, Relinked;
    var s' := Merging(Refreshed(t, s, l, identity), l, o);
    assert s'.opportunities == s.opportunities[s.membership[l] :=
      s.opportunities[s.membership[l]].(identity := M.Normal(t, identity), active := false)];
  }

  /** s' is s with l moved to o and the row l leaves replaced. */
  ghost predicate Leaves(s: State, s': State, l: ListingId, o: OppId, row: Opportunity)
    requires l in s.membership
  {
    && s'.membership == s.membership[l := o]
    && s'.opportunities == s.opportunities[s.membership[l] := row]
    && s'.listings == s.listings
  }

  lemma {:induction false} LeavingKeepsPlaces(s: State, s': State, l: ListingId, o: OppId, row: Opportunity)
    requires l in s.membership && Leaves(s, s', l, o, row) && Alone(s, l)
    requires Homes(s) && s.membership.Values <= s.opportunities.Keys
    requires o in s.opportunities && o != s.membership[l] && s.opportunities[o].active && s.opportunities[o].company == l.company
    ensures Homes(s') && (Placed(s) ==> Placed(s'))
  {
    forall k | k in s'.membership
      ensures s'.membership[k] in s.opportunities
      ensures s'.opportunities[s'.membership[k]] == s.opportunities[if k == l then o else s.membership[k]]
    {
      if k != l {
        assert !IsOther(s, l, k);
        assert s.membership[k] in s.membership.Values;
      }
    }
  }

  lemma {:induction false} LeavingKeepsOwnRows(s: State, s': State, l: ListingId, o: OppId, row: Opportunity)
    requires l in s.membership && Leaves(s, s', l, o, row)
    requires OwnRows(s) && s.membership[l] in s.opportunities && row.company == s.opportunities[s.membership[l]].company
    ensures OwnRows(s')
  {
  }

  lemma {:induction false} MergingKeepsRows(t: Chars, s: State, l: ListingId, identity: M.Identity, o: OppId)
    requires Tables(s) && OwnRows(s) && Homes(s) && l in s.listings && Alone(s, l)
    requires o in s.opportunities && o != s.membership[l] && s.opportunities[o].active && s.opportunities[o].company == l.company
    ensures var s' := Merging(Refreshed(t, s, l, identity), l, o);
      OwnRows(s') && Homes(s') && (Placed(s) ==> Placed(s'))
  {
    var s' := Merging(Refreshed(t, s, l, identity), l, o);
    MergingAt(t, s, l, identity, o);
    assert s.membership.Values <= s.opportunities.Keys;
    hide M.Normal, Merging, Refreshed, Relinked, OwnRows, Homes, Placed, Alone;
    var row := s.opportunities[s.membership[l]].(identity := M.Normal(t, identity), active := false);
    LeavingKeepsPlaces(s, s', l, o, row);
    LeavingKeepsOwnRows(s, s', l, o, row);
  }

  lemma {:induction false} MergingKeeps(t: Chars, s: State, l: ListingId, identity: M.Identity, o: OppId)
    requires Inv(s) && l in s.listings && Alone(s, l)
    requires o in s.opportunities && o != s.membership[l] && s.opportunities[o].active && s.opportunities[o].company == l.company
    ensures var s' := Merging(Refreshed(t, s, l, identity), l, o);
      Inv(s') && KeepsAnnouncements(s, s') && (Placed(s) ==> Placed(s'))
  {
    var s' := Merging(Refreshed(t, s, l, identity), l, o);
    MergingAt(t, s, l, identity, o);
    MergingKeepsTables(t, s, l, identity, o);
    MergingKeepsRows(t, s, l, identity, o);
    var mid := s.(opportunities := s'.opportunities);
    hide M.Normal, Merging, Refreshed, Tables, OwnRows, Homes, Placed, Alone;
    SameAnnouncements(s, mid);
    MovedKeepsAnnouncements(mid, l, o);
    assert s' == Moved(mid, l, o);
    SameKept(s, mid, s');
  }

  /** s' is s with l's row refreshed. */
  ghost predicate Refreshes(s: State, s': State, l: ListingId, row: Opportunity)
    requires l in s.membership
  {
    s' == s.(opportunities := s.opportunities[s.membership[l] := row])
  }

  lemma {:induction false} RefreshingKeepsTables(s: State, s': State, l: ListingId, row: Opportunity)
    requires Tables(s) && l in s.membership && Refreshes(s, s', l, row)
    ensures Tables(s')
  {
    hide NoDuplicates;
  }

  lemma {:induction false} RefreshingKeepsPlaces(s: State, s': State, l: ListingId, row: Opportunity)
    requires l in s.membership && Refreshes(s, s', l, row) && s.membership[l] in s.opportunities
    requires row.active && row.company == s.opportunities[s.membership[l]].company
    ensures Homes(s) ==> Homes(s')
    ensures OwnRows(s) ==> OwnRows(s')
    ensures Placed(s) ==> Placed(s')
  {
  }

  lemma {:induction false} RefreshedRefreshes(t: Chars, s: State, l: ListingId, identity: M.Identity)
    requires Tables(s) && l in s.listings
    ensures var row := s.opportunities[s.membership[l]].(identity := M.Normal(t, identity), active := true);
      Refreshes(s, Refreshed(t, s, l, identity), l, row)
  {
    hide M.Normal, NoDuplicates;
  }

  lemma {:induction false} SameTablesRefreshed(t: Chars, s: State, l: ListingId, identity: M.Identity)
    requires Tables(s) && l in s.listings
    ensures var s' := Refreshed(t, s, l, identity);
      s'.notifications == s.notifications && s'.membership == s.membership && s'.analyses == s.analyses
  {
    hide M.Normal, NoDuplicates;
  }

  lemma {:induction false} RefreshedKeeps(t: Chars, s: State, l: ListingId, identity: M.Identity)
    requires Inv(s) && l in s.listings
    ensures var s' := Refreshed(t, s, l, identity);
      Inv(s') && KeepsAnnouncements(s, s') && (Placed(s) ==> Placed(s'))
  {
    hide M.Normal, NoDuplicates, Homes, OwnRows, Placed, Announcements, Refreshed;
    var s' := Refreshed(t, s, l, identity);
    var row := s.opportunities[s.membership[l]].(identity := M.Normal(t, identity), active := true);
    RefreshedRefreshes(t, s, l, identity);
    hide Refreshes;
    SameTablesRefreshed(t, s, l, identity);
    RefreshingKeepsTables(s, s', l, row);
    RefreshingKeepsPlaces(s, s', l, row);
    SameAnnouncements(s, s');
  }

  lemma {:induction false} ResolveKeeps(t: Chars, s: State, l: ListingId, location: string)
    requires Inv(s) && l in s.listings
    ensures var s' := Resolved(t, s, l, location);
      Inv(s') && KeepsAnnouncements(s, s') && (Placed(s) ==> Placed(s')) && SameListings(s, s')
  {
    hide Resolved, M.Evaluate, M.Normal, NoDuplicates, Announcements, OwnRows, Homes, Placed, Alone;
    var identity := IdentityAt(s, l, location);
    ResolveKeepsTables(t, s, l, location);
    ResolveIsStep(t, s, l, location);
    var s' := Resolved(t, s, l, location);
    if s' == Splitting(t, s, l, identity) && !Alone(s, l) {
      SplittingKeeps(t, s, l, identity);
    } else if s' == Refreshed(t, s, l, identity) {
      RefreshedKeeps(t, s, l, identity);
    } else if s' != s {
      var o :| o in AutoCandidates(t, s, l, identity) && s' == Merging(Refreshed(t, s, l, identity), l, o);
      MergingKeeps(t, s, l, identity, o);
    }
  }

  // ----- Announcing -----

  /** A notification is added exactly when a trusted source's listing of a primary or secondary
      company is strong at its first successful analysis, no notification points at its opportunity
      and none was ever enqueued under the opportunity's key. */
  lemma {:induction false} AnnouncedOnce(s: State, l: ListingId, strong: bool, first: bool)
    requires Tables(s) && l in s.listings
    ensures var s', o := Announced(s, l, strong, first), s.membership[l];
      var due :=
        && first && strong && s.companies[l.company] != Candidate
        && s.sources[s.listings[l].source].trust != Aggregator
        && forall n <- s.notifications :: n.opportunity != o && n.key != o;
      && (s' != s <==> due)
      && (due ==> s' == s.(notifications := s.notifications + [Notification(l, o, o)]))
  {
    var o := s.membership[l];
    assert |s.notifications + [Notification(l, o, o)]| != |s.notifications|;
  }

  lemma {:induction false} AnnouncedKeeps(s: State, l: ListingId, strong: bool, first: bool)
    requires Inv(s) && l in s.listings && l in s.analyses && s.analyses[l].everProcessed
    requires first ==> forall n <- s.notifications :: n.listing != l
    ensures var s' := Announced(s, l, strong, first);
      Inv(s') && KeepsAnnouncements(s, s') && (Placed(s) ==> Placed(s'))
  {
    AnnouncedOnce(s, l, strong, first);
  }

  lemma {:induction false} AnalyzedTables(s: State, l: ListingId, input: AnalysisInput)
    requires Tables(s) && l in s.listings
    ensures Tables(Analyzed(s, l, input))
  {
    hide NoDuplicates;
  }

  lemma {:induction false} AnalyzedKeeps(s: State, l: ListingId, input: AnalysisInput)
    requires Inv(s) && l in s.listings
    ensures var s' := Analyzed(s, l, input);
      Inv(s') && KeepsAnnouncements(s, s') && (Placed(s) ==> Placed(s'))
  {
    SameAnnouncements(s, Analyzed(s, l, input));
  }

  lemma {:induction false} SaveKeeps(t: Chars, s: State, l: ListingId, input: AnalysisInput)
    requires Inv(s) && l in s.listings
    ensures var s' := AnalysisSaved(t, s, l, input);
      Inv(s') && KeepsAnnouncements(s, s') && (Placed(s) ==> Placed(s'))
  {
    hide Resolved, Announced, M.Evaluate, M.Normal, NoDuplicates, OwnRows, Homes, Placed;
    var analyzed := Analyzed(s, l, input);
    AnalyzedKeeps(s, l, input);
    ResolveKeeps(t, analyzed, l, input.location);
    var resolved := Resolved(t, analyzed, l, input.location);
    if FirstSuccess(s, l) {
      forall n | n in resolved.notifications
        ensures n.listing != l
      {
        var i :| 0 <= i < |resolved.notifications| && resolved.notifications[i] == n;
        ResolveKeepsCount(t, analyzed, l, input.location);
        assert s.notifications[i] in s.notifications;
      }
    }
    AnnouncedKeeps(resolved, l, input.strong, FirstSuccess(s, l));
  }

  lemma {:induction false} ResolveKeepsCount(t: Chars, s: State, l: ListingId, location: string)
    requires Tables(s) && l in s.listings
    ensures |Resolved(t, s, l, location).notifications| == |s.notifications|
  {
    hide M.Evaluate, M.Normal, AutoCandidates;
  }

  // ----- Listings, failures, invalidation, sources and programs -----

  lemma {:induction false} InsertedOrder(order: seq<ListingId>, l: ListingId, position: nat)
    requires NoDuplicates(order) && l !in order && position <= |order|
    ensures var order' := order[..position] + [l] + order[position..];
      NoDuplicates(order') && forall k :: k in order' <==> k in order || k == l
  {
    assert order == order[..position] + order[position..];
  }

  /** s' is s with one more listing in an opportunity row of its own. */
  ghost predicate Grows(s: State, s': State, l: ListingId, listing: Listing, row: Opportunity)
  {
    && NoDuplicates(s'.order) && (forall k :: k in s'.order <==> k in s.order || k == l)
    && s' == s.(order := s'.order, listings := s.listings[l := listing],
                opportunities := s.opportunities[Own(l) := row], membership := s.membership[l := Own(l)])
  }

  lemma {:induction false} GrowingKeepsTables(s: State, s': State, l: ListingId, listing: Listing, row: Opportunity)
    requires Tables(s) && Grows(s, s', l, listing, row)
    requires listing.source in s.sources && l.company in s.companies
    ensures Tables(s')
  {
    hide NoDuplicates;
  }

  lemma {:induction false} GrowingKeepsPlaces(s: State, s': State, l: ListingId, listing: Listing, row: Opportunity)
    requires Inv(s) && Grows(s, s', l, listing, row) && l !in s.listings
    requires row.active && row.company == l.company
    ensures OwnRows(s') && Homes(s') && (Placed(s) ==> Placed(s'))
  {
    hide NoDuplicates, Announcements;
    NewRowIsFree(s, l);
  }

  lemma {:induction false} GrowingKeepsAnnouncements(s: State, s': State, l: ListingId, listing: Listing, row: Opportunity)
    requires Inv(s) && Grows(s, s', l, listing, row) && l !in s.listings
    ensures Announcements(s') && KeepsAnnouncements(s, s')
  {
    hide NoDuplicates, OwnRows, Homes;
  }

  lemma {:induction false} InsertKeeps(t: Chars, s: State, source: string, l: ListingId, title: string, position: nat)
    requires Inv(s) && position <= |s.order| && l !in s.listings
    requires source in s.sources && l.company in s.companies
    ensures var s' := Upserted(t, s, source, l, title, position);
      Inv(s') && KeepsAnnouncements(s, s') && (Placed(s) ==> Placed(s'))
  {
    var s' := Upserted(t, s, source, l, title, position);
    InsertedOrder(s.order, l, position);
    var listing, row := s'.listings[l], s'.opportunities[Own(l)];
    hide M.NormalizeTitle, OwnRows, Homes, Announcements, KeepsAnnouncements, Placed, NoDuplicates;
    assert Grows(s, s', l, listing, row);
    GrowingKeepsTables(s, s', l, listing, row);
    GrowingKeepsPlaces(s, s', l, listing, row);
    GrowingKeepsAnnouncements(s, s', l, listing, row);
  }

  lemma {:induction false} UpsertKeeps(t: Chars, s: State, source: string, l: ListingId, title: string, position: nat)
    requires Inv(s) && position <= |s.order|
    requires source in s.sources && l.company in s.companies
    ensures var s' := Upserted(t, s, source, l, title, position);
      Inv(s') && KeepsAnnouncements(s, s') && (Placed(s) ==> Placed(s'))
  {
    hide M.NormalizeTitle, NoDuplicates;
    if l !in s.listings {
      InsertKeeps(t, s, source, l, title, position);
    } else {
      UpdateKeeps(s, Upserted(t, s, source, l, title, position), Listing(source, title), l);
    }
  }

  lemma {:induction false} UpdateKeeps(s: State, s': State, row: Listing, l: ListingId)
    requires Inv(s) && l in s.listings && row.source in s.sources && s' == s.(listings := s.listings[l := row])
    ensures Inv(s') && KeepsAnnouncements(s, s') && (Placed(s) ==> Placed(s'))
  {
    hide NoDuplicates;
    SameAnnouncements(s, s');
    hide Announcements;
  }

  /** A listing not yet stored has no opportunity row of its own. */
  lemma {:induction false} NewRowIsFree(s: State, l: ListingId)
    requires Inv(s) && l !in s.listings
    ensures Own(l) !in s.opportunities
  {
  }

  lemma {:induction false} FailingKeeps(s: State, l: ListingId, provider: string)
    requires Inv(s) && l in s.listings
    ensures var s' := Failing(s, l, provider);
      Inv(s') && KeepsAnnouncements(s, s') && (Placed(s) ==> Placed(s'))
  {
    SameAnnouncements(s, Failing(s, l, provider));
  }

  lemma {:induction false} InvalidatedKeeps(s: State, provider: string)
    requires Inv(s)
    ensures var s' := Invalidated(s, provider);
      Inv(s') && KeepsAnnouncements(s, s') && (Placed(s) ==> Placed(s'))
  {
    SameAnnouncements(s, Invalidated(s, provider));
  }

  lemma {:induction false} RegisteredKeeps(s: State, key: string, company: string, priority: Priority, trust: Trust)
    requires Inv(s)
    ensures var s' := Registered(s, key, company, priority, trust);
      Inv(s') && KeepsAnnouncements(s, s') && (Placed(s) ==> Placed(s'))
  {
    SameAnnouncements(s, Registered(s, key, company, priority, trust));
  }

  lemma {:induction false} ProgramKeepsTables(t: Chars, s: State, key: string, company: string, name: string)
    requires Tables(s) && OwnRows(s)
    ensures var s' := ProgramProjected(t, s, key, company, name);
      Tables(s') && OwnRows(s')
  {
    hide M.NormalizeTitle, NoDuplicates;
  }

  lemma {:induction false} ProgramKeepsHomes(t: Chars, s: State, key: string, company: string, name: string)
    requires Homes(s)
    requires forall l <- s.membership :: s.membership[l] in s.opportunities
    ensures Homes(ProgramProjected(t, s, key, company, name))
  {
    hide M.NormalizeTitle;
  }

  lemma {:induction false} ProgramKeeps(t: Chars, s: State, key: string, company: string, name: string)
    requires Inv(s)
    ensures var s' := ProgramProjected(t, s, key, company, name);
      Inv(s') && KeepsAnnouncements(s, s')
  {
    hide M.NormalizeTitle, OwnRows, Homes, Announcements;
    ProgramKeepsTables(t, s, key, company, name);
    ProgramKeepsHomes(t, s, key, company, name);
    hide Tables;
    SameAnnouncements(s, ProgramProjected(t, s, key, company, name));
  }

  /** Projecting a program window under a company leaves every listing with its own company exactly
      when no listing of another company has been merged into the window's opportunity. */
  lemma {:induction false} ProgramMovesListingsIff(t: Chars, s: State, key: string, company: string, name: string)
    requires Inv(s) && Placed(s)
    ensures Placed(ProgramProjected(t, s, key, company, name)) <==>
      forall l <- s.membership :: s.membership[l] == Program(key) ==> l.company == company
  {
    hide M.NormalizeTitle;
    var s' := ProgramProjected(t, s, key, company, name);
    if Placed(s') {
      forall l | l in s.membership && s.membership[l] == Program(key)
        ensures l.company == company
      {
        assert s'.membership[l] in s'.opportunities;
      }
    }
  }

  lemma {:induction false} ReconcileKeeps(t: Chars, s: State, items: seq<ListingId>)
    requires Inv(s) && forall l <- items :: l in s.listings
    ensures var s' := ReconciledOver(t, s, items);
      Inv(s') && KeepsAnnouncements(s, s') && (Placed(s) ==> Placed(s')) && SameListings(s, s')
    decreases |items|
  {
    hide Resolved, Announcements, OwnRows, Homes, NoDuplicates, Placed;
    if items != [] {
      assert items[0] in items;
      ResolveKeeps(t, s, items[0], LocationOf(s, items[0]));
      assert forall l <- items[1..] :: l in items;
      ReconcileKeeps(t, Resolved(t, s, items[0], LocationOf(s, items[0])), items[1..]);
    }
  }

  // ----- Runs -----

  datatype Op =
    | Register(key: string, company: string, priority: Priority, trust: Trust)
    | RegisterProgram(key: string, company: string, name: string)
    | Upsert(source: string, company: string, url: string, title: string, position: nat)
    | Save(listing: ListingId, input: AnalysisInput)
    | Fail(listing: ListingId, provider: string)
    | Invalidate(provider: string)
    | Reconcile
    | Resolve(listing: ListingId)

  predicate Blank(t: Chars, text: string)
  {
    Trim(text, t.space) == ""
  }

  lemma {:induction false} BlankIsWhiteSpace(t: Chars, text: string)
    ensures Blank(t, text) <==> AllChars(text, t.space)
  {
    TrimIsEmptyIff(text, t.space);
  }

  /** A listing is accepted when it is titled and its source is registered for its company. */
  predicate Accepts(t: Chars, s: State, source: string, company: string, title: string)
  {
    && !Blank(t, company) && !Blank(t, source) && !Blank(t, title)
    && source in s.sources && s.sources[source].company == company && company in s.companies
  }

  /** An operation whose transaction fails changes nothing.  Reconcile is a whole start-up pass, Resolve
      one of its transactions. */
  ghost function Step(t: Chars, s: State, op: Op): State
    requires Tables(s)
  {
    match op
    case Register(key, company, priority, trust) => Registered(s, key, company, priority, trust)
    case RegisterProgram(key, company, name) =>
      if company in s.companies then ProgramProjected(t, s, key, company, name) else s
    case Upsert(source, company, url, title, position) =>
      if Accepts(t, s, source, company, title) && position <= |s.order|
      then Upserted(t, s, source, ListingId(company, url), title, position) else s
    case Save(l, input) => if l in s.listings && input.valid then AnalysisSaved(t, s, l, input) else s
    case Fail(l, provider) => if l in s.listings && provider != "" then Failing(s, l, provider) else s
    case Invalidate(provider) => Invalidated(s, provider)
    case Reconcile => Reconciled(t, s)
    case Resolve(l) => if l in s.listings then Resolved(t, s, l, LocationOf(s, l)) else s
  }

  lemma {:induction false} StepKeeps(t: Chars, s: State, op: Op)
    requires Inv(s)
    ensures Inv(Step(t, s, op)) && KeepsAnnouncements(s, Step(t, s, op))
    ensures Placed(s) && !op.RegisterProgram? ==> Placed(Step(t, s, op))
  {
    hide M.NormalizeTitle, AnalysisSaved, ReconciledOver, Resolved, Upserted, ProgramProjected, Failing, Invalidated,
         Registered, KeepsAnnouncements, Placed, Announcements, OwnRows, Homes, NoDuplicates;
    match op
    case Register(key, company, priority, trust) => RegisteredKeeps(s, key, company, priority, trust);
    case RegisterProgram(key, company, name) =>
      ProgramKeeps(t, s, key, company, name);
      ItselfKept(s);
    case Upsert(source, company, url, title, position) =>
      ItselfKept(s);
      if Accepts(t, s, source, company, title) && position <= |s.order| {
        UpsertKeeps(t, s, source, ListingId(company, url), title, position);
      }
    case Save(l, input) =>
      ItselfKept(s);
      if l in s.listings { SaveKeeps(t, s, l, input); }
    case Fail(l, provider) =>
      ItselfKept(s);
      if l in s.listings { FailingKeeps(s, l, provider); }
    case Invalidate(provider) => InvalidatedKeeps(s, provider);
    case Reconcile => ReconcileKeeps(t, s, Items(s, s.order));
    case Resolve(l) =>
      ItselfKept(s);
      if l in s.listings { ResolveKeeps(t, s, l, LocationOf(s, l)); }
  }

  lemma {:induction false} ItselfKept(s: State)
    ensures KeepsAnnouncements(s, s)
  {
  }

  /** The states along a run. */
  ghost predicate Reaches(t: Chars, s: State, ops: seq<Op>, s': State)
    requires Tables(s)
    decreases |ops|
  {
    if ops == [] then s' == s
    else Tables(Step(t, s, ops[0])) && Reaches(t, Step(t, s, ops[0]), ops[1..], s')
  }

  /** In every reachable state each listing has one active home of its own company (program windows
      aside), merged opportunities are empty, and notifications are unique and follow their
      listings; no notification is ever withdrawn or given another listing or key. */
  lemma {:induction false} RunKeeps(t: Chars, s: State, ops: seq<Op>, s': State)
    requires Inv(s) && Reaches(t, s, ops, s')
    ensures Inv(s') && KeepsAnnouncements(s, s')
    ensures Placed(s) && (forall op <- ops :: !op.RegisterProgram?) ==> Placed(s')
    decreases |ops|
  {
    if ops != [] {
      assert ops[0] in ops;
      StepKeeps(t, s, ops[0]);
      assert forall op <- ops[1..] :: op in ops;
      RunKeeps(t, Step(t, s, ops[0]), ops[1..], s');
    }
  }

  lemma {:induction false} EveryReachableStateIsConsistent(t: Chars, ops: seq<Op>, s: State)
    requires Reaches(t, EMPTY, ops, s)
    ensures Inv(s)
  {
    RunKeeps(t, EMPTY, ops, s);
  }

  /** A pass is the run of its listings' transactions, so stopping midway leaves a reachable state. */
  lemma {:induction false} PassIsARun(t: Chars, s: State, items: seq<ListingId>)
    requires Tables(s) && forall l <- items :: l in s.listings
    ensures Reaches(t, s, seq(|items|, i requires 0 <= i < |items| => Resolve(items[i])), ReconciledOver(t, s, items))
    decreases |items|
  {
    hide Resolved, Tables;
    var ops := seq(|items|, i requires 0 <= i < |items| => Resolve(items[i]));
    if items == [] {
      assert ops == [];
    } else {
      assert items[0] in items;
      ResolveKeepsTables(t, s, items[0], LocationOf(s, items[0]));
      assert forall l <- items[1..] :: l in items;
      PassIsARun(t, Resolved(t, s, items[0], LocationOf(s, items[0])), items[1..]);
      assert ops[1..] == seq(|items[1..]|, i requires 0 <= i < |items[1..]| => Resolve(items[1..][i]));
    }
  }

  lemma {:induction false} MergedIsEmpty(t: Chars, ops: seq<Op>, s: State, o: OppId)
    requires Reaches(t, EMPTY, ops, s) && o in s.opportunities && !s.opportunities[o].active
    ensures forall l <- s.membership :: s.membership[l] != o
  {
    EveryReachableStateIsConsistent(t, ops, s);
    hide Reaches;
  }

  lemma {:induction false} PassKeepsCount(t: Chars, s: State, items: seq<ListingId>)
    requires Tables(s) && forall l <- items :: l in s.listings
    ensures |ReconciledOver(t, s, items).notifications| == |s.notifications|
    decreases |items|
  {
    hide Resolved, Tables;
    if items != [] {
      var l := items[0];
      assert l in items;
      ResolveKeepsTables(t, s, l, LocationOf(s, l));
      ResolveKeepsCount(t, s, l, LocationOf(s, l));
      assert forall k <- items[1..] :: k in items;
      PassKeepsCount(t, Resolved(t, s, l, LocationOf(s, l)), items[1..]);
    }
  }

  lemma {:induction false} OnlySavesAnnounce(t: Chars, s: State, op: Op)
    requires Tables(s)
    ensures !op.Save? ==> |Step(t, s, op).notifications| == |s.notifications|
  {
    hide M.NormalizeTitle, AnalysisSaved, ReconciledOver, Resolved, NoDuplicates;
    match op
    case Reconcile => PassKeepsCount(t, s, Items(s, s.order));
    case Resolve(l) => if l in s.listings { ResolveKeepsCount(t, s, l, LocationOf(s, l)); }
    case _ =>
  }

  /** The one notification a step of a run can add: for the first successful analysis of a strong
      listing, found at a trusted source of a primary or secondary company, and for an opportunity
      that no earlier notification points at, under a key and for a listing that none has. */
  ghost predicate FirstOfItsKind(s: State, s': State, l: ListingId)
    requires Tables(s) && l in s.listings
  {
    var last := |s.notifications|;
    && |s'.notifications| == last + 1 && l in s'.membership
    && s'.notifications[last] == Notification(l, s'.membership[l], s'.membership[l])
    && FirstSuccess(s, l) && s.companies[l.company] != Candidate && Trusted(s.sources[s.listings[l].source].trust)
    && forall i :: 0 <= i < last ==>
         && s'.notifications[i].opportunity != s'.membership[l]
         && s'.notifications[i].key != s'.membership[l]
         && s'.notifications[i].listing != l
  }

  lemma {:induction false} AnnouncedIsFirst(s: State, resolved: State, l: ListingId, strong: bool)
    requires Tables(s) && Tables(resolved) && l in s.listings
    requires resolved.listings == s.listings && resolved.companies == s.companies && resolved.sources == s.sources
    requires |resolved.notifications| == |s.notifications|
    requires Announcements(Announced(resolved, l, strong, FirstSuccess(s, l)))
    ensures var s' := Announced(resolved, l, strong, FirstSuccess(s, l));
      |s'.notifications| != |s.notifications| ==> strong && FirstOfItsKind(s, s', l)
  {
    AnnouncedOnce(resolved, l, strong, FirstSuccess(s, l));
    hide Announced, FirstSuccess, NoDuplicates;
    assert forall i :: 0 <= i < |resolved.notifications| ==> resolved.notifications[i] in resolved.notifications;
  }

  lemma {:induction false} SaveAnnouncesFirst(t: Chars, s: State, l: ListingId, input: AnalysisInput)
    requires Inv(s) && l in s.listings
    ensures var s' := AnalysisSaved(t, s, l, input);
      |s'.notifications| != |s.notifications| ==> input.strong && FirstOfItsKind(s, s', l)
  {
    var analyzed := Analyzed(s, l, input);
    AnalyzedKeeps(s, l, input);
    hide Resolved, Announced, FirstSuccess, FirstOfItsKind, NoDuplicates, OwnRows, Homes, Placed, Announcements;
    ResolveKeepsTables(t, analyzed, l, input.location);
    ResolveKeepsCount(t, analyzed, l, input.location);
    SaveKeeps(t, s, l, input);
    AnnouncedIsFirst(s, Resolved(t, analyzed, l, input.location), l, input.strong);
  }

  /** Over every run, a step adds at most one notification, and only such a one. */
  lemma {:induction false} NotificationsAreFirst(t: Chars, ops: seq<Op>, s: State, op: Op)
    requires Reaches(t, EMPTY, ops, s)
    ensures Tables(s)
    ensures |Step(t, s, op).notifications| != |s.notifications| ==>
      op.Save? && op.listing in s.listings && op.input.strong && FirstOfItsKind(s, Step(t, s, op), op.listing)
  {
    hide Reaches, Step, AnalysisSaved, FirstOfItsKind;
    EveryReachableStateIsConsistent(t, ops, s);
    OnlySavesAnnounce(t, s, op);
    if op.Save? {
      StepOfSave(t, s, op.listing, op.input);
      if op.listing in s.listings { SaveAnnouncesFirst(t, s, op.listing, op.input); }
    }
  }

  lemma {:induction false} StepOfSave(t: Chars, s: State, l: ListingId, input: AnalysisInput)
    requires Tables(s)
    ensures Step(t, s, Save(l, input)) == if l in s.listings && input.valid then AnalysisSaved(t, s, l, input) else s
  {
    hide AnalysisSaved, Tables;
  }
}
