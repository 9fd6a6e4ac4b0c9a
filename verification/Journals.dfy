/** What the stored rows say, read off the list of transactions that led to them
    (internal/store/sqlite.go, internal/store/reassess.go): sources and companies are as last registered,
    listings as last accepted, and analyses as last saved, failed or invalidated. */
module Journals {
  import opened Wrappers
  import opened Text
  import opened Opportunities
  import M = Matcher

  function Init(ops: seq<Op>): seq<Op>
    requires ops != []
  {
    ops[..|ops| - 1]
  }

  function Last(ops: seq<Op>): Op
    requires ops != []
  {
    ops[|ops| - 1]
  }

  // ----- Registrations -----

  /** How a source was last registered. */
  function LastSource(ops: seq<Op>, key: string): Option<Source>
    decreases |ops|
  {
    if ops == [] then None
    else if Last(ops).Register? && Last(ops).key == key then Some(Source(Last(ops).company, Last(ops).trust))
    else LastSource(Init(ops), key)
  }

  function LastPriority(ops: seq<Op>, company: string): Option<Priority>
    decreases |ops|
  {
    if ops == [] then None
    else if Last(ops).Register? && Last(ops).company == company then Some(Last(ops).priority)
    else LastPriority(Init(ops), company)
  }

  // ----- Listings -----

  /** A titled listing found at a source that was last registered for its company. */
  predicate Acceptable(t: Chars, before: seq<Op>, op: Op)
  {
    && op.Upsert? && !Blank(t, op.source) && !Blank(t, op.company) && !Blank(t, op.title)
    && LastSource(before, op.source).Some? && LastSource(before, op.source).value.company == op.company
  }

  /** The listings accepted so far; a position beyond them is not one. */
  function Accepted(t: Chars, ops: seq<Op>): set<ListingId>
    decreases |ops|
  {
    if ops == [] then {}
    else
      var before := Accepted(t, Init(ops));
      if Acceptable(t, Init(ops), Last(ops)) && Last(ops).position <= |before|
      then before + {ListingId(Last(ops).company, Last(ops).url)}
      else before
  }

  /** What the last accepted transaction about a listing said. */
  function LastListing(t: Chars, ops: seq<Op>, l: ListingId): Option<Listing>
    decreases |ops|
  {
    if ops == [] then None
    else
      var op := Last(ops);
      if Acceptable(t, Init(ops), op) && op.position <= |Accepted(t, Init(ops))| && ListingId(op.company, op.url) == l
      then Some(Listing(op.source, op.title))
      else LastListing(t, Init(ops), l)
  }

  // ----- Analyses -----

  /** The last operation is a valid analysis of the listing, which is known by then. */
  predicate Saves(t: Chars, ops: seq<Op>, l: ListingId)
    requires ops != []
  {
    Last(ops).Save? && Last(ops).listing == l && Last(ops).input.valid && l in Accepted(t, Init(ops))
  }

  predicate Fails(t: Chars, ops: seq<Op>, l: ListingId)
    requires ops != []
  {
    Last(ops).Fail? && Last(ops).listing == l && Last(ops).provider != "" && l in Accepted(t, Init(ops))
  }

  function LastLocation(t: Chars, ops: seq<Op>, l: ListingId): string
    decreases |ops|
  {
    if ops == [] then ""
    else if Saves(t, ops, l) then Last(ops).input.location
    else LastLocation(t, Init(ops), l)
  }

  /** Who analysed the listing last, successfully or not. */
  function LastProvider(t: Chars, ops: seq<Op>, l: ListingId): Option<string>
    decreases |ops|
  {
    if ops == [] then None
    else if Saves(t, ops, l) then Some(if Last(ops).input.provider == "" then "deterministic" else Last(ops).input.provider)
    else if Fails(t, ops, l) then Some(Last(ops).provider)
    else LastProvider(t, Init(ops), l)
  }

  predicate EverSaved(t: Chars, ops: seq<Op>, l: ListingId)
    decreases |ops|
  {
    ops != [] && (Saves(t, ops, l) || EverSaved(t, Init(ops), l))
  }

  /** The last operation invalidates the listing's analysis, which was up to date until then. */
  predicate Outdates(t: Chars, ops: seq<Op>, l: ListingId)
    requires ops != []
    decreases |ops|, 0
  {
    && Last(ops).Invalidate? && UpToDate(t, Init(ops), l)
    && (Last(ops).provider == "" || Some(Last(ops).provider) == LastProvider(t, Init(ops), l))
  }

  /** The last analysis succeeded and was not invalidated since. */
  predicate UpToDate(t: Chars, ops: seq<Op>, l: ListingId)
    decreases |ops|, 1
  {
    ops != [] && (Saves(t, ops, l) || (!Fails(t, ops, l) && !Outdates(t, ops, l) && UpToDate(t, Init(ops), l)))
  }

  /** The failures since the analysis was last invalidated. */
  function Failures(t: Chars, ops: seq<Op>, l: ListingId): nat
    decreases |ops|
  {
    if ops == [] || Outdates(t, ops, l) then 0
    else Failures(t, Init(ops), l) + if Fails(t, ops, l) then 1 else 0
  }

  // ----- The tables agree with the journal -----

  ghost predicate SourcesAgree(ops: seq<Op>, s: State)
  {
    && (forall key :: key in s.sources <==> LastSource(ops, key).Some?)
    && (forall key <- s.sources :: LastSource(ops, key) == Some(s.sources[key]))
    && (forall company :: company in s.companies <==> LastPriority(ops, company).Some?)
    && (forall company <- s.companies :: LastPriority(ops, company) == Some(s.companies[company]))
  }

  ghost predicate ListingsAgree(t: Chars, ops: seq<Op>, s: State)
  {
    && s.listings.Keys == Accepted(t, ops)
    && forall l <- s.listings :: LastListing(t, ops, l) == Some(s.listings[l])
  }

  ghost predicate RowAgrees(t: Chars, ops: seq<Op>, s: State, l: ListingId)
  {
    && (l in s.analyses <==> LastProvider(t, ops, l).Some?)
    && (l in s.analyses ==>
          var row := s.analyses[l];
          && row.location == LastLocation(t, ops, l) && Some(row.provider) == LastProvider(t, ops, l)
          && row.processed == UpToDate(t, ops, l) && row.everProcessed == EverSaved(t, ops, l)
          && row.retries == Failures(t, ops, l))
    && (l !in s.analyses ==>
          LastLocation(t, ops, l) == "" && !UpToDate(t, ops, l) && !EverSaved(t, ops, l) && Failures(t, ops, l) == 0)
  }

  // ----- One more transaction -----

  lemma {:induction false} PassKeepsLists(t: Chars, s: State, items: seq<ListingId>)
    requires Tables(s) && forall l <- items :: l in s.listings
    ensures SameListings(s, ReconciledOver(t, s, items))
    decreases |items|
  {
    hide Resolved, Tables;
    if items != [] {
      var l := items[0];
      assert l in items;
      ResolveKeepsTables(t, s, l, LocationOf(s, l));
      assert forall k <- items[1..] :: k in items;
      PassKeepsLists(t, Resolved(t, s, l, LocationOf(s, l)), items[1..]);
    }
  }

  /** Saving changes, of these tables, only the listing's analysis. */
  lemma {:induction false} SaveChanges(t: Chars, s: State, l: ListingId, input: AnalysisInput)
    requires Tables(s) && l in s.listings
    ensures var s' := AnalysisSaved(t, s, l, input);
      && s'.sources == s.sources && s'.companies == s.companies && s'.listings == s.listings && s'.order == s.order
      && s'.analyses == Analyzed(s, l, input).analyses
  {
    hide Resolved, Tables, Announced;
    AnalyzedTables(s, l, input);
    ResolveKeepsTables(t, Analyzed(s, l, input), l, input.location);
    AnnouncedChanges(Resolved(t, Analyzed(s, l, input), l, input.location), l, input.strong, FirstSuccess(s, l));
  }

  lemma {:induction false} AnnouncedChanges(s: State, l: ListingId, strong: bool, first: bool)
    requires Tables(s) && l in s.listings
    ensures SameListings(s, Announced(s, l, strong, first))
  {
  }

  lemma {:induction false} ItemsAreListed(s: State)
    requires Tables(s)
    ensures forall l <- Items(s, s.order) :: l in s.listings
  {
  }

  /** The other transactions: which of these tables they leave alone. */
  lemma {:induction false} StepChanges(t: Chars, s: State, op: Op)
    requires Tables(s)
    ensures var s' := Step(t, s, op);
      && (!op.Register? ==> s'.sources == s.sources && s'.companies == s.companies)
      && (!op.Upsert? ==> s'.listings == s.listings && s'.order == s.order)
      && (!op.Save? && !op.Fail? && !op.Invalidate? ==> s'.analyses == s.analyses)
  {
    hide Resolved, Tables, AnalysisSaved, ReconciledOver, M.NormalizeTitle;
    match op
    case Save(l, input) => if l in s.listings { SaveChanges(t, s, l, input); }
    case Reconcile =>
      ItemsAreListed(s);
      PassKeepsLists(t, s, Items(s, s.order));
    case Resolve(l) => if l in s.listings { ResolveKeepsTables(t, s, l, LocationOf(s, l)); }
    case _ =>
  }

  lemma {:induction false} Snoc(ops: seq<Op>, op: Op)
    ensures Init(ops + [op]) == ops && Last(ops + [op]) == op
  {
  }

  lemma {:induction false} SourcesStep(t: Chars, ops: seq<Op>, s: State, op: Op)
    requires Tables(s) && SourcesAgree(ops, s)
    ensures SourcesAgree(ops + [op], Step(t, s, op))
  {
    hide Tables, Resolved, AnalysisSaved, ReconciledOver, M.NormalizeTitle, Upserted, Failing, Invalidated;
    Snoc(ops, op);
    StepChanges(t, s, op);
    if !op.Register? { hide Step; }
  }

  /** A sequence without duplicates is as long as its set of elements. */
  lemma {:induction false} OrderSize(order: seq<ListingId>, all: set<ListingId>)
    requires NoDuplicates(order) && forall l :: l in order <==> l in all
    ensures |order| == |all|
    decreases |order|
  {
    if order != [] {
      var n := |order| - 1;
      forall l
        ensures l in order[..n] <==> l in all - {order[n]}
      {
        if l in order[..n] { assert l in order; }
      }
      OrderSize(order[..n], all - {order[n]});
      assert all == (all - {order[n]}) + {order[n]};
    } else {
      assert all == {};
    }
  }

  lemma {:induction false} AcceptsIff(t: Chars, ops: seq<Op>, s: State, op: Op)
    requires Tables(s) && SourcesAgree(ops, s) && ListingsAgree(t, ops, s) && op.Upsert?
    ensures Accepts(t, s, op.source, op.company, op.title) && op.position <= |s.order| <==>
      Acceptable(t, ops, op) && op.position <= |Accepted(t, ops)|
  {
    OrderSize(s.order, s.listings.Keys);
    hide NoDuplicates, Blank, ListingsAgree, LastSource, LastPriority, Accepted;
    if Acceptable(t, ops, op) { SourceHasCompany(ops, op.source); }
  }

  lemma {:induction false} SourceHasCompany(ops: seq<Op>, key: string)
    requires LastSource(ops, key).Some?
    ensures LastPriority(ops, LastSource(ops, key).value.company).Some?
    decreases |ops|
  {
    if !(Last(ops).Register? && Last(ops).key == key) { SourceHasCompany(Init(ops), key); }
  }

  lemma {:induction false} ListingsStep(t: Chars, ops: seq<Op>, s: State, op: Op)
    requires Tables(s) && SourcesAgree(ops, s) && ListingsAgree(t, ops, s)
    ensures ListingsAgree(t, ops + [op], Step(t, s, op))
  {
    Snoc(ops, op);
    if op.Upsert? {
      UpsertAgrees(t, ops, s, op);
    } else {
      hide Step, Tables, SourcesAgree;
      StepChanges(t, s, op);
      NothingAccepted(t, ops, op);
    }
  }

  lemma {:induction false} NothingAccepted(t: Chars, ops: seq<Op>, op: Op)
    requires !op.Upsert?
    ensures Accepted(t, ops + [op]) == Accepted(t, ops)
    ensures forall l :: LastListing(t, ops + [op], l) == LastListing(t, ops, l)
  {
    Snoc(ops, op);
  }

  /** The journal after one more message about a listing. */
  lemma {:induction false} OneAccepted(t: Chars, ops: seq<Op>, op: Op, l: ListingId)
    requires op.Upsert?
    ensures var id := ListingId(op.company, op.url);
      if Acceptable(t, ops, op) && op.position <= |Accepted(t, ops)|
      then Accepted(t, ops + [op]) == Accepted(t, ops) + {id}
           && LastListing(t, ops + [op], l) == (if l == id then Some(Listing(op.source, op.title)) else LastListing(t, ops, l))
      else Accepted(t, ops + [op]) == Accepted(t, ops) && LastListing(t, ops + [op], l) == LastListing(t, ops, l)
  {
    Snoc(ops, op);
    hide Acceptable;
  }

  lemma {:induction false} UpsertAgrees(t: Chars, ops: seq<Op>, s: State, op: Op)
    requires Tables(s) && SourcesAgree(ops, s) && ListingsAgree(t, ops, s) && op.Upsert?
    ensures ListingsAgree(t, ops + [op], Step(t, s, op))
  {
    hide Tables, SourcesAgree, Accepts, Acceptable, Accepted, LastListing, Step;
    AcceptsIff(t, ops, s, op);
    UpsertChanges(t, s, op);
    var s', all := Step(t, s, op), ops + [op];
    OneAccepted(t, ops, op, ListingId(op.company, op.url));
    forall l | l in s'.listings
      ensures LastListing(t, all, l) == Some(s'.listings[l])
    {
      OneAccepted(t, ops, op, l);
    }
  }

  lemma {:induction false} UpsertChanges(t: Chars, s: State, op: Op)
    requires Tables(s) && op.Upsert?
    ensures Step(t, s, op).listings ==
      if Accepts(t, s, op.source, op.company, op.title) && op.position <= |s.order|
      then s.listings[ListingId(op.company, op.url) := Listing(op.source, op.title)] else s.listings
  {
    hide Tables, Accepts, M.NormalizeTitle;
  }

  /** The journal of a listing's analysis after one more transaction. */
  lemma {:induction false} OneMore(t: Chars, ops: seq<Op>, op: Op, l: ListingId)
    ensures var (all, saves, fails) := (ops + [op], Saves(t, ops + [op], l), Fails(t, ops + [op], l));
      && LastLocation(t, all, l) == (if saves then op.input.location else LastLocation(t, ops, l))
      && LastProvider(t, all, l) == (if saves then Some(if op.input.provider == "" then "deterministic" else op.input.provider)
                                     else if fails then Some(op.provider) else LastProvider(t, ops, l))
      && EverSaved(t, all, l) == (saves || EverSaved(t, ops, l))
      && Outdates(t, all, l) == (op.Invalidate? && UpToDate(t, ops, l)
                                 && (op.provider == "" || Some(op.provider) == LastProvider(t, ops, l)))
      && UpToDate(t, all, l) == (saves || (!fails && !Outdates(t, all, l) && UpToDate(t, ops, l)))
      && Failures(t, all, l) == (if Outdates(t, all, l) then 0 else Failures(t, ops, l) + if fails then 1 else 0)
  {
    Snoc(ops, op);
    hide Accepted;
  }

  /** The row that a transaction leaves for a listing. */
  lemma {:induction false} RowStep(t: Chars, ops: seq<Op>, s: State, op: Op, l: ListingId)
    requires Tables(s) && ListingsAgree(t, ops, s) && RowAgrees(t, ops, s, l)
    ensures RowAgrees(t, ops + [op], Step(t, s, op), l)
  {
    hide Tables;
    match op
    case Save(k, input) => SaveAgrees(t, ops, s, op, l);
    case Fail(k, provider) => FailAgrees(t, ops, s, op, l);
    case Invalidate(provider) => InvalidateAgrees(t, ops, s, op, l);
    case _ =>
      hide Step, Accepted, LastLocation, LastProvider, EverSaved, Outdates, UpToDate, Failures, ListingsAgree;
      Snoc(ops, op);
      OneMore(t, ops, op, l);
      StepChanges(t, s, op);
  }

  lemma {:induction false} SaveAgrees(t: Chars, ops: seq<Op>, s: State, op: Op, l: ListingId)
    requires Tables(s) && ListingsAgree(t, ops, s) && RowAgrees(t, ops, s, l) && op.Save?
    ensures RowAgrees(t, ops + [op], Step(t, s, op), l)
  {
    hide Tables, Step, AnalysisSaved, Accepted, LastListing, LastLocation, LastProvider, EverSaved, Outdates, UpToDate, Failures;
    Snoc(ops, op);
    OneMore(t, ops, op, l);
    StepOfSave(t, s, op.listing, op.input);
    if op.listing in s.listings { SaveChanges(t, s, op.listing, op.input); }
  }

  lemma {:induction false} FailAgrees(t: Chars, ops: seq<Op>, s: State, op: Op, l: ListingId)
    requires Tables(s) && ListingsAgree(t, ops, s) && RowAgrees(t, ops, s, l) && op.Fail?
    ensures RowAgrees(t, ops + [op], Step(t, s, op), l)
  {
    hide Tables, Accepted, LastListing, LastLocation, LastProvider, EverSaved, Outdates, UpToDate, Failures;
    Snoc(ops, op);
    OneMore(t, ops, op, l);
  }

  lemma {:induction false} InvalidateAgrees(t: Chars, ops: seq<Op>, s: State, op: Op, l: ListingId)
    requires Tables(s) && ListingsAgree(t, ops, s) && RowAgrees(t, ops, s, l) && op.Invalidate?
    ensures RowAgrees(t, ops + [op], Step(t, s, op), l)
  {
    hide Tables, Accepted, LastListing, LastLocation, LastProvider, EverSaved, Outdates, UpToDate, Failures;
    Snoc(ops, op);
    OneMore(t, ops, op, l);
  }

  ghost predicate Agrees(t: Chars, ops: seq<Op>, s: State)
  {
    SourcesAgree(ops, s) && ListingsAgree(t, ops, s) && forall l :: RowAgrees(t, ops, s, l)
  }

  lemma {:induction false} AgreesStep(t: Chars, ops: seq<Op>, s: State, op: Op)
    requires Tables(s) && Agrees(t, ops, s)
    ensures Agrees(t, ops + [op], Step(t, s, op))
  {
    hide Tables, SourcesAgree, ListingsAgree, RowAgrees, Step;
    SourcesStep(t, ops, s, op);
    ListingsStep(t, ops, s, op);
    forall l
      ensures RowAgrees(t, ops + [op], Step(t, s, op), l)
    {
      RowStep(t, ops, s, op, l);
    }
  }

  lemma {:induction false} RunAgrees(t: Chars, done: seq<Op>, s: State, ops: seq<Op>, s': State)
    requires Tables(s) && Agrees(t, done, s) && Reaches(t, s, ops, s')
    ensures Agrees(t, done + ops, s')
    decreases |ops|
  {
    hide Agrees, Step, Tables;
    if ops == [] {
      assert done + ops == done;
    } else {
      AgreesStep(t, done, s, ops[0]);
      RunAgrees(t, done + [ops[0]], Step(t, s, ops[0]), ops[1..], s');
      assert done + [ops[0]] + ops[1..] == done + ops;
    }
  }

  /** In every reachable store each source and company is as last registered, each listing as last
      accepted, and each analysis as its own last transactions left it: where the last valid analysis
      placed the listing, who analysed it last, whether that still stands, and how often it has failed
      since it was invalidated.  No transaction about another listing shows. */
  lemma {:induction false} StoreAgreesWithJournal(t: Chars, ops: seq<Op>, s: State)
    requires Reaches(t, EMPTY, ops, s)
    ensures SourcesAgree(ops, s) && ListingsAgree(t, ops, s) && forall l :: RowAgrees(t, ops, s, l)
  {
    assert Agrees(t, [], EMPTY);
    hide Agrees, Reaches;
    RunAgrees(t, [], EMPTY, ops, s);
    assert [] + ops == ops;
    AgreesMeans(t, ops, s);
  }

  lemma {:induction false} AgreesMeans(t: Chars, ops: seq<Op>, s: State)
    requires Agrees(t, ops, s)
    ensures SourcesAgree(ops, s) && ListingsAgree(t, ops, s) && forall l :: RowAgrees(t, ops, s, l)
  {
  }

  // ----- What follows for resolving -----

  /** A listing is placed where its last valid analysis put it. */
  lemma {:induction false} PlacedWhereLastSaved(t: Chars, ops: seq<Op>, s: State, l: ListingId)
    requires Reaches(t, EMPTY, ops, s)
    ensures LocationOf(s, l) == LastLocation(t, ops, l)
  {
    hide Reaches, SourcesAgree, ListingsAgree;
    StoreAgreesWithJournal(t, ops, s);
    assert RowAgrees(t, ops, s, l);
  }

  /** Resolving a listing again, as the next start-up does, uses the title last accepted and the
      location last saved. */
  lemma {:induction false} ResolvedAsSaved(t: Chars, ops: seq<Op>, s: State, l: ListingId)
    requires Reaches(t, EMPTY, ops, s) && l in Accepted(t, ops)
    ensures Tables(s) && l in s.listings && LastListing(t, ops, l).Some?
    ensures IdentityAt(s, l, LocationOf(s, l)) == M.Identity(LastListing(t, ops, l).value.title, LastLocation(t, ops, l))
    ensures Step(t, s, Resolve(l)) == Resolved(t, s, l, LastLocation(t, ops, l))
  {
    hide Reaches, Resolved, Step, Tables, LastListing, LastLocation, Accepted;
    ListedAsAccepted(t, ops, s, l);
    PlacedWhereLastSaved(t, ops, s, l);
    StepOfResolve(t, s, l);
  }

  lemma {:induction false} ListedAsAccepted(t: Chars, ops: seq<Op>, s: State, l: ListingId)
    requires Reaches(t, EMPTY, ops, s) && l in Accepted(t, ops)
    ensures Tables(s) && l in s.listings && LastListing(t, ops, l) == Some(s.listings[l])
  {
    hide Reaches, SourcesAgree, LastListing, Accepted, RowAgrees, OwnRows, Homes, Announcements;
    EveryReachableStateIsConsistent(t, ops, s);
    StoreAgreesWithJournal(t, ops, s);
  }

  lemma {:induction false} StepOfResolve(t: Chars, s: State, l: ListingId)
    requires Tables(s) && l in s.listings
    ensures Step(t, s, Resolve(l)) == Resolved(t, s, l, LocationOf(s, l))
  {
    hide Resolved, Tables;
  }

  /** Right after a valid analysis that is the identity just saved. */
  lemma {:induction false} ResolvedAsJustSaved(t: Chars, ops: seq<Op>, s: State, l: ListingId, input: AnalysisInput)
    requires Reaches(t, EMPTY, ops + [Save(l, input)], s) && l in Accepted(t, ops) && input.valid
    ensures Tables(s) && l in s.listings && Step(t, s, Resolve(l)) == Resolved(t, s, l, input.location)
  {
    hide Reaches, Resolved, Accepted;
    var all := ops + [Save(l, input)];
    Snoc(ops, Save(l, input));
    NothingAccepted(t, ops, Save(l, input));
    OneMore(t, ops, Save(l, input), l);
    ResolvedAsSaved(t, all, s, l);
  }

  /** A listing that joins another opportunity joins one of the place it was last analysed to be in. */
  lemma {:induction false} JoinsItsPlace(t: Chars, ops: seq<Op>, s: State, l: ListingId)
    requires Reaches(t, EMPTY, ops, s) && l in Accepted(t, ops)
    requires Tables(s) && l in s.listings && Alone(s, l)
    ensures forall o :: (l, o) in Step(t, s, Resolve(l)).membership.Items && (l, o) !in s.membership.Items ==>
        && o in s.opportunities && s.opportunities[o].active && s.opportunities[o].company == l.company
        && M.NormalizeLocation(t, s.opportunities[o].identity.location) == M.NormalizeLocation(t, LastLocation(t, ops, l))
  {
    hide Reaches, Resolved, Step, Tables, Alone, M.NormalizeLocation, LastLocation, Accepted;
    ResolvedAsSaved(t, ops, s, l);
    JoinsCandidate(t, s, l, LastLocation(t, ops, l));
  }

  lemma {:induction false} JoinsCandidate(t: Chars, s: State, l: ListingId, location: string)
    requires Tables(s) && l in s.listings && Alone(s, l)
    ensures forall o :: (l, o) in Resolved(t, s, l, location).membership.Items && (l, o) !in s.membership.Items ==>
      && o in s.opportunities && s.opportunities[o].active && s.opportunities[o].company == l.company
      && M.NormalizeLocation(t, s.opportunities[o].identity.location) == M.NormalizeLocation(t, location)
  {
    hide Resolved, M.Evaluate, M.NormalizeLocation, M.NormalizeTitle, NoDuplicates, Alone;
    var identity := IdentityAt(s, l, location);
    ResolveIsStep(t, s, l, location);
    var s' := Resolved(t, s, l, location);
    if s'.membership != s.membership {
      var p :| p in AutoCandidates(t, s, l, identity) && s' == Merging(Refreshed(t, s, l, identity), l, p);
      M.OutcomeIff(t, identity, s.opportunities[p].identity);
    }
  }

  // ----- Program windows -----

  /** The company a program window was last registered for. */
  function LastWindow(ops: seq<Op>, key: string): Option<string>
    decreases |ops|
  {
    if ops == [] then None
    else if Last(ops).RegisterProgram? && Last(ops).key == key && LastPriority(Init(ops), Last(ops).company).Some?
    then Some(Last(ops).company)
    else LastWindow(Init(ops), key)
  }

  ghost predicate WindowAgrees(ops: seq<Op>, s: State, key: string)
  {
    && (Program(key) in s.opportunities <==> LastWindow(ops, key).Some?)
    && (Program(key) in s.opportunities ==> LastWindow(ops, key) == Some(s.opportunities[Program(key)].company))
  }

  /** A program window's row is there as before and of the same company. */
  ghost predicate SameWindow(s: State, s': State, key: string)
  {
    && (Program(key) in s'.opportunities <==> Program(key) in s.opportunities)
    && (Program(key) in s.opportunities ==> s'.opportunities[Program(key)].company == s.opportunities[Program(key)].company)
  }

  lemma {:induction false} ResolveKeepsWindow(t: Chars, s: State, l: ListingId, location: string, key: string)
    requires Tables(s) && l in s.listings
    ensures SameWindow(s, Resolved(t, s, l, location), key)
  {
    hide Resolved, M.Normal, M.Evaluate, NoDuplicates, Alone;
    ResolveIsStep(t, s, l, location);
  }

  lemma {:induction false} PassKeepsWindow(t: Chars, s: State, items: seq<ListingId>, key: string)
    requires Tables(s) && forall l <- items :: l in s.listings
    ensures SameWindow(s, ReconciledOver(t, s, items), key)
    decreases |items|
  {
    hide Resolved, Tables;
    if items != [] {
      var l := items[0];
      assert l in items;
      ResolveKeepsTables(t, s, l, LocationOf(s, l));
      ResolveKeepsWindow(t, s, l, LocationOf(s, l), key);
      assert forall k <- items[1..] :: k in items;
      PassKeepsWindow(t, Resolved(t, s, l, LocationOf(s, l)), items[1..], key);
    }
  }

  lemma {:induction false} SaveKeepsWindow(t: Chars, s: State, l: ListingId, input: AnalysisInput, key: string)
    requires Tables(s) && l in s.listings
    ensures SameWindow(s, AnalysisSaved(t, s, l, input), key)
  {
    hide Resolved, Tables;
    AnalyzedTables(s, l, input);
    ResolveKeepsTables(t, Analyzed(s, l, input), l, input.location);
    ResolveKeepsWindow(t, Analyzed(s, l, input), l, input.location, key);
  }

  lemma {:induction false} WindowStep(t: Chars, ops: seq<Op>, s: State, op: Op, key: string)
    requires Tables(s) && SourcesAgree(ops, s) && WindowAgrees(ops, s, key)
    ensures WindowAgrees(ops + [op], Step(t, s, op), key)
  {
    hide Resolved, Tables, AnalysisSaved, ReconciledOver, M.NormalizeTitle;
    Snoc(ops, op);
    match op
    case RegisterProgram(k, company, name) =>
    case Save(l, input) => if l in s.listings { SaveKeepsWindow(t, s, l, input, key); }
    case Reconcile =>
      ItemsAreListed(s);
      PassKeepsWindow(t, s, Items(s, s.order), key);
    case Resolve(l) => if l in s.listings { ResolveKeepsWindow(t, s, l, LocationOf(s, l), key); }
    case _ =>
  }

  lemma {:induction false} RunWindowAgrees(t: Chars, done: seq<Op>, s: State, ops: seq<Op>, s': State, key: string)
    requires Tables(s) && Agrees(t, done, s) && WindowAgrees(done, s, key) && Reaches(t, s, ops, s')
    ensures WindowAgrees(done + ops, s', key)
    decreases |ops|
  {
    hide WindowAgrees, Step, Tables, ListingsAgree, RowAgrees, SourcesAgree;
    if ops == [] {
      assert done + ops == done;
    } else {
      WindowStep(t, done, s, ops[0], key);
      AgreesStep(t, done, s, ops[0]);
      hide Agrees;
      RunWindowAgrees(t, done + [ops[0]], Step(t, s, ops[0]), ops[1..], s', key);
      assert done + [ops[0]] + ops[1..] == done + ops;
    }
  }

  /** In every reachable store a program window is of the registered company it was last registered for,
      and there is one exactly for each key so registered. */
  lemma {:induction false} WindowsAgreeWithJournal(t: Chars, ops: seq<Op>, s: State, key: string)
    requires Reaches(t, EMPTY, ops, s)
    ensures Program(key) in s.opportunities <==> LastWindow(ops, key).Some?
    ensures Program(key) in s.opportunities ==> LastWindow(ops, key) == Some(s.opportunities[Program(key)].company)
  {
    assert Agrees(t, [], EMPTY) && WindowAgrees([], EMPTY, key);
    hide Agrees, Reaches;
    RunWindowAgrees(t, [], EMPTY, ops, s, key);
    assert [] + ops == ops;
  }

  /** A registered window is active under the normal form of its name, keeps its place, and touches no
      other row; for an unknown company nothing happens. */
  lemma {:induction false} WindowIsNamed(t: Chars, ops: seq<Op>, s: State, key: string, company: string, name: string)
    requires Reaches(t, EMPTY, ops, s) && Tables(s)
    ensures var (s', o) := (Step(t, s, RegisterProgram(key, company, name)), Program(key));
      if LastPriority(ops, company).None? then s' == s
      else
        && o in s'.opportunities && s'.opportunities[o].active && s'.opportunities[o].company == company
        && s'.opportunities[o].identity.title == M.NormalizeTitle(t, name)
        && s'.opportunities[o].identity.location == (if o in s.opportunities then s.opportunities[o].identity.location else "")
        && s' == s.(opportunities := s'.opportunities) && s'.opportunities - {o} == s.opportunities - {o}
  {
    hide Reaches, Tables, M.NormalizeTitle, ListingsAgree, RowAgrees, LastPriority, LastSource;
    StoreAgreesWithJournal(t, ops, s);
  }

  /** A new listing opens an opportunity of its own under its normal title, active and without a place,
      and stands at the given position among the others, whose order stays. */
  lemma {:induction false} NewListingOpens(t: Chars, ops: seq<Op>, s: State, op: Op)
    requires Reaches(t, EMPTY, ops, s) && Tables(s)
    requires op.Upsert? && Acceptable(t, ops, op) && op.position <= |s.order| && ListingId(op.company, op.url) !in Accepted(t, ops)
    ensures var (s', l) := (Step(t, s, op), ListingId(op.company, op.url));
      && l in s'.membership && s'.membership[l] == Own(l) && Own(l) in s'.opportunities
      && s'.opportunities[Own(l)] == Opportunity(op.company, M.Identity(M.NormalizeTitle(t, op.title), ""), true)
      && |s'.order| == |s.order| + 1 && s'.order[op.position] == l
      && s'.order[..op.position] + s'.order[op.position + 1..] == s.order
  {
    hide Reaches, NoDuplicates, Tables, M.NormalizeTitle, Acceptable, LastSource, LastListing, LastPriority, Step;
    StoreAgreesWithJournal(t, ops, s);
    AsManyAsAccepted(t, ops, s);
    AcceptsIff(t, ops, s, op);
    UpsertOpens(t, s, op);
  }

  lemma {:induction false} AsManyAsAccepted(t: Chars, ops: seq<Op>, s: State)
    requires Tables(s) && ListingsAgree(t, ops, s)
    ensures |s.order| == |Accepted(t, ops)|
  {
    OrderSize(s.order, s.listings.Keys);
  }

  lemma {:induction false} UpsertOpens(t: Chars, s: State, op: Op)
    requires Tables(s) && op.Upsert? && op.position <= |s.order|
    requires Accepts(t, s, op.source, op.company, op.title) && ListingId(op.company, op.url) !in s.listings
    ensures var (s', l) := (Step(t, s, op), ListingId(op.company, op.url));
      && l in s'.membership && s'.membership[l] == Own(l) && Own(l) in s'.opportunities
      && s'.opportunities[Own(l)] == Opportunity(op.company, M.Identity(M.NormalizeTitle(t, op.title), ""), true)
      && |s'.order| == |s.order| + 1 && s'.order[op.position] == l
      && s'.order[..op.position] + s'.order[op.position + 1..] == s.order
  {
    hide NoDuplicates, M.NormalizeTitle, Accepts;
    var s', p := Step(t, s, op), op.position;
    assert s'.order == s.order[..p] + [ListingId(op.company, op.url)] + s.order[p..];
    assert s'.order[..p] == s.order[..p] && s'.order[p + 1..] == s.order[p..];
  }
}
