/** When the start-up reconciliation of opportunities is idempotent (internal/store/sqlite.go,
    ReconcileOpportunities).

    In general it is not: similarity is not transitive, so passes can split and merge again.  In a
    settled store one pass reaches a fixed point, and a store that is settled but for the condition
    on untitled listings is settled exactly when every batch is idempotent. */
module Reconciliation {
  import opened Wrappers
  import opened Text
  import opened Opportunities
  import M = Matcher

  ghost function Ident(s: State, l: ListingId): M.Identity
    requires l in s.listings
  {
    IdentityAt(s, l, LocationOf(s, l))
  }

  /** The opportunity row a listing sits in. */
  ghost function HomeOf(s: State, l: ListingId): Opportunity
    requires Tables(s) && l in s.listings
  {
    s.opportunities[s.membership[l]]
  }

  ghost function StoredOf(s: State, l: ListingId): M.Identity
    requires Tables(s) && l in s.listings
  {
    HomeOf(s, l).identity
  }

  ghost predicate Merges(t: Chars, s: State, l: ListingId, o: OppId)
    requires l in s.listings && o in s.opportunities
  {
    M.Evaluate(t, Ident(s, l), s.opportunities[o].identity).outcome == M.AutoMerge
  }

  /** Every listing's opportunity is active, of its company, and stores its normal identity. */
  ghost predicate Stores(t: Chars, s: State)
    requires Tables(s)
  {
    forall l <- s.listings ::
      HomeOf(s, l).active && HomeOf(s, l).company == l.company && StoredOf(s, l) == M.Normal(t, Ident(s, l))
  }

  ghost predicate Unoccupied(s: State, o: OppId)
  {
    forall k <- s.membership :: s.membership[k] != o
  }

  /** The opportunity that l would split into is free to take: nobody lives there, and if its row
      exists it is inactive and of l's company. */
  ghost predicate Clear(t: Chars, s: State, l: ListingId)
    requires Tables(s) && l in s.listings
  {
    var target := SplitTarget(t, s, l, Ident(s, l));
    && Unoccupied(s, target)
    && (target in s.opportunities ==> !s.opportunities[target].active && s.opportunities[target].company == l.company)
  }

  /** A listing without a title matches nothing, not even its equals, so it leaves a shared opportunity;
      wherever that can happen, the way is clear. */
  ghost predicate Free(t: Chars, s: State)
    requires Tables(s)
  {
    forall l <- s.listings :: StoredOf(s, l).title == "" && !Alone(s, l) ==> Clear(t, s, l)
  }

  /** Listings merge automatically only with opportunities of their own identity, and under a title. */
  ghost predicate Distinct(t: Chars, s: State)
    requires Tables(s)
  {
    forall l, o :: l in s.listings && o in s.opportunities && s.opportunities[o].active && Merges(t, s, l, o) ==>
      s.opportunities[o].identity == StoredOf(s, l) && StoredOf(s, l).title != ""
  }

  ghost predicate Settled(t: Chars, s: State)
  {
    Tables(s) && Stores(t, s) && Free(t, s) && Distinct(t, s)
  }

  /** o is another active opportunity of l's company with l's identity. */
  ghost predicate SameClass(s: State, l: ListingId, o: OppId)
    requires Tables(s) && l in s.listings
  {
    && o in s.opportunities && o != s.membership[l]
    && s.opportunities[o].active && s.opportunities[o].company == l.company
    && s.opportunities[o].identity == StoredOf(s, l) && StoredOf(s, l).title != ""
  }

  lemma {:induction false} OwnNormalFormMerges(t: Chars, identity: M.Identity)
    requires M.Normal(t, identity).title != ""
    ensures M.Evaluate(t, identity, M.Normal(t, identity)).outcome == M.AutoMerge
  {
    M.EvaluateOnNormalForms(t, identity, identity);
    M.OutcomeIff(t, identity, identity);
  }

  lemma {:induction false} SameNormalFormsMerge(t: Chars, a: M.Identity, b: M.Identity)
    requires M.Normal(t, a) == M.Normal(t, b) && M.Normal(t, a).title != ""
    ensures M.Evaluate(t, a, b).outcome == M.AutoMerge
  {
    M.OutcomeIff(t, a, b);
  }

  lemma {:induction false} CandidatesAreClass(t: Chars, s: State, l: ListingId, o: OppId)
    requires Settled(t, s) && l in s.listings
    ensures o in AutoCandidates(t, s, l, Ident(s, l)) <==> SameClass(s, l, o)
  {
    hide M.Evaluate, M.Normal;
    if SameClass(s, l, o) {
      OwnNormalFormMerges(t, Ident(s, l));
    }
    if o in AutoCandidates(t, s, l, Ident(s, l)) {
      assert Merges(t, s, l, o);
    }
  }

  ghost function Candidates(t: Chars, s: State, l: ListingId): set<OppId>
    requires Tables(s) && l in s.listings
  {
    AutoCandidates(t, s, l, Ident(s, l))
  }

  /** Resolving the listing would not move it. */
  ghost predicate Quiet(t: Chars, s: State, l: ListingId)
    requires Tables(s) && l in s.listings
  {
    if StoredOf(s, l).title == "" then Alone(s, l) else !Alone(s, l) || |Candidates(t, s, l)| != 1
  }

  lemma {:induction false} UntitledHasNoClass(t: Chars, s: State, l: ListingId)
    requires Settled(t, s) && l in s.listings && StoredOf(s, l).title == ""
    ensures Tables(s) && Candidates(t, s, l) == {}
  {
    hide M.Evaluate, M.Normal, AutoCandidates, Stores, Free, Distinct, NoDuplicates, Candidates;
    forall o
      ensures o !in Candidates(t, s, l)
    {
      CandidateIffClass(t, s, l, o);
    }
  }

  lemma {:induction false} CandidateIffClass(t: Chars, s: State, l: ListingId, o: OppId)
    requires Tables(s) && Settled(t, s) && l in s.listings
    ensures o in Candidates(t, s, l) <==> SameClass(s, l, o)
  {
    hide AutoCandidates, SameClass, Settled, Tables;
    CandidatesAreClass(t, s, l, o);
  }

  lemma {:induction false} RefreshedIffStored(t: Chars, s: State, l: ListingId, identity: M.Identity)
    requires Tables(s) && l in s.listings
    ensures Refreshed(t, s, l, identity) == s <==> HomeOf(s, l).active && StoredOf(s, l) == M.Normal(t, identity)
  {
    hide M.Normal, NoDuplicates;
    var current := s.membership[l];
    var row := s.opportunities[current].(identity := M.Normal(t, identity), active := true);
    if Refreshed(t, s, l, identity) == s {
      assert s.opportunities[current := row][current] == row;
    } else {
      assert s.opportunities[current := row] != s.opportunities;
    }
  }

  lemma {:induction false} QuietResolvesToItself(t: Chars, s: State, l: ListingId)
    requires Settled(t, s) && l in s.listings && Quiet(t, s, l)
    ensures Resolved(t, s, l, LocationOf(s, l)) == s
  {
    hide M.Evaluate, M.Normal, AutoCandidates, Alone, Free, Distinct, Resolved, NoDuplicates, Refreshed, Splitting;
    AloneIff(s, l);
    if StoredOf(s, l).title == "" { UntitledHasNoClass(t, s, l); }
    var other := FirstOther(s, l, s.order);
    if other.Some? {
      SameNormalFormsMerge(t, Ident(s, l), Ident(s, other.value));
      SharedResolves(t, s, l, LocationOf(s, l));
    } else {
      RefreshedIffStored(t, s, l, Ident(s, l));
      LonelyStays(t, s, l, LocationOf(s, l));
    }
  }

  lemma {:induction false} OnlyElement(c: set<OppId>, a: OppId)
    requires |c| == 1 && a in c
    ensures c == {a}
  {
    var rest := c - {a};
    assert |rest| == 0;
    assert c == rest + {a};
  }

  /** s' is s with l merged into o, its only candidate. */
  ghost predicate MergedInto(t: Chars, s: State, s': State, l: ListingId, o: OppId)
    requires Tables(s) && l in s.listings
  {
    && Alone(s, l) && Candidates(t, s, l) == {o}
    && SameListings(s, s') && Tables(s')
    && s'.membership == s.membership[l := o]
    && s'.opportunities == s.opportunities[s.membership[l] :=
         s.opportunities[s.membership[l]].(identity := M.Normal(t, Ident(s, l)), active := false)]
  }

  lemma {:induction false} LoudResolvesToMerge(t: Chars, s: State, l: ListingId) returns (o: OppId)
    requires Tables(s) && l in s.listings && Alone(s, l) && |Candidates(t, s, l)| == 1
    ensures o in Candidates(t, s, l)
    ensures Resolved(t, s, l, LocationOf(s, l)) == Merging(Refreshed(t, s, l, Ident(s, l)), l, o)
  {
    AloneIff(s, l);
    hide M.Evaluate, M.Normal, AutoCandidates, Alone, NoDuplicates, Merging, Refreshed, Tables;
    o :| o in Candidates(t, s, l) && Resolved(t, s, l, LocationOf(s, l)) == Merging(Refreshed(t, s, l, Ident(s, l)), l, o);
  }

  lemma {:induction false} LoudMerges(t: Chars, s: State, l: ListingId) returns (o: OppId)
    requires Tables(s) && l in s.listings && Alone(s, l) && |Candidates(t, s, l)| == 1
    ensures MergedInto(t, s, Resolved(t, s, l, LocationOf(s, l)), l, o)
  {
    hide Resolved, M.Evaluate, M.Normal, AutoCandidates, Alone, Merging, Refreshed, Tables;
    o := LoudResolvesToMerge(t, s, l);
    ResolveKeepsTables(t, s, l, LocationOf(s, l));
    MergingAt(t, s, l, Ident(s, l), o);
    OnlyElement(Candidates(t, s, l), o);
  }

  /** What a merge carries over: every listing's stored identity, and every row's. */
  ghost predicate Carries(s: State, s': State)
    requires Tables(s) && Tables(s')
  {
    && s'.listings == s.listings && s'.analyses == s.analyses
    && s'.opportunities.Keys == s.opportunities.Keys
    && (forall k <- s.listings ::
          StoredOf(s', k) == StoredOf(s, k) && HomeOf(s', k).active && HomeOf(s', k).company == k.company)
    && (forall p <- s.opportunities ::
          && s'.opportunities[p].identity == s.opportunities[p].identity
          && (s'.opportunities[p].active ==> s.opportunities[p].active))
  }

  lemma {:induction false} MergesIntoClass(t: Chars, s: State, s': State, l: ListingId, o: OppId)
    requires Settled(t, s) && l in s.listings && MergedInto(t, s, s', l, o)
    ensures SameClass(s, l, o)
  {
    CandidatesAreClass(t, s, l, o);
    hide M.Evaluate, M.Normal, AutoCandidates, NoDuplicates, Stores, Free, Distinct, SameClass, Tables, Alone;
    assert o in Candidates(t, s, l);
  }

  lemma {:induction false} OthersLiveElsewhere(s: State, l: ListingId, k: ListingId)
    requires Tables(s) && l in s.listings && k in s.listings && Alone(s, l) && k != l
    ensures s.membership[k] != s.membership[l]
  {
    hide NoDuplicates;
    assert !IsOther(s, l, k);
  }

  lemma {:induction false} MergeCarriesListing(t: Chars, s: State, s': State, l: ListingId, o: OppId, k: ListingId)
    requires Tables(s) && Stores(t, s) && l in s.listings && MergedInto(t, s, s', l, o) && SameClass(s, l, o)
    requires k in s.listings
    ensures StoredOf(s', k) == StoredOf(s, k)
    ensures HomeOf(s', k).active && HomeOf(s', k).company == k.company
  {
    hide M.Evaluate, M.Normal, NoDuplicates, Alone, Candidates;
    if k != l { OthersLiveElsewhere(s, l, k); }
  }

  lemma {:induction false} MergeCarriesRows(t: Chars, s: State, s': State, l: ListingId, o: OppId)
    requires Tables(s) && Stores(t, s) && l in s.listings && MergedInto(t, s, s', l, o)
    ensures s'.opportunities.Keys == s.opportunities.Keys
    ensures forall p <- s.opportunities ::
      && s'.opportunities[p].identity == s.opportunities[p].identity
      && (s'.opportunities[p].active ==> s.opportunities[p].active)
  {
    hide M.Evaluate, M.Normal, NoDuplicates, Alone, Candidates;
    assert StoredOf(s, l) == M.Normal(t, Ident(s, l));
  }

  lemma {:induction false} MergeCarries(t: Chars, s: State, s': State, l: ListingId, o: OppId)
    requires Settled(t, s) && l in s.listings && MergedInto(t, s, s', l, o)
    ensures SameClass(s, l, o) && Carries(s, s')
  {
    hide M.Evaluate, M.Normal, Stores, Free, Distinct, SameClass, Tables, HomeOf, StoredOf, MergedInto, Alone, Candidates;
    MergesIntoClass(t, s, s', l, o);
    MergedTables(t, s, s', l, o);
    MergeCarriesRows(t, s, s', l, o);
    forall k | k in s.listings
      ensures StoredOf(s', k) == StoredOf(s, k)
      ensures HomeOf(s', k).active && HomeOf(s', k).company == k.company
    {
      MergeCarriesListing(t, s, s', l, o, k);
    }
  }

  lemma {:induction false} CarriedStays(t: Chars, s: State, s': State)
    requires Tables(s) && Tables(s') && Stores(t, s) && Distinct(t, s) && Carries(s, s')
    ensures Stores(t, s') && Distinct(t, s')
  {
    hide M.Evaluate, M.Normal, Tables;
    assert forall k <- s.listings :: Ident(s', k) == Ident(s, k);
    forall k, p | k in s'.listings && p in s'.opportunities && s'.opportunities[p].active && Merges(t, s', k, p)
      ensures s'.opportunities[p].identity == StoredOf(s', k) && StoredOf(s', k).title != ""
    {
      assert Merges(t, s, k, p);
    }
  }

  lemma {:induction false} ClassIsActive(s: State, l: ListingId, o: OppId)
    requires Tables(s) && l in s.listings && SameClass(s, l, o)
    ensures o in s.opportunities && s.opportunities[o].active && s.opportunities[o].identity.title != ""
    ensures StoredOf(s, l).title != ""
  {
    hide Tables;
  }

  /** A merge moves a titled listing to a titled opportunity, so it brings no untitled listing company. */
  lemma {:induction false} MergeBringsNoCompany(t: Chars, s: State, s': State, l: ListingId, o: OppId, k: ListingId)
    requires Tables(s) && l in s.listings && MergedInto(t, s, s', l, o) && SameClass(s, l, o)
    requires k in s.listings && StoredOf(s, k).title == "" && !Alone(s', k)
    ensures !Alone(s, k) && k != l
  {
    ClassIsActive(s, l, o);
    hide M.Evaluate, M.Normal, NoDuplicates, Candidates, SameClass;
    assert k != l && s.membership[k] != o;
    var x :| IsOther(s', k, x);
    assert x != l && IsOther(s, k, x);
  }

  /** Moving a listing elsewhere and touching no row of the target leaves the way clear. */
  lemma {:induction false} StaysClear(t: Chars, s: State, s': State, l: ListingId, o: OppId, k: ListingId)
    requires Tables(s) && Tables(s') && l in s.listings && k in s.listings && k in s'.listings && k != l && Clear(t, s, k)
    requires s'.listings == s.listings && s'.analyses == s.analyses && s'.membership == s.membership[l := o]
    requires var target := SplitTarget(t, s, k, Ident(s, k));
      && o != target && (target in s'.opportunities <==> target in s.opportunities)
      && (target in s.opportunities ==> s'.opportunities[target] == s.opportunities[target])
    ensures Clear(t, s', k)
  {
    assert k in s.membership && k in s'.membership;
    hide M.Normal, Tables;
    assert SplitTarget(t, s', k, Ident(s', k)) == SplitTarget(t, s, k, Ident(s, k));
    hide SplitTarget, Ident;
  }

  /** Nor does it get in the way of one. */
  lemma {:induction false} MergeStaysClear(t: Chars, s: State, s': State, l: ListingId, o: OppId, k: ListingId)
    requires Tables(s) && l in s.listings && MergedInto(t, s, s', l, o) && SameClass(s, l, o)
    requires Tables(s') && k in s.listings && k in s'.listings && k != l && Clear(t, s, k)
    ensures Clear(t, s', k)
  {
    ClassIsActive(s, l, o);
    var target := SplitTarget(t, s, k, Ident(s, k));
    assert s.membership[l] != target && o != target && s.membership[l] in s.opportunities by {
      hide M.Normal, NoDuplicates, Candidates, SameClass, SplitTarget, Alone, MergedInto;
    }
    hide M.Evaluate, M.Normal, Candidates, SameClass, SplitTarget, Alone, Tables, Clear, Ident, IsOther;
    StaysClear(t, s, s', l, o, k);
  }

  lemma {:induction false} MergeStaysFree(t: Chars, s: State, s': State, l: ListingId, o: OppId, k: ListingId)
    requires Tables(s) && Free(t, s) && l in s.listings && MergedInto(t, s, s', l, o) && SameClass(s, l, o)
    requires Tables(s') && k in s.listings && k in s'.listings && StoredOf(s, k).title == "" && !Alone(s', k)
    ensures !Alone(s, k) && Clear(t, s', k)
  {
    MergeBringsNoCompany(t, s, s', l, o, k);
    assert Clear(t, s, k);
    hide Tables, SameClass, MergedInto, Clear, Alone, Free;
    MergeStaysClear(t, s, s', l, o, k);
  }

  lemma {:induction false} MergeStaysSettled(t: Chars, s: State, s': State, l: ListingId, o: OppId)
    requires Settled(t, s) && l in s.listings && MergedInto(t, s, s', l, o)
    ensures Settled(t, s')
  {
    MergeCarries(t, s, s', l, o);
    CarriedStays(t, s, s');
    hide M.Evaluate, M.Normal, Alone, Candidates, Stores, Distinct, NoDuplicates, SameClass, IsOther, Tables, MergedInto;
    MergedTables(t, s, s', l, o);
    forall k | k in s'.listings && StoredOf(s', k).title == "" && !Alone(s', k)
      ensures Clear(t, s', k)
    {
      assert StoredOf(s', k) == StoredOf(s, k);
      MergeStaysFree(t, s, s', l, o, k);
    }
  }

  lemma {:induction false} MergedTables(t: Chars, s: State, s': State, l: ListingId, o: OppId)
    requires Tables(s) && l in s.listings && MergedInto(t, s, s', l, o)
    ensures Tables(s') && s'.listings == s.listings && s'.analyses == s.analyses
  {
    hide Tables;
  }

  /** If l's opportunity is a candidate of k, then k's home is a candidate of l. */
  lemma {:induction false} HomeIsClassmate(t: Chars, s: State, l: ListingId, k: ListingId)
    requires Settled(t, s) && l in s.listings && k in s.listings && SameClass(s, k, s.membership[l])
    ensures SameClass(s, l, s.membership[k])
  {
    hide M.Evaluate, M.Normal, NoDuplicates, Free, Distinct;
  }

  /** A merge leaves the merged listing without candidates. */
  lemma {:induction false} MergedIsQuiet(t: Chars, s: State, s': State, l: ListingId, o: OppId)
    requires Settled(t, s) && l in s.listings && MergedInto(t, s, s', l, o)
    ensures Settled(t, s') && Quiet(t, s', l)
  {
    MergeStaysSettled(t, s, s', l, o);
    MergedTables(t, s, s', l, o);
    MergeCarries(t, s, s', l, o);
    ClassIsActive(s, l, o);
    assert StoredOf(s', l) == StoredOf(s, l);
    hide M.Evaluate, M.Normal, Tables, Alone, AutoCandidates, Candidates, Settled, MergedInto, StoredOf, SameClass, Carries;
    forall p
      ensures p !in Candidates(t, s', l)
    {
      MergedHasNone(t, s, s', l, o, p);
    }
    assert Candidates(t, s', l) == {};
  }

  lemma {:induction false} MergedHasNone(t: Chars, s: State, s': State, l: ListingId, o: OppId, p: OppId)
    requires Settled(t, s) && l in s.listings && MergedInto(t, s, s', l, o) && Settled(t, s')
    ensures p !in Candidates(t, s', l)
  {
    hide M.Evaluate, M.Normal, Alone, AutoCandidates, SameClass, HomeOf, StoredOf;
    CandidatesAreClass(t, s', l, p);
    CandidatesAreClass(t, s, l, p);
    MergeCarries(t, s, s', l, o);
    hide Candidates, Settled, Tables;
    assert Candidates(t, s, l) == {o};
    if p in Candidates(t, s', l) {
      ClassShrinks(t, s, s', l, o, p);
    }
  }

  lemma {:induction false} ClassShrinks(t: Chars, s: State, s': State, l: ListingId, o: OppId, p: OppId)
    requires Tables(s) && l in s.listings && MergedInto(t, s, s', l, o) && Carries(s, s') && SameClass(s', l, p)
    ensures SameClass(s, l, p) && p != o
  {
    hide M.Evaluate, M.Normal, NoDuplicates, Candidates, Alone, Tables;
    assert StoredOf(s', l) == StoredOf(s, l);
  }

  /** A listing in company stays so: only l moves, and l was alone. */
  lemma {:induction false} CompanyStays(t: Chars, s: State, s': State, l: ListingId, o: OppId, k: ListingId)
    requires Tables(s) && l in s.listings && MergedInto(t, s, s', l, o)
    requires k in s.listings && k != l && !Alone(s, k)
    ensures !Alone(s', k)
  {
    hide M.Evaluate, M.Normal, NoDuplicates, Candidates;
    var x :| IsOther(s, k, x);
    assert !IsOther(s, l, k);
    assert IsOther(s', k, x);
  }

  /** If the row l leaves was k's candidate, l joins k. */
  lemma {:induction false} LeaverJoins(t: Chars, s: State, s': State, l: ListingId, o: OppId, k: ListingId)
    requires Settled(t, s) && l in s.listings && MergedInto(t, s, s', l, o)
    requires k in s.listings && k != l && s.membership[l] in Candidates(t, s, k)
    ensures !Alone(s', k)
  {
    assert s.membership[k] in Candidates(t, s, l) by {
      CandidatesAreClass(t, s, k, s.membership[l]);
      HomeIsClassmate(t, s, l, k);
      CandidatesAreClass(t, s, l, s.membership[k]);
    }
    JoinsAt(t, s, s', l, o, k);
  }

  lemma {:induction false} JoinsAt(t: Chars, s: State, s': State, l: ListingId, o: OppId, k: ListingId)
    requires Tables(s) && l in s.listings && MergedInto(t, s, s', l, o)
    requires k in s.listings && k != l && s.membership[k] in Candidates(t, s, l)
    ensures !Alone(s', k)
  {
    hide M.Evaluate, M.Normal, NoDuplicates, Candidates;
    assert s.membership[k] == o;
    assert IsOther(s', k, l);
  }

  lemma {:induction false} ClassStays(t: Chars, s: State, s': State, l: ListingId, o: OppId, k: ListingId, p: OppId)
    requires Tables(s) && l in s.listings && MergedInto(t, s, s', l, o) && Carries(s, s')
    requires k in s.listings && k != l && p in s.opportunities
    ensures SameClass(s', k, p) <==> SameClass(s, k, p) && p != s.membership[l]
  {
    hide M.Evaluate, M.Normal, NoDuplicates, Candidates, Alone, Tables;
    MergedTables(t, s, s', l, o);
    assert StoredOf(s', k) == StoredOf(s, k);
  }

  /** Otherwise k's candidates are the same as before. */
  lemma {:induction false} CandidateStays(t: Chars, s: State, s': State, l: ListingId, o: OppId, k: ListingId, p: OppId)
    requires Settled(t, s) && Settled(t, s') && l in s.listings && MergedInto(t, s, s', l, o)
    requires k in s.listings && k != l && s.membership[l] !in Candidates(t, s, k)
    ensures p in Candidates(t, s', k) <==> p in Candidates(t, s, k)
  {
    MergeCarries(t, s, s', l, o);
    hide M.Evaluate, M.Normal, Alone, AutoCandidates, Stores, Free, Distinct, NoDuplicates, MergedInto, Tables;
    CandidatesAreClass(t, s', k, p);
    CandidatesAreClass(t, s, k, p);
    if p in s.opportunities { ClassStays(t, s, s', l, o, k, p); }
  }

  lemma {:induction false} CandidatesStay(t: Chars, s: State, s': State, l: ListingId, o: OppId, k: ListingId)
    requires Tables(s) && Tables(s') && k in s'.listings
    requires Settled(t, s) && Settled(t, s') && l in s.listings && MergedInto(t, s, s', l, o)
    requires k in s.listings && k != l && s.membership[l] !in Candidates(t, s, k)
    ensures Candidates(t, s', k) == Candidates(t, s, k)
  {
    hide M.Evaluate, Alone, AutoCandidates, Candidates, Settled, NoDuplicates, MergedInto, Tables;
    forall p
      ensures p in Candidates(t, s', k) <==> p in Candidates(t, s, k)
    {
      CandidateStays(t, s, s', l, o, k, p);
    }
  }

  /** Merging one listing wakes no quiet one and leaves the merged one quiet. */
  lemma {:induction false} MergeStaysQuiet(t: Chars, s: State, s': State, l: ListingId, o: OppId, k: ListingId)
    requires Settled(t, s) && l in s.listings && MergedInto(t, s, s', l, o)
    requires k in s.listings && (k == l || Quiet(t, s, k))
    ensures Settled(t, s') && Quiet(t, s', k)
  {
    hide M.Evaluate, M.Normal, Alone, Candidates, Stores, Free, Distinct, MergedInto, SameClass, NoDuplicates, StoredOf;
    MergeStaysSettled(t, s, s', l, o);
    MergedTables(t, s, s', l, o);
    MergeCarries(t, s, s', l, o);
    assert StoredOf(s', k) == StoredOf(s, k);
    if k == l {
      MergedIsQuiet(t, s, s', l, o);
    } else if StoredOf(s, k).title == "" {
      if !Alone(s', k) { MergeStaysFree(t, s, s', l, o, k); }
    } else if !Alone(s, k) {
      CompanyStays(t, s, s', l, o, k);
    } else if s.membership[l] in Candidates(t, s, k) {
      LeaverJoins(t, s, s', l, o, k);
    } else {
      CandidatesStay(t, s, s', l, o, k);
    }
  }

  // ----- An untitled listing leaves -----

  lemma {:induction false} UntitledIsSeparate(t: Chars, a: M.Identity, b: M.Identity)
    requires M.Normal(t, a).title == "" || M.Normal(t, b).title == ""
    ensures M.Evaluate(t, a, b).outcome == M.Separate
  {
    M.OutcomeIff(t, a, b);
  }

  /** s' is s with l moved to the opportunity it splits into. */
  ghost predicate SplitInto(t: Chars, s: State, s': State, l: ListingId, target: OppId)
    requires Tables(s) && l in s.listings
  {
    && target == SplitTarget(t, s, l, Ident(s, l))
    && SameListings(s, s') && Tables(s')
    && s'.membership == s.membership[l := target]
    && s'.opportunities == s.opportunities[target := Opportunity(l.company, M.Normal(t, Ident(s, l)), true)]
  }

  lemma {:induction false} ClearSplits(t: Chars, s: State, l: ListingId)
    requires Tables(s) && l in s.listings && Clear(t, s, l)
    ensures SplitInto(t, s, Splitting(t, s, l, Ident(s, l)), l, SplitTarget(t, s, l, Ident(s, l)))
  {
    hide M.Normal, Unoccupied, Relinked, Ident, NoDuplicates;
    SplittingKeepsTables(t, s, l, Ident(s, l));
  }

  /** An untitled listing in company always leaves. */
  lemma {:induction false} SharedSplits(t: Chars, s: State, l: ListingId)
    requires Tables(s) && l in s.listings && M.Normal(t, Ident(s, l)).title == "" && !Alone(s, l)
    ensures Resolved(t, s, l, LocationOf(s, l)) == Splitting(t, s, l, Ident(s, l))
  {
    AloneIff(s, l);
    var other := FirstOther(s, l, s.order).value;
    UntitledIsSeparate(t, Ident(s, l), Ident(s, other));
    hide M.Evaluate, M.Normal, Splitting, Alone, NoDuplicates, FirstOther;
  }

  lemma {:induction false} SplitCarriesListing(t: Chars, s: State, s': State, l: ListingId, target: OppId, k: ListingId)
    requires Tables(s) && Stores(t, s) && l in s.listings && SplitInto(t, s, s', l, target) && Unoccupied(s, target)
    requires k in s.listings
    ensures HomeOf(s', k).active && HomeOf(s', k).company == k.company && StoredOf(s', k) == StoredOf(s, k)
    ensures Ident(s', k) == Ident(s, k)
  {
    hide M.Normal, NoDuplicates;
    assert StoredOf(s, l) == M.Normal(t, Ident(s, l));
  }

  lemma {:induction false} SplitStaysStored(t: Chars, s: State, s': State, l: ListingId, target: OppId)
    requires Tables(s) && Stores(t, s) && l in s.listings && SplitInto(t, s, s', l, target) && Unoccupied(s, target)
    ensures Stores(t, s')
  {
    hide M.Normal, Tables, HomeOf, StoredOf, Ident, Unoccupied;
    forall k | k in s'.listings
      ensures HomeOf(s', k).active && HomeOf(s', k).company == k.company && StoredOf(s', k) == M.Normal(t, Ident(s', k))
    {
      SplitCarriesListing(t, s, s', l, target, k);
    }
  }

  lemma {:induction false} UntitledRowMergesNothing(t: Chars, s: State, l: ListingId, k: ListingId)
    requires Tables(s) && l in s.listings && k in s.listings && M.Normal(t, Ident(s, l)).title == ""
    ensures M.Evaluate(t, Ident(s, k), M.Normal(t, Ident(s, l))).outcome != M.AutoMerge
  {
    M.EvaluateOnNormalForms(t, Ident(s, k), Ident(s, l));
    UntitledIsSeparate(t, Ident(s, k), Ident(s, l));
  }

  lemma {:induction false} SplitRowAt(t: Chars, s: State, s': State, l: ListingId, target: OppId, p: OppId)
    requires Tables(s) && l in s.listings && SplitInto(t, s, s', l, target)
    ensures target in s'.opportunities && s'.opportunities[target].identity == M.Normal(t, Ident(s, l))
    ensures p != target ==> (p in s'.opportunities <==> p in s.opportunities)
    ensures p != target && p in s.opportunities ==> s'.opportunities[p] == s.opportunities[p]
  {
    hide M.Normal, Tables, SplitTarget, Ident;
  }

  lemma {:induction false} SplitStaysDistinct(t: Chars, s: State, s': State, l: ListingId, target: OppId)
    requires Tables(s) && Stores(t, s) && Distinct(t, s) && l in s.listings && StoredOf(s, l).title == ""
    requires SplitInto(t, s, s', l, target) && Unoccupied(s, target)
    ensures Tables(s') && Distinct(t, s')
  {
    hide M.Normal, M.Evaluate, Tables, HomeOf, StoredOf, Ident, Unoccupied, SplitTarget, SplitInto;
    assert StoredOf(s, l) == M.Normal(t, Ident(s, l));
    hide Stores;
    SplitTables(t, s, s', l, target);
    forall k, p | k in s'.listings && p in s'.opportunities && s'.opportunities[p].active && Merges(t, s', k, p)
      ensures s'.opportunities[p].identity == StoredOf(s', k) && StoredOf(s', k).title != ""
    {
      SplitCarriesListing(t, s, s', l, target, k);
      UntitledRowMergesNothing(t, s, l, k);
      SplitRowAt(t, s, s', l, target, p);
      assert p != target && Merges(t, s, k, p);
    }
  }

  /** A split brings nobody company. */
  lemma {:induction false} SplitBringsNoCompany(t: Chars, s: State, s': State, l: ListingId, target: OppId, k: ListingId)
    requires Tables(s) && l in s.listings && SplitInto(t, s, s', l, target) && Unoccupied(s, target)
    requires k in s.listings && !Alone(s', k)
    ensures k != l && !Alone(s, k) && s'.membership[k] == s.membership[k]
  {
    hide M.Normal, NoDuplicates;
    var x :| IsOther(s', k, x);
    assert k != l && x != l;
    assert IsOther(s, k, x);
  }

  /** The opportunities two listings would split into differ. */
  lemma {:induction false} TargetsDiffer(t: Chars, s: State, l: ListingId, k: ListingId)
    requires Tables(s) && l in s.listings && k in s.listings && k != l
    ensures SplitTarget(t, s, l, Ident(s, l)) != SplitTarget(t, s, k, Ident(s, k))
  {
    hide M.Normal, NoDuplicates;
  }

  lemma {:induction false} SplitStaysClear(t: Chars, s: State, s': State, l: ListingId, target: OppId, k: ListingId)
    requires Tables(s) && l in s.listings && SplitInto(t, s, s', l, target)
    requires Tables(s') && k in s.listings && k in s'.listings && k != l && Clear(t, s, k)
    ensures Clear(t, s', k)
  {
    TargetsDiffer(t, s, l, k);
    hide M.Normal, SplitTarget, Tables, Clear, Ident;
    StaysClear(t, s, s', l, target, k);
  }

  lemma {:induction false} SplitStaysFree(t: Chars, s: State, s': State, l: ListingId, target: OppId, k: ListingId)
    requires Tables(s) && Stores(t, s) && Free(t, s) && l in s.listings && SplitInto(t, s, s', l, target) && Unoccupied(s, target)
    requires Tables(s') && k in s.listings && k in s'.listings && StoredOf(s', k).title == "" && !Alone(s', k)
    ensures Clear(t, s', k)
  {
    SplitCarriesListing(t, s, s', l, target, k);
    SplitBringsNoCompany(t, s, s', l, target, k);
    assert Clear(t, s, k);
    hide Tables, Stores, Free, Alone, StoredOf, Clear, SplitInto, Unoccupied;
    SplitStaysClear(t, s, s', l, target, k);
  }

  lemma {:induction false} SplitStaysSettled(t: Chars, s: State, s': State, l: ListingId, target: OppId)
    requires Settled(t, s) && l in s.listings && StoredOf(s, l).title == "" && SplitInto(t, s, s', l, target) && Unoccupied(s, target)
    ensures Settled(t, s')
  {
    SplitStaysStored(t, s, s', l, target);
    SplitStaysDistinct(t, s, s', l, target);
    hide M.Normal, M.Evaluate, Tables, Stores, Distinct, Alone, HomeOf, StoredOf, Ident, Unoccupied, Clear;
    forall k | k in s'.listings && StoredOf(s', k).title == "" && !Alone(s', k)
      ensures Clear(t, s', k)
    {
      SplitStaysFree(t, s, s', l, target, k);
    }
  }

  /** A row that appears untitled changes no titled listing's candidates. */
  lemma {:induction false} UntitledRowAddsNothing(s: State, s': State, k: ListingId, target: OppId, p: OppId)
    requires Tables(s) && Tables(s') && k in s.listings && k in s'.listings
    requires s'.membership[k] == s.membership[k] && StoredOf(s', k) == StoredOf(s, k)
    requires target in s'.opportunities && s'.opportunities[target].identity.title == ""
    requires target in s.opportunities ==> !s.opportunities[target].active
    requires p != target ==> (p in s'.opportunities <==> p in s.opportunities)
    requires p != target && p in s.opportunities ==> s'.opportunities[p] == s.opportunities[p]
    ensures SameClass(s', k, p) <==> SameClass(s, k, p)
  {
    hide Tables, StoredOf;
  }

  lemma {:induction false} SplitMovesOnlyItself(t: Chars, s: State, s': State, l: ListingId, target: OppId, k: ListingId)
    requires Tables(s) && l in s.listings && SplitInto(t, s, s', l, target) && k in s.listings && k != l
    ensures k in s.membership && k in s'.membership && s'.membership[k] == s.membership[k]
  {
    hide M.Normal, NoDuplicates, SplitTarget;
  }

  lemma {:induction false} SplitClassStays(t: Chars, s: State, s': State, l: ListingId, target: OppId, k: ListingId, p: OppId)
    requires Tables(s) && Stores(t, s) && l in s.listings && StoredOf(s, l).title == "" && SplitInto(t, s, s', l, target)
    requires Unoccupied(s, target) && (target in s.opportunities ==> !s.opportunities[target].active)
    requires Tables(s') && k in s.listings && k in s'.listings && k != l
    ensures SameClass(s', k, p) <==> SameClass(s, k, p)
  {
    assert StoredOf(s, l) == M.Normal(t, Ident(s, l));
    hide M.Normal, Tables, Stores, HomeOf, StoredOf, Ident, Unoccupied, SameClass, SplitTarget, SplitInto;
    SplitCarriesListing(t, s, s', l, target, k);
    SplitMovesOnlyItself(t, s, s', l, target, k);
    SplitRowAt(t, s, s', l, target, p);
    UntitledRowAddsNothing(s, s', k, target, p);
  }

  lemma {:induction false} SplitCandidatesStay(t: Chars, s: State, s': State, l: ListingId, target: OppId, k: ListingId)
    requires Tables(s) && Tables(s') && Settled(t, s) && Settled(t, s') && l in s.listings && StoredOf(s, l).title == ""
    requires SplitInto(t, s, s', l, target) && Unoccupied(s, target)
    requires target in s.opportunities ==> !s.opportunities[target].active
    requires k in s.listings && k != l && k in s'.listings
    ensures Candidates(t, s', k) == Candidates(t, s, k)
  {
    hide Candidates, Tables, Stores, Free, Distinct, SplitInto, SameClass, StoredOf, Unoccupied;
    forall p
      ensures p in Candidates(t, s', k) <==> p in Candidates(t, s, k)
    {
      CandidateIffClass(t, s', k, p);
      CandidateIffClass(t, s, k, p);
      SplitClassStays(t, s, s', l, target, k, p);
    }
  }

  lemma {:induction false} TitledCompanyStays(t: Chars, s: State, s': State, l: ListingId, target: OppId, k: ListingId)
    requires Tables(s) && Stores(t, s) && l in s.listings && StoredOf(s, l).title == "" && SplitInto(t, s, s', l, target)
    requires k in s.listings && StoredOf(s, k).title != "" && !Alone(s, k)
    ensures !Alone(s', k)
  {
    hide M.Normal, NoDuplicates, Stores;
    var x :| IsOther(s, k, x);
    assert x != l && k != l;
    assert IsOther(s', k, x);
  }

  /** A split wakes no quiet listing and leaves the split one quiet. */
  lemma {:induction false} SplitStaysQuiet(t: Chars, s: State, s': State, l: ListingId, target: OppId, k: ListingId)
    requires Settled(t, s) && l in s.listings && StoredOf(s, l).title == "" && Clear(t, s, l)
    requires SplitInto(t, s, s', l, target)
    requires k in s.listings && (k == l || Quiet(t, s, k))
    ensures Settled(t, s') && Quiet(t, s', k)
  {
    assert Unoccupied(s, target) && (target in s.opportunities ==> !s.opportunities[target].active);
    SplitStaysSettled(t, s, s', l, target);
    SplitTables(t, s, s', l, target);
    SplitCarriesListing(t, s, s', l, target, k);
    hide M.Normal, Tables, Stores, Free, Distinct, Alone, HomeOf, StoredOf, Ident, Unoccupied, Candidates, SplitInto, Clear;
    if StoredOf(s, k).title == "" {
      if !Alone(s', k) { SplitBringsNoCompany(t, s, s', l, target, k); }
    } else if !Alone(s, k) {
      TitledCompanyStays(t, s, s', l, target, k);
    } else {
      SplitCandidatesStay(t, s, s', l, target, k);
    }
  }

  lemma {:induction false} SplitTables(t: Chars, s: State, s': State, l: ListingId, target: OppId)
    requires Tables(s) && l in s.listings && SplitInto(t, s, s', l, target)
    ensures Tables(s') && s'.listings == s.listings && s'.analyses == s.analyses
  {
    hide Tables;
  }

  // ----- A pass -----

  lemma {:induction false} ResolveSettles(t: Chars, s: State, l: ListingId)
    requires Settled(t, s) && l in s.listings
    ensures Tables(s)
    ensures var s' := Resolved(t, s, l, LocationOf(s, l));
      && Settled(t, s') && SameListings(s, s')
      && forall k <- s.listings :: k == l || Quiet(t, s, k) ==> Quiet(t, s', k)
  {
    TablesOfSettled(t, s);
    ResolveKeepsTables(t, s, l, LocationOf(s, l));
    if Quiet(t, s, l) {
      QuietResolvesToItself(t, s, l);
    } else if StoredOf(s, l).title != "" {
      JoinSettles(t, s, l);
    } else {
      LeaveSettles(t, s, l);
    }
  }

  lemma {:induction false} JoinSettles(t: Chars, s: State, l: ListingId)
    requires Settled(t, s) && l in s.listings && Tables(s) && Alone(s, l) && |Candidates(t, s, l)| == 1
    ensures var s' := Resolved(t, s, l, LocationOf(s, l));
      Settled(t, s') && s'.listings == s.listings && forall k <- s.listings :: k == l || Quiet(t, s, k) ==> Quiet(t, s', k)
  {
    hide Resolved, M.Evaluate, M.Normal, NoDuplicates, Settled, Quiet, MergedInto, Tables, Alone, Candidates;
    var s' := Resolved(t, s, l, LocationOf(s, l));
    var o := LoudMerges(t, s, l);
    MergeStaysSettled(t, s, s', l, o);
    MergedTables(t, s, s', l, o);
    forall k | k in s.listings && (k == l || Quiet(t, s, k))
      ensures Quiet(t, s', k)
    {
      MergeStaysQuiet(t, s, s', l, o, k);
    }
  }

  lemma {:induction false} LeaveSettles(t: Chars, s: State, l: ListingId)
    requires Settled(t, s) && l in s.listings && Tables(s) && StoredOf(s, l).title == "" && !Alone(s, l)
    ensures var s' := Resolved(t, s, l, LocationOf(s, l));
      Settled(t, s') && s'.listings == s.listings && forall k <- s.listings :: k == l || Quiet(t, s, k) ==> Quiet(t, s', k)
  {
    var s' := Resolved(t, s, l, LocationOf(s, l));
    var target := SplitTarget(t, s, l, Ident(s, l));
    assert Clear(t, s, l) && Unoccupied(s, target) && StoredOf(s, l) == M.Normal(t, Ident(s, l));
    SharedSplits(t, s, l);
    ClearSplits(t, s, l);
    SplitTables(t, s, s', l, target);
    hide Resolved, Splitting, SplitTarget, M.Evaluate, M.Normal, NoDuplicates, Settled, Quiet, Tables, Alone, SplitInto, Clear, StoredOf, Ident, Unoccupied;
    SplitStaysSettled(t, s, s', l, target);
    forall k | k in s.listings && (k == l || Quiet(t, s, k))
      ensures Quiet(t, s', k)
    {
      SplitStaysQuiet(t, s, s', l, target, k);
    }
  }

  lemma {:induction false} TablesOfSettled(t: Chars, s: State)
    requires Settled(t, s)
    ensures Tables(s)
  {
  }

  /** After a pass every listing it visited is quiet. */
  lemma {:induction false} PassSettles(t: Chars, s: State, items: seq<ListingId>)
    requires Settled(t, s) && forall l <- items :: l in s.listings
    ensures var s' := ReconciledOver(t, s, items);
      && Settled(t, s') && SameListings(s, s')
      && forall k <- s.listings :: k in items || Quiet(t, s, k) ==> Quiet(t, s', k)
    decreases |items|
  {
    hide Resolved, Settled, Quiet, Tables;
    TablesOfSettled(t, s);
    if items != [] {
      var l := items[0];
      assert l in items;
      ResolveSettles(t, s, l);
      var next := Resolved(t, s, l, LocationOf(s, l));
      assert forall k <- items[1..] :: k in items;
      TablesOfSettled(t, next);
      PassSettles(t, next, items[1..]);
      assert forall k :: k in items <==> k == l || k in items[1..];
    }
  }

  /** A pass over quiet listings does nothing. */
  lemma {:induction false} QuietPass(t: Chars, s: State, items: seq<ListingId>)
    requires Settled(t, s) && forall l <- items :: l in s.listings && Quiet(t, s, l)
    ensures ReconciledOver(t, s, items) == s
    decreases |items|
  {
    hide Resolved, Settled, Quiet, Tables;
    TablesOfSettled(t, s);
    if items != [] {
      assert items[0] in items;
      QuietResolvesToItself(t, s, items[0]);
      assert forall k <- items[1..] :: k in items;
      QuietPass(t, s, items[1..]);
    }
  }

  lemma {:induction false} SameItems(s: State, s': State, among: seq<ListingId>)
    requires s'.analyses == s.analyses
    ensures Items(s', among) == Items(s, among)
  {
    if among != [] { SameItems(s, s', among[1..]); }
  }

  /** In a settled store a second reconciliation changes nothing at all. */
  lemma {:induction false} ReconcileIsIdempotent(t: Chars, s: State)
    requires Settled(t, s)
    ensures Tables(Reconciled(t, s)) && Reconciled(t, Reconciled(t, s)) == Reconciled(t, s)
  {
    hide Settled, Quiet, ReconciledOver;
    TablesOfSettled(t, s);
    var items := Items(s, s.order);
    var s' := Reconciled(t, s);
    PassSettles(t, s, items);
    TablesOfSettled(t, s');
    SameItems(s, s', s.order);
    QuietPass(t, s', items);
  }
}
