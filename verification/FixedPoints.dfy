/** Exactly when a reconciliation pass changes nothing, and a store on which a second pass still does
    (internal/store/sqlite.go, ReconcileOpportunities and resolveOpportunity). */
module FixedPoints {
  import opened Wrappers
  import opened Text
  import opened Opportunities
  import opened Reconciliation
  import M = Matcher

  /** The listing fits the earliest other member of its opportunity; or it is alone, its opportunity
      is active and stores its normal identity, and it does not have exactly one candidate. */
  ghost predicate AtRest(t: Chars, s: State, l: ListingId)
    requires Tables(s) && l in s.listings
  {
    var other := FirstOther(s, l, s.order);
    if other.Some?
    then M.Evaluate(t, Ident(s, l), Ident(s, other.value)).outcome != M.Separate
    else HomeOf(s, l).active && StoredOf(s, l) == M.Normal(t, Ident(s, l)) && |Candidates(t, s, l)| != 1
  }

  lemma {:induction false} SplittingMoves(t: Chars, s: State, l: ListingId, identity: M.Identity)
    requires l in s.membership
    ensures Splitting(t, s, l, identity).membership[l] != s.membership[l]
  {
    hide M.Normal;
  }

  lemma {:induction false} MergingMoves(t: Chars, s: State, l: ListingId, identity: M.Identity, o: OppId)
    requires l in s.membership && s.membership[l] in s.opportunities && o in AutoCandidates(t, s, l, identity)
    ensures Merging(Refreshed(t, s, l, identity), l, o).membership[l] != s.membership[l]
  {
    hide M.Normal, M.Evaluate;
  }

  lemma {:induction false} ResolvesToItselfIff(t: Chars, s: State, l: ListingId)
    requires Tables(s) && l in s.listings
    ensures Resolved(t, s, l, LocationOf(s, l)) == s <==> AtRest(t, s, l)
  {
    hide M.Evaluate, M.Normal, AutoCandidates, Splitting, Merging, NoDuplicates, HomeOf, StoredOf;
    SplittingMoves(t, s, l, Ident(s, l));
    RefreshedIffStored(t, s, l, Ident(s, l));
    forall o | o in AutoCandidates(t, s, l, Ident(s, l))
      ensures Merging(Refreshed(t, s, l, Ident(s, l)), l, o) != s
    {
      MergingMoves(t, s, l, Ident(s, l), o);
    }
  }

  /** Resolving a listing moves no other one. */
  lemma {:induction false} ResolveMovesOnlyItself(t: Chars, s: State, l: ListingId, k: ListingId)
    requires Tables(s) && l in s.listings && k in s.listings && k != l
    ensures var s' := Resolved(t, s, l, LocationOf(s, l));
      k in s'.membership && s'.membership[k] == s.membership[k]
  {
    ResolveIsStep(t, s, l, LocationOf(s, l));
    hide Resolved, M.Evaluate, M.Normal, AutoCandidates, NoDuplicates, Alone, SplitTarget, Relinked;
  }

  /** If it does not move either, it at most refreshes the row of an opportunity it has to itself. */
  lemma {:induction false} UnmovedRefreshes(t: Chars, s: State, l: ListingId)
    requires Tables(s) && l in s.listings
    ensures var s' := Resolved(t, s, l, LocationOf(s, l));
      l in s'.membership && s'.membership[l] == s.membership[l] ==>
        s' == s || (Alone(s, l) && s' == Refreshed(t, s, l, Ident(s, l)))
  {
    ResolveIsStep(t, s, l, LocationOf(s, l));
    SplittingMoves(t, s, l, Ident(s, l));
    forall o | o in AutoCandidates(t, s, l, Ident(s, l))
      ensures Merging(Refreshed(t, s, l, Ident(s, l)), l, o).membership[l] != s.membership[l]
    {
      MergingMoves(t, s, l, Ident(s, l), o);
    }
    hide Resolved, M.Evaluate, M.Normal, AutoCandidates, NoDuplicates, Alone, Splitting, Merging, Refreshed, Ident;
  }

  lemma {:induction false} RefreshLeavesOthers(t: Chars, s: State, l: ListingId, k: ListingId)
    requires Tables(s) && l in s.listings && k in s.listings && k != l && Alone(s, l)
    ensures var s' := Refreshed(t, s, l, Ident(s, l));
      && s'.membership == s.membership && s.membership[k] in s'.opportunities
      && s'.opportunities[s.membership[k]] == s.opportunities[s.membership[k]]
  {
    hide M.Normal, NoDuplicates;
    assert !IsOther(s, l, k);
  }

  /** s' differs from s in a way that resolving the remaining listings cannot take back. */
  ghost predicate Strayed(s: State, s': State, rest: seq<ListingId>)
    requires Tables(s) && Tables(s')
  {
    && s'.listings == s.listings
    && (|| (exists k <- s.listings :: k !in rest && s'.membership[k] != s.membership[k])
        || (s'.membership == s.membership
            && exists l <- s.listings :: l !in rest && Alone(s, l) && HomeOf(s', l) != HomeOf(s, l)))
  }

  lemma {:induction false} MovedStays(t: Chars, s: State, s': State, l: ListingId, k: ListingId, rest: seq<ListingId>)
    requires Tables(s) && Tables(s') && s'.listings == s.listings && l in s.listings && k in s.listings
    requires k != l && k !in rest && s'.membership[k] != s.membership[k]
    ensures var s'' := Resolved(t, s', l, LocationOf(s', l));
      Tables(s'') && Strayed(s, s'', rest)
  {
    ResolveKeepsTables(t, s', l, LocationOf(s', l));
    ResolveMovesOnlyItself(t, s', l, k);
    hide Resolved, Tables, Alone, HomeOf;
  }

  lemma {:induction false} ChangedRowStays(t: Chars, s: State, s': State, l: ListingId, k: ListingId, rest: seq<ListingId>)
    requires Tables(s) && Tables(s') && s'.listings == s.listings && l in s.listings && k in s.listings
    requires k != l && k !in rest && l !in rest && s'.membership == s.membership
    requires Alone(s, k) && HomeOf(s', k) != HomeOf(s, k)
    ensures var s'' := Resolved(t, s', l, LocationOf(s', l));
      Tables(s'') && Strayed(s, s'', rest)
  {
    ResolveKeepsTables(t, s', l, LocationOf(s', l));
    UnmovedRefreshes(t, s', l);
    var s'' := Resolved(t, s', l, LocationOf(s', l));
    if s''.membership[l] == s.membership[l] {
      if s'' != s' { RefreshLeavesOthers(t, s', l, k); }
      assert s''.membership == s.membership && HomeOf(s'', k) == HomeOf(s', k) by { hide Resolved, Alone, M.Normal, Refreshed, NoDuplicates; }
    }
    hide Resolved, Tables, Alone, HomeOf, Refreshed;
  }

  lemma {:induction false} StrayedStays(t: Chars, s: State, s': State, l: ListingId, rest: seq<ListingId>)
    requires Tables(s) && Tables(s') && l in s.listings && l !in rest && Strayed(s, s', [l] + rest)
    ensures var s'' := Resolved(t, s', l, LocationOf(s', l));
      Tables(s'') && Strayed(s, s'', rest)
  {
    hide Resolved, Alone, HomeOf;
    assert forall k :: k !in [l] + rest <==> k != l && k !in rest;
    if k :| k in s.listings && k !in [l] + rest && s'.membership[k] != s.membership[k] {
      hide Tables;
      MovedStays(t, s, s', l, k, rest);
    } else {
      var k :| k in s.listings && k !in [l] + rest && Alone(s, k) && HomeOf(s', k) != HomeOf(s, k);
      hide Tables;
      ChangedRowStays(t, s, s', l, k, rest);
    }
  }

  lemma {:induction false} StrayedPassStrays(t: Chars, s: State, s': State, rest: seq<ListingId>)
    requires Tables(s) && Tables(s') && Strayed(s, s', rest)
    requires NoDuplicates(rest) && forall l <- rest :: l in s.listings
    ensures ReconciledOver(t, s', rest) != s
    decreases |rest|
  {
    hide Resolved, Tables, Alone;
    if rest != [] {
      var l := rest[0];
      assert l in rest && rest == [l] + rest[1..];
      assert forall k <- rest[1..] :: k in rest;
      StrayedStays(t, s, s', l, rest[1..]);
      StrayedPassStrays(t, s, Resolved(t, s', l, LocationOf(s', l)), rest[1..]);
    }
  }

  lemma {:induction false} RestlessStrays(t: Chars, s: State, l: ListingId, rest: seq<ListingId>)
    requires Tables(s) && l in s.listings && l !in rest && !AtRest(t, s, l)
    ensures var s' := Resolved(t, s, l, LocationOf(s, l));
      Tables(s') && Strayed(s, s', rest)
  {
    ResolvesToItselfIff(t, s, l);
    ResolveIsStep(t, s, l, LocationOf(s, l));
    ResolveKeepsTables(t, s, l, LocationOf(s, l));
    SplittingMoves(t, s, l, Ident(s, l));
    forall o | o in AutoCandidates(t, s, l, Ident(s, l))
      ensures Merging(Refreshed(t, s, l, Ident(s, l)), l, o).membership[l] != s.membership[l]
    {
      MergingMoves(t, s, l, Ident(s, l), o);
    }
    hide Resolved, M.Evaluate, M.Normal, AutoCandidates, NoDuplicates, Alone, AtRest, Splitting, Merging;
  }

  /** A pass over some listings changes nothing exactly when each of them is at rest. */
  lemma {:induction false} PassChangesNothingIff(t: Chars, s: State, items: seq<ListingId>)
    requires Tables(s) && NoDuplicates(items) && forall l <- items :: l in s.listings
    ensures ReconciledOver(t, s, items) == s <==> forall l <- items :: AtRest(t, s, l)
    decreases |items|
  {
    hide Resolved, Tables, AtRest, Strayed;
    if items != [] {
      var l := items[0];
      assert l in items;
      assert forall k :: k in items <==> k == l || k in items[1..];
      ResolvesToItselfIff(t, s, l);
      if AtRest(t, s, l) {
        PassChangesNothingIff(t, s, items[1..]);
      } else {
        RestlessStrays(t, s, l, items[1..]);
        StrayedPassStrays(t, s, Resolved(t, s, l, LocationOf(s, l)), items[1..]);
      }
    }
  }

  lemma {:induction false} ItemsAreDistinct(s: State, among: seq<ListingId>)
    requires NoDuplicates(among)
    ensures NoDuplicates(Items(s, among))
  {
    if among != [] {
      ItemsAreDistinct(s, among[1..]);
      assert among[0] !in among[1..];
    }
  }

  lemma {:induction false} ReconcileKeepsTables(t: Chars, s: State, items: seq<ListingId>)
    requires Tables(s) && forall l <- items :: l in s.listings
    ensures var s' := ReconciledOver(t, s, items); Tables(s') && SameListings(s, s')
    decreases |items|
  {
    hide Resolved, Tables;
    if items != [] {
      assert items[0] in items;
      ResolveKeepsTables(t, s, items[0], LocationOf(s, items[0]));
      assert forall l <- items[1..] :: l in items;
      ReconcileKeepsTables(t, Resolved(t, s, items[0], LocationOf(s, items[0])), items[1..]);
    }
  }

  /** A second reconciliation changes nothing exactly when the first left every analysed listing at
      rest. */
  lemma {:induction false} IdempotentIff(t: Chars, s: State)
    requires Tables(s)
    ensures Tables(Reconciled(t, s))
    ensures var s' := Reconciled(t, s);
      Reconciled(t, s') == s' <==> forall l <- Items(s, s.order) :: l in s'.listings && AtRest(t, s', l)
  {
    hide AtRest, ReconciledOver;
    ReconcileKeepsTables(t, s, Items(s, s.order));
    var s' := Reconciled(t, s);
    SameItems(s, s', s.order);
    ItemsAreDistinct(s, s.order);
    PassChangesNothingIff(t, s', Items(s, s.order));
  }

  // ----- A settled store that the first pass changes -----

  lemma {:induction false} AllItems(s: State, among: seq<ListingId>)
    requires forall l <- among :: l in s.analyses && s.analyses[l].processed
    ensures Items(s, among) == among
  {
    if among != [] {
      assert among[0] in among;
      assert forall l <- among[1..] :: l in among;
      AllItems(s, among[1..]);
    }
  }

  /** Two analysed listings of one company with the same title, each in its own opportunity, as the
      migration to opportunities left them. */
  ghost function Twins(a: ListingId, b: ListingId, title: string, row: Opportunity): State
  {
    var both, rows := {a, b}, {Own(a), Own(b)};
    State(
      map[a.company := Primary], map["careers" := Source(a.company, OfficialCompany)],
      [a, b],
      map l | l in both :: Listing("careers", title),
      map o | o in rows :: row,
      map l | l in both :: Own(l),
      map l | l in both :: Analysis("", "deterministic", true, true, 0),
      [])
  }

  lemma {:induction false} TwinsTables(a: ListingId, b: ListingId, title: string, row: Opportunity)
    requires a != b && a.company == b.company
    ensures Tables(Twins(a, b, title, row))
  {
  }

  lemma {:induction false} TwinsAt(a: ListingId, b: ListingId, title: string, row: Opportunity, l: ListingId)
    requires a != b && a.company == b.company && l in {a, b}
    ensures var s := Twins(a, b, title, row);
      && Tables(s) && l in s.listings && Ident(s, l) == M.Identity(title, "") && HomeOf(s, l) == row
      && s.membership[l] == Own(l) && forall k :: !IsOther(s, l, k)
  {
    TwinsTables(a, b, title, row);
    hide Tables;
  }

  lemma {:induction false} TwinsSettled(t: Chars, a: ListingId, b: ListingId, title: string, row: Opportunity)
    requires a != b && a.company == b.company && M.NormalizeTitle(t, title) != ""
    requires row == Opportunity(a.company, M.Normal(t, M.Identity(title, "")), true)
    ensures Settled(t, Twins(a, b, title, row))
  {
    var s := Twins(a, b, title, row);
    TwinsTables(a, b, title, row);
    assert s.listings.Keys == {a, b};
    assert forall o <- s.opportunities :: s.opportunities[o] == row;
    hide Twins, Tables, HomeOf, Ident, IsOther, M.Evaluate, M.NormalizeTitle;
    forall l | l in s.listings
      ensures Ident(s, l) == M.Identity(title, "") && HomeOf(s, l) == row && forall k :: !IsOther(s, l, k)
    {
      TwinsAt(a, b, title, row, l);
    }
  }

  /** A settled store need not be at rest: the first pass merges the twins. */
  lemma {:induction false} TwinsSettleByMerging(t: Chars, a: ListingId, b: ListingId, title: string, row: Opportunity)
    requires a != b && a.company == b.company && M.NormalizeTitle(t, title) != ""
    requires row == Opportunity(a.company, M.Normal(t, M.Identity(title, "")), true)
    ensures var s := Twins(a, b, title, row);
      Settled(t, s) && Tables(s) && Reconciled(t, s) != s
  {
    var s := Twins(a, b, title, row);
    TwinsSettled(t, a, b, title, row);
    TwinsAt(a, b, title, row, a);
    TwinsHaveOneCandidate(t, a, b, title, row);
    TwinsItems(s, a, b, title, row);
    AloneIff(s, a);
    hide Twins, Settled, Tables, Items, Candidates, M.Evaluate, M.Normal, M.NormalizeTitle, ReconciledOver, HomeOf, Ident, IsOther;
    assert !AtRest(t, s, a);
    hide AtRest, FirstOther;
    PassChangesNothingIff(t, s, [a, b]);
    assert a in [a, b];
  }

  lemma {:induction false} TwinsItems(s: State, a: ListingId, b: ListingId, title: string, row: Opportunity)
    requires a != b && s == Twins(a, b, title, row)
    ensures Items(s, s.order) == [a, b] && NoDuplicates([a, b]) && forall l <- [a, b] :: l in s.listings
  {
    AllItems(s, s.order);
    hide Items;
  }

  lemma {:induction false} TwinsHaveOneCandidate(t: Chars, a: ListingId, b: ListingId, title: string, row: Opportunity)
    requires a != b && a.company == b.company && M.NormalizeTitle(t, title) != ""
    requires row == Opportunity(a.company, M.Normal(t, M.Identity(title, "")), true)
    ensures var s := Twins(a, b, title, row);
      Tables(s) && a in s.listings && Candidates(t, s, a) == {Own(b)}
  {
    var s := Twins(a, b, title, row);
    TwinsSettled(t, a, b, title, row);
    TwinsAt(a, b, title, row, a);
    assert s.opportunities.Keys == {Own(a), Own(b)} && s.opportunities[Own(b)] == row;
    hide M.NormalizeTitle, M.Evaluate, Twins, Tables, Settled, Candidates, HomeOf, IsOther, Ident;
    forall o
      ensures o in Candidates(t, s, a) <==> o == Own(b)
    {
      CandidateIffClass(t, s, a, o);
    }
  }
}
