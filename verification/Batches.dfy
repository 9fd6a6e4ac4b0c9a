/** The exact condition under which reconciling any batch of listings twice is reconciling it once
    (internal/store/sqlite.go, ReconcileOpportunities, resolveOpportunity and splitOpportunity). */
module Batches {
  import opened Text
  import opened Opportunities
  import opened Reconciliation
  import FixedPoints
  import M = Matcher

  // ----- Opportunities nobody lives in -----

  /** Apart from program windows, an opportunity nobody lives in is inactive. */
  ghost predicate Vacant(s: State)
  {
    forall o <- s.opportunities :: s.opportunities[o].active && !o.Program? ==> !Unoccupied(s, o)
  }

  lemma {:induction false} SplittingKeepsVacant(t: Chars, s: State, l: ListingId, identity: M.Identity)
    requires Tables(s) && Vacant(s) && l in s.listings && !Alone(s, l)
    ensures Vacant(Splitting(t, s, l, identity))
  {
    hide M.Normal, NoDuplicates, Relinked;
    var s', target := Splitting(t, s, l, identity), SplitTarget(t, s, l, identity);
    var k :| IsOther(s, l, k);
    forall o | o in s'.opportunities && s'.opportunities[o].active && !o.Program?
      ensures !Unoccupied(s', o)
    {
      if o == target {
        assert s'.membership[l] == o;
      } else if o == s.membership[l] {
        assert s'.membership[k] == o;
      } else {
        var x :| x in s.membership && s.membership[x] == o;
        assert s'.membership[x] == o;
      }
    }
  }

  lemma {:induction false} LeavingKeepsVacant(s: State, s': State, l: ListingId, o: OppId, row: Opportunity)
    requires Vacant(s) && l in s.membership && Leaves(s, s', l, o, row) && (row.active ==> o == s.membership[l])
    ensures Vacant(s')
  {
    forall p | p in s'.opportunities && s'.opportunities[p].active && !p.Program?
      ensures !Unoccupied(s', p)
    {
      if p == s.membership[l] {
        assert s'.membership[l] == p;
      } else {
        var x :| x in s.membership && s.membership[x] == p;
        assert s'.membership[x] == p;
      }
    }
  }

  lemma {:induction false} MergingKeepsVacant(t: Chars, s: State, l: ListingId, identity: M.Identity, o: OppId)
    requires Tables(s) && Vacant(s) && l in s.listings
    ensures Vacant(Merging(Refreshed(t, s, l, identity), l, o))
  {
    MergingAt(t, s, l, identity, o);
    var row := s.opportunities[s.membership[l]].(identity := M.Normal(t, identity), active := false);
    hide M.Normal, Merging, Refreshed, Vacant, NoDuplicates;
    LeavingKeepsVacant(s, Merging(Refreshed(t, s, l, identity), l, o), l, o, row);
  }

  lemma {:induction false} RefreshedKeepsVacant(t: Chars, s: State, l: ListingId, identity: M.Identity)
    requires Tables(s) && Vacant(s) && l in s.listings
    ensures Vacant(Refreshed(t, s, l, identity))
  {
    var row := s.opportunities[s.membership[l]].(identity := M.Normal(t, identity), active := true);
    assert s.membership[l := s.membership[l]] == s.membership;
    hide M.Normal, Vacant, NoDuplicates;
    LeavingKeepsVacant(s, Refreshed(t, s, l, identity), l, s.membership[l], row);
  }

  lemma {:induction false} ResolveKeepsVacant(t: Chars, s: State, l: ListingId, location: string)
    requires Tables(s) && Vacant(s) && l in s.listings
    ensures Vacant(Resolved(t, s, l, location))
  {
    hide Resolved, Vacant, M.Evaluate, M.Normal, NoDuplicates, Alone;
    var identity, s' := IdentityAt(s, l, location), Resolved(t, s, l, location);
    ResolveIsStep(t, s, l, location);
    if !Alone(s, l) {
      SplittingKeepsVacant(t, s, l, identity);
    } else {
      RefreshedKeepsVacant(t, s, l, identity);
      if o :| o in AutoCandidates(t, s, l, identity) && s' == Merging(Refreshed(t, s, l, identity), l, o) {
        MergingKeepsVacant(t, s, l, identity, o);
      }
    }
  }

  lemma {:induction false} PassKeepsVacant(t: Chars, s: State, items: seq<ListingId>)
    requires Tables(s) && Vacant(s) && forall l <- items :: l in s.listings
    ensures Vacant(ReconciledOver(t, s, items))
    decreases |items|
  {
    hide Resolved, Vacant, Tables;
    if items != [] {
      var l := items[0];
      assert l in items;
      ResolveKeepsTables(t, s, l, LocationOf(s, l));
      ResolveKeepsVacant(t, s, l, LocationOf(s, l));
      assert forall k <- items[1..] :: k in items;
      PassKeepsVacant(t, Resolved(t, s, l, LocationOf(s, l)), items[1..]);
    }
  }

  lemma {:induction false} SamePlacesStayVacant(s: State, s': State)
    requires Vacant(s) && s'.membership == s.membership && s'.opportunities == s.opportunities
    ensures Vacant(s')
  {
  }

  lemma {:induction false} AnnouncedKeepsVacant(s: State, l: ListingId, strong: bool, first: bool)
    requires Tables(s) && Vacant(s) && l in s.listings
    ensures Vacant(Announced(s, l, strong, first))
  {
    SamePlacesStayVacant(s, Announced(s, l, strong, first));
  }

  lemma {:induction false} SaveKeepsVacant(t: Chars, s: State, l: ListingId, input: AnalysisInput)
    requires Tables(s) && Vacant(s) && l in s.listings
    ensures Vacant(AnalysisSaved(t, s, l, input))
  {
    var analyzed := Analyzed(s, l, input);
    SamePlacesStayVacant(s, analyzed);
    AnalyzedTables(s, l, input);
    hide Resolved, Vacant, Tables, Announced, FirstSuccess;
    ResolveKeepsTables(t, analyzed, l, input.location);
    ResolveKeepsVacant(t, analyzed, l, input.location);
    AnnouncedKeepsVacant(Resolved(t, analyzed, l, input.location), l, input.strong, FirstSuccess(s, l));
  }

  lemma {:induction false} UpsertKeepsVacant(t: Chars, s: State, source: string, l: ListingId, title: string, position: nat)
    requires Tables(s) && Vacant(s) && position <= |s.order|
    ensures Vacant(Upserted(t, s, source, l, title, position))
  {
    hide M.NormalizeTitle, NoDuplicates;
    var s' := Upserted(t, s, source, l, title, position);
    if l !in s.listings {
      forall o | o in s'.opportunities && s'.opportunities[o].active && !o.Program?
        ensures !Unoccupied(s', o)
      {
        if o == Own(l) {
          assert s'.membership[l] == o;
        } else {
          var x :| x in s.membership && s.membership[x] == o;
          assert s'.membership[x] == o;
        }
      }
    }
  }

  lemma {:induction false} StepKeepsVacant(t: Chars, s: State, op: Op)
    requires Tables(s) && Vacant(s)
    ensures Vacant(Step(t, s, op))
  {
    hide M.NormalizeTitle, AnalysisSaved, ReconciledOver, Resolved, Upserted, NoDuplicates;
    match op
    case Upsert(source, company, url, title, position) =>
      if position <= |s.order| { UpsertKeepsVacant(t, s, source, ListingId(company, url), title, position); }
    case Save(l, input) => if l in s.listings { SaveKeepsVacant(t, s, l, input); }
    case Reconcile => PassKeepsVacant(t, s, Items(s, s.order));
    case Resolve(l) => if l in s.listings { ResolveKeepsVacant(t, s, l, LocationOf(s, l)); }
    case RegisterProgram(key, company, name) =>
      assert forall o: OppId :: Unoccupied(Step(t, s, op), o) <==> Unoccupied(s, o);
    case _ => SamePlacesStayVacant(s, Step(t, s, op));
  }

  /** In every reachable store only inhabited opportunities and program windows are active. */
  lemma {:induction false} RunKeepsVacant(t: Chars, s: State, ops: seq<Op>, s': State)
    requires Tables(s) && Vacant(s) && Reaches(t, s, ops, s')
    ensures Vacant(s')
    decreases |ops|
  {
    hide Step, Vacant, Tables;
    if ops != [] {
      StepKeepsVacant(t, s, ops[0]);
      RunKeepsVacant(t, Step(t, s, ops[0]), ops[1..], s');
    }
  }

  // ----- Batches -----

  /** Reconciling the batch a second time would change nothing. */
  ghost predicate IdempotentOver(t: Chars, s: State, items: seq<ListingId>)
    requires Tables(s)
  {
    (forall l <- items :: l in s.listings) ==>
      var s' := ReconciledOver(t, s, items);
      Tables(s') && (forall l <- items :: l in s'.listings) && ReconciledOver(t, s', items) == s'
  }

  lemma {:induction false} SettledBatch(t: Chars, s: State, items: seq<ListingId>)
    requires Tables(s) && Settled(t, s)
    ensures IdempotentOver(t, s, items)
  {
    hide Settled, Quiet, Tables, ReconciledOver;
    if forall l <- items :: l in s.listings {
      PassSettles(t, s, items);
      TablesOfSettled(t, ReconciledOver(t, s, items));
      QuietPass(t, ReconciledOver(t, s, items), items);
    }
  }

  /** Where the way is not clear, somebody else lives at the target. */
  lemma {:induction false} BlockedIsOccupied(t: Chars, s: State, l: ListingId)
    requires Inv(s) && Vacant(s) && l in s.listings && !Clear(t, s, l)
    ensures !Unoccupied(s, SplitTarget(t, s, l, Ident(s, l)))
  {
    assert l in s.membership;
    hide M.Normal, Tables, Homes, Announcements, Unoccupied, Ident;
  }

  /** An untitled listing that splits into somebody's home is not at rest there. */
  lemma {:induction false} BlockedMovesAgain(t: Chars, s: State, l: ListingId)
    requires Tables(s) && l in s.listings && M.Normal(t, Ident(s, l)).title == "" && !Alone(s, l)
    requires !Unoccupied(s, SplitTarget(t, s, l, Ident(s, l)))
    ensures !IdempotentOver(t, s, [l])
  {
    hide Resolved, Splitting, Alone, Tables, M.Normal, Unoccupied, SplitTarget, ReconciledOver;
    var s' := Resolved(t, s, l, LocationOf(s, l));
    ResolveKeepsTables(t, s, l, LocationOf(s, l));
    SharedSplits(t, s, l);
    StaysBlocked(t, s, l);
    BatchOfOne(t, s, l);
    BatchOfOne(t, s', l);
    SplitKeepsIdentity(t, s, l);
    SharedSplits(t, s', l);
    FixedPoints.SplittingMoves(t, s', l, Ident(s', l));
  }

  lemma {:induction false} SplitKeepsIdentity(t: Chars, s: State, l: ListingId)
    requires Tables(s) && l in s.listings
    ensures var s' := Splitting(t, s, l, Ident(s, l));
      l in s'.listings && l in s'.membership && Ident(s', l) == Ident(s, l)
  {
    hide Tables, M.Normal, SplitTarget;
  }

  lemma {:induction false} StaysBlocked(t: Chars, s: State, l: ListingId)
    requires Tables(s) && l in s.listings && !Unoccupied(s, SplitTarget(t, s, l, Ident(s, l)))
    ensures !Alone(Splitting(t, s, l, Ident(s, l)), l)
  {
    SplitLeavesCompanions(t, s, l, Ident(s, l));
    hide Splitting, Alone, Tables, SplitTarget, IsOther;
  }

  lemma {:induction false} BatchOfOne(t: Chars, s: State, l: ListingId)
    requires Tables(s) && l in s.listings
    ensures ReconciledOver(t, s, [l]) == Resolved(t, s, l, LocationOf(s, l))
  {
    hide Resolved, Tables;
    ResolveKeepsTables(t, s, l, LocationOf(s, l));
    assert [l][1..] == [];
  }

  /** In a consistent store whose opportunities store their listings' identities and merge only equals,
      every batch is idempotent exactly when the way is clear for every untitled listing in company. */
  lemma {:induction false} EveryBatchIsIdempotentIff(t: Chars, s: State)
    requires Inv(s) && Vacant(s) && Stores(t, s) && Distinct(t, s)
    ensures (forall items :: IdempotentOver(t, s, items)) <==> Free(t, s)
  {
    hide M.Normal, Tables, OwnRows, Homes, Announcements, Vacant, Stores, Distinct, IdempotentOver, Clear, Alone, Ident, StoredOf, SplitTarget;
    if Free(t, s) {
      forall items
        ensures IdempotentOver(t, s, items)
      {
        SettledBatch(t, s, items);
      }
    } else {
      var l :| l in s.listings && StoredOf(s, l).title == "" && !Alone(s, l) && !Clear(t, s, l);
      BlockedIsOccupied(t, s, l);
      StoredIsNormal(t, s, l);
      BlockedMovesAgain(t, s, l);
      assert !IdempotentOver(t, s, [l]);
    }
  }

  lemma {:induction false} StoredIsNormal(t: Chars, s: State, l: ListingId)
    requires Tables(s) && Stores(t, s) && l in s.listings
    ensures StoredOf(s, l) == M.Normal(t, Ident(s, l))
  {
  }
}
