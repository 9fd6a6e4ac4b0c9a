/** Runs from the empty store that end where a law one might expect fails (internal/store/sqlite.go):
    reconciliation is not idempotent, and a program window can take listings to another company. */
module Histories {
  import opened Wrappers
  import opened Text
  import opened Opportunities
  import opened Reconciliation
  import opened FixedPoints
  import Batches
  import EditDistance
  import M = Matcher

  // ----- Titles of one letter, and one of none -----

  lemma {:induction false} LetterTitle(t: Chars, title: string)
    requires title == "a" || title == "b"
    ensures M.NormalizeTitle(t, title) == title && !Blank(t, title)
  {
    assert t.word(title[0]) && !t.space(title[0]) && Trim(title, t.space) == title;
    assert M.FoldText(t, title) == title;
    assert Run(title, t.word) == 1 by { assert title[1..] == ""; }
    assert title[..1] == title && title[1..] == "";
    assert Fields(title, t.word) == [title] + Fields("", t.word) == [title];
    assert M.Unified([title]) == [title];
  }

  lemma {:induction false} HyphenTitle(t: Chars)
    ensures M.NormalizeTitle(t, "-") == "" && !Blank(t, "-")
  {
    assert Trim("-", t.space) == "-" && M.FoldText(t, "-") == "-";
    assert "-"[1..] == "" && Fields("-", t.word) == Fields("", t.word) == [];
    assert M.Unified([]) == [];
  }

  lemma {:induction false} NoLocation(t: Chars)
    ensures M.NormalizeLocation(t, "") == "" && M.NormalizeTitle(t, "") == ""
  {
    assert M.Tokens(t, "") == [];
    assert M.Unified([]) == [];
  }

  function At(title: string): M.Identity { M.Identity(title, "") }

  lemma {:induction false} NormalAt(t: Chars, title: string)
    requires title == "a" || title == "b" || title == "-"
    ensures M.Normal(t, At(title)) == At(if title == "-" then "" else title)
  {
    NoLocation(t);
    HyphenTitle(t);
    if title != "-" { LetterTitle(t, title); }
  }

  lemma {:induction false} DifferentLetters(t: Chars, x: string, y: string)
    requires (x == "a" && y == "b") || (x == "b" && y == "a")
    requires M.TokenSet(t, x) != {}
    ensures M.TitleSimilarity(t, x, y) == 0.0
  {
    EditDistance.ZeroIffEqual(x, y);
    EditDistance.LengthBounds(x, y);
    assert EditDistance.Distance(x, y) == 1;
    OneToken(t, x);
    OneToken(t, y);
    assert M.TokenSet(t, x) * M.TokenSet(t, y) == {};
  }

  lemma {:induction false} OneToken(t: Chars, x: string)
    requires x == "a" || x == "b"
    ensures M.TokenSet(t, x) == {x}
  {
    var p := c => !t.space(c);
    assert !t.space(x[0]) && x[1..] == "" && x[..1] == x;
    assert Run(x, p) == 1;
    assert Fields(x, p) == [x] + Fields("", p) == [x];
  }

  /** Equal letters merge, different ones are told apart, and so is the hyphen from everything. */
  lemma {:induction false} Verdict(t: Chars, x: string, y: string)
    requires (x == "a" || x == "b" || x == "-") && (y == "a" || y == "b" || y == "-" || y == "")
    ensures M.Evaluate(t, At(x), At(y)).outcome == if x == y && x != "-" then M.AutoMerge else M.Separate
  {
    NormalAt(t, x);
    NoLocation(t);
    if y != "" { NormalAt(t, y); }
    if x == "-" || y == "-" || y == "" {
      UntitledIsSeparate(t, At(x), At(y));
    } else {
      if x != y {
        OneToken(t, x);
        DifferentLetters(t, x, y);
      }
      M.OutcomeIff(t, At(x), At(y));
      hide M.NormalizeTitle, M.NormalizeLocation, M.TitleSimilarity;
    }
  }

  // ----- Stores with three listings -----

  ghost predicate Three(a: ListingId, b: ListingId, c: ListingId)
  {
    a != b && b != c && a != c && a.company == b.company == c.company
  }

  datatype Scene = Scene(
    titleA: string, titleB: string, titleC: string,
    rowA: Opportunity, rowB: Opportunity, rowC: Opportunity, window: Opportunity, spare: Option<Opportunity>,
    homeA: OppId, homeB: OppId, homeC: OppId,
    analyses: map<ListingId, Analysis>)

  const WINDOW := Program("window")

  function Spare(b: ListingId): OppId { SplitOff(b, "b", "") }

  function Row(company: string, title: string, active: bool): Opportunity { Opportunity(company, At(title), active) }

  ghost function Ids(a: ListingId, b: ListingId, c: ListingId, x: Scene): set<OppId>
  {
    {Own(a), Own(b), Own(c), WINDOW} + if x.spare.Some? then {Spare(b)} else {}
  }

  function Titles(a: ListingId, b: ListingId, c: ListingId, titleA: string, titleB: string, titleC: string): map<ListingId, Listing>
  {
    var all := {a, b, c};
    map l | l in all :: Listing("careers", if l == a then titleA else if l == b then titleB else titleC)
  }

  ghost function Rows(a: ListingId, b: ListingId, c: ListingId, x: Scene): map<OppId, Opportunity>
  {
    var ids := Ids(a, b, c, x);
    map o | o in ids ::
      if o == Own(a) then x.rowA else if o == Own(b) then x.rowB else if o == Own(c) then x.rowC
      else if o == WINDOW then x.window else if x.spare.Some? then x.spare.value else x.rowA
  }

  function Homed(a: ListingId, b: ListingId, c: ListingId, homeA: OppId, homeB: OppId, homeC: OppId): map<ListingId, OppId>
  {
    var all := {a, b, c};
    map l | l in all :: if l == a then homeA else if l == b then homeB else homeC
  }

  /** Besides their own opportunities there is a program window and, if present, one that b split off. */
  ghost function Of(a: ListingId, b: ListingId, c: ListingId, x: Scene): State
  {
    State(
      map[a.company := Primary], map["careers" := Source(a.company, OfficialCompany)],
      [a, b, c],
      Titles(a, b, c, x.titleA, x.titleB, x.titleC),
      Rows(a, b, c, x),
      Homed(a, b, c, x.homeA, x.homeB, x.homeC),
      x.analyses,
      [])
  }

  const DONE := Analysis("", "deterministic", true, true, 0)

  ghost predicate Plain(analyses: map<ListingId, Analysis>)
  {
    forall l <- analyses :: analyses[l] == DONE
  }

  ghost predicate Fits(a: ListingId, b: ListingId, c: ListingId, x: Scene)
  {
    && Three(a, b, c) && x.analyses.Keys <= {a, b, c} && Plain(x.analyses)
    && x.homeA in Ids(a, b, c, x) && x.homeB in Ids(a, b, c, x) && x.homeC in Ids(a, b, c, x)
  }

  lemma {:induction false} OfTables(a: ListingId, b: ListingId, c: ListingId, x: Scene)
    requires Fits(a, b, c, x)
    ensures Tables(Of(a, b, c, x))
  {
    hide Ids, Rows, Titles, Homed;
    OfKeys(a, b, c, x);
    assert {Own(a), Own(b), Own(c)} <= Ids(a, b, c, x) by { IdsContain(a, b, c, x); }
  }

  lemma {:induction false} OfKeys(a: ListingId, b: ListingId, c: ListingId, x: Scene)
    requires Fits(a, b, c, x)
    ensures var s := Of(a, b, c, x);
      && s.listings.Keys == s.membership.Keys == {a, b, c} && s.opportunities.Keys == Ids(a, b, c, x)
      && forall l <- s.listings :: s.listings[l].source == "careers" && s.membership[l] in Ids(a, b, c, x)
  {
    hide Ids;
  }

  lemma {:induction false} IdsContain(a: ListingId, b: ListingId, c: ListingId, x: Scene)
    ensures {Own(a), Own(b), Own(c)} <= Ids(a, b, c, x)
  {
  }

  function WithTitle(a: ListingId, b: ListingId, x: Scene, l: ListingId, title: string): Scene
  {
    if l == a then x.(titleA := title) else if l == b then x.(titleB := title) else x.(titleC := title)
  }

  function WithHome(a: ListingId, b: ListingId, x: Scene, l: ListingId, o: OppId): Scene
  {
    if l == a then x.(homeA := o) else if l == b then x.(homeB := o) else x.(homeC := o)
  }

  function WithRow(a: ListingId, b: ListingId, c: ListingId, x: Scene, o: OppId, row: Opportunity): Scene
  {
    if o == Own(a) then x.(rowA := row) else if o == Own(b) then x.(rowB := row)
    else if o == Own(c) then x.(rowC := row) else if o == WINDOW then x.(window := row) else x.(spare := Some(row))
  }

  lemma {:induction false} OfWithTitle(a: ListingId, b: ListingId, c: ListingId, x: Scene, l: ListingId, title: string)
    requires Three(a, b, c) && l in {a, b, c}
    ensures var s := Of(a, b, c, x);
      Of(a, b, c, WithTitle(a, b, x, l, title)) == s.(listings := s.listings[l := Listing("careers", title)])
  {
    hide Homed, Rows;
    SameRows(a, b, c, x, WithTitle(a, b, x, l, title));
  }

  lemma {:induction false} SameRows(a: ListingId, b: ListingId, c: ListingId, x: Scene, y: Scene)
    requires y.rowA == x.rowA && y.rowB == x.rowB && y.rowC == x.rowC && y.window == x.window && y.spare == x.spare
    ensures Rows(a, b, c, y) == Rows(a, b, c, x)
  {
  }

  lemma {:induction false} OfWithHome(a: ListingId, b: ListingId, c: ListingId, x: Scene, l: ListingId, o: OppId)
    requires Three(a, b, c) && l in {a, b, c}
    ensures var s := Of(a, b, c, x);
      Of(a, b, c, WithHome(a, b, x, l, o)) == s.(membership := s.membership[l := o])
  {
    hide Titles, Rows;
    SameRows(a, b, c, x, WithHome(a, b, x, l, o));
  }

  lemma {:induction false} OfWithRow(a: ListingId, b: ListingId, c: ListingId, x: Scene, o: OppId, row: Opportunity)
    requires Three(a, b, c) && (o in {Own(a), Own(b), Own(c), WINDOW} || o == Spare(b))
    ensures var s := Of(a, b, c, x);
      Of(a, b, c, WithRow(a, b, c, x, o, row)) == s.(opportunities := s.opportunities[o := row])
  {
    hide Titles, Homed;
    var s, s' := Of(a, b, c, x), Of(a, b, c, WithRow(a, b, c, x, o, row));
    assert s'.opportunities == s.opportunities[o := row];
  }

  lemma {:induction false} OfAnalysed(a: ListingId, b: ListingId, c: ListingId, x: Scene, l: ListingId)
    ensures var s := Of(a, b, c, x);
      Of(a, b, c, x.(analyses := x.analyses[l := DONE])) == s.(analyses := s.analyses[l := DONE])
  {
    hide Titles, Homed, Rows;
    SameRows(a, b, c, x, x.(analyses := x.analyses[l := DONE]));
  }

  // ----- What resolving does, in such stores -----

  /** The only other member of an opportunity is the first one. */
  lemma {:induction false} OnlyOther(s: State, l: ListingId, k: ListingId)
    requires Tables(s) && IsOther(s, l, k) && forall x :: IsOther(s, l, x) ==> x == k
    ensures FirstOther(s, l, s.order) == Some(k)
  {
    hide NoDuplicates;
    assert k in s.order;
  }

  lemma {:induction false} NobodyElse(s: State, l: ListingId)
    requires Tables(s) && forall k :: !IsOther(s, l, k)
    ensures FirstOther(s, l, s.order).None?
  {
  }

  lemma {:induction false} SplitGives(t: Chars, s: State, l: ListingId, k: ListingId, target: OppId, row: Opportunity)
    requires Tables(s) && l in s.listings && FirstOther(s, l, s.order) == Some(k) && s.notifications == []
    requires M.Evaluate(t, IdentityAt(s, l, ""), IdentityAt(s, k, LocationOf(s, k))).outcome == M.Separate
    requires target == SplitTarget(t, s, l, IdentityAt(s, l, ""))
    requires row == Opportunity(l.company, M.Normal(t, IdentityAt(s, l, "")), true)
    requires target in s.opportunities ==> s.opportunities[target].company == l.company
    ensures Resolved(t, s, l, "") == s.(membership := s.membership[l := target], opportunities := s.opportunities[target := row])
  {
    SharedResolves(t, s, l, "");
    hide Resolved, M.Evaluate, M.Normal, SplitTarget, Tables;
    assert Relinked([], l, target) == [];
  }

  lemma {:induction false} JoinGives(t: Chars, s: State, l: ListingId, o: OppId, row: Opportunity)
    requires Tables(s) && l in s.listings && FirstOther(s, l, s.order).None? && s.notifications == []
    requires AutoCandidates(t, s, l, IdentityAt(s, l, "")) == {o}
    requires row == s.opportunities[s.membership[l]].(identity := M.Normal(t, IdentityAt(s, l, "")), active := false)
    ensures Resolved(t, s, l, "") == s.(membership := s.membership[l := o], opportunities := s.opportunities[s.membership[l] := row])
  {
    LonelyJoins(t, s, l, "", o);
    MergingAt(t, s, l, IdentityAt(s, l, ""), o);
    hide Resolved, M.Evaluate, M.Normal, Merging, Refreshed, AutoCandidates, Tables;
    assert Relinked([], l, o) == [];
  }

  lemma {:induction false} RefreshGives(t: Chars, s: State, l: ListingId, row: Opportunity)
    requires Tables(s) && l in s.listings && FirstOther(s, l, s.order).None?
    requires AutoCandidates(t, s, l, IdentityAt(s, l, "")) == {}
    requires row == s.opportunities[s.membership[l]].(identity := M.Normal(t, IdentityAt(s, l, "")), active := true)
    ensures Resolved(t, s, l, "") == s.(opportunities := s.opportunities[s.membership[l] := row])
  {
    LonelyStays(t, s, l, "");
    hide Resolved, M.Evaluate, M.Normal, AutoCandidates, Tables;
  }

  /** With one-letter titles and no locations the candidates are the active rows of the same letter. */
  lemma {:induction false} CandidateIffLetter(t: Chars, s: State, l: ListingId, title: string, o: OppId)
    requires l in s.membership && l in s.listings && s.listings[l].title == title && o in s.opportunities
    requires title == "a" || title == "b" || title == "-"
    requires s.opportunities[o].identity in {At("a"), At("b"), At("")} && s.opportunities[o].company == l.company
    ensures o in AutoCandidates(t, s, l, IdentityAt(s, l, "")) <==>
      o != s.membership[l] && s.opportunities[o].active && s.opportunities[o].identity == At(title)
  {
    Verdict(t, title, s.opportunities[o].identity.title);
    hide M.Evaluate;
  }

  // ----- The run -----

  function Arrived(a: ListingId, b: ListingId, c: ListingId): Scene
  {
    Scene("a", "a", "b", Row(a.company, "a", true), Row(a.company, "a", true), Row(a.company, "b", true), Row(a.company, "b", true), None,
          Own(a), Own(b), Own(c), map[])
  }

  /** c joined the window. */
  function Sc1(a: ListingId, b: ListingId, c: ListingId): Scene
  {
    Arrived(a, b, c).(rowC := Row(a.company, "b", false), homeC := WINDOW, analyses := map[c := DONE])
  }

  /** a joined b. */
  function Sc2(a: ListingId, b: ListingId, c: ListingId): Scene
  {
    Sc1(a, b, c).(rowA := Row(a.company, "a", false), homeA := Own(b), analyses := map[c := DONE, a := DONE])
  }

  /** b was retitled and left a. */
  function Sc3(a: ListingId, b: ListingId, c: ListingId): Scene
  {
    Sc2(a, b, c).(titleB := "b", spare := Some(Row(a.company, "b", true)), homeB := Spare(b), analyses := All(a, b, c))
  }

  /** b joined the window too. */
  function Sc4(a: ListingId, b: ListingId, c: ListingId): Scene
  {
    Sc3(a, b, c).(spare := Some(Row(a.company, "b", false)), homeB := WINDOW)
  }

  /** All three and the window lost their titles. */
  function Sc5(a: ListingId, b: ListingId, c: ListingId): Scene
  {
    Sc4(a, b, c).(titleA := "-", titleB := "-", titleC := "-", window := Row(a.company, "", true))
  }

  /** a was analysed again. */
  function Sc6(a: ListingId, b: ListingId, c: ListingId): Scene { Sc5(a, b, c).(rowB := Row(a.company, "", true)) }

  /** After one pass: b is back in its own opportunity, where a lives. */
  function Sc7(a: ListingId, b: ListingId, c: ListingId): Scene { Sc6(a, b, c).(homeB := Own(b)) }

  function All(a: ListingId, b: ListingId, c: ListingId): map<ListingId, Analysis> { map[c := DONE, a := DONE, b := DONE] }

  const ANALYSIS := AnalysisInput("", "", true, false)

  function Titled(l: ListingId, title: string, position: nat): Op { Upsert("careers", l.company, l.url, title, position) }

  function History(a: ListingId, b: ListingId, c: ListingId): seq<Op>
  {
    [Register("careers", a.company, Primary, OfficialCompany)]
    + ([RegisterProgram("window", a.company, "b")]
    + ([Titled(a, "a", 0)]
    + ([Titled(b, "a", 1)]
    + ([Titled(c, "b", 2)] + Analyses(a, b, c)))))
  }

  function Analyses(a: ListingId, b: ListingId, c: ListingId): seq<Op>
  {
    [Save(c, ANALYSIS)]
    + ([Save(a, ANALYSIS)]
    + ([Titled(b, "b", 0)]
    + ([Save(b, ANALYSIS)]
    + ([Save(b, ANALYSIS)] + Retitlings(a, b, c)))))
  }

  function Retitlings(a: ListingId, b: ListingId, c: ListingId): seq<Op>
  {
    [Titled(a, "-", 0)]
    + ([Titled(b, "-", 0)]
    + ([Titled(c, "-", 0)]
    + ([RegisterProgram("window", a.company, "-")]
    + ([Save(a, ANALYSIS)] + []))))
  }

  // ----- Its steps -----

  function TitleOf(a: ListingId, b: ListingId, x: Scene, l: ListingId): string
  {
    if l == a then x.titleA else if l == b then x.titleB else x.titleC
  }

  function HomeIn(a: ListingId, b: ListingId, x: Scene, l: ListingId): OppId
  {
    if l == a then x.homeA else if l == b then x.homeB else x.homeC
  }

  lemma {:induction false} OfListing(a: ListingId, b: ListingId, c: ListingId, x: Scene, l: ListingId)
    requires Fits(a, b, c, x) && l in {a, b, c}
    ensures var s := Of(a, b, c, x);
      && s.order == [a, b, c] && s.notifications == [] && s.listings.Keys == {a, b, c}
      && l in s.listings && s.listings[l].title == TitleOf(a, b, x, l) && LocationOf(s, l) == ""
      && (l in s.analyses ==> s.analyses[l].retries == 0) && (l in x.analyses ==> l in s.analyses && s.analyses[l].processed)
  {
    hide Ids;
  }

  lemma {:induction false} OfHome(a: ListingId, b: ListingId, c: ListingId, x: Scene, l: ListingId)
    requires Fits(a, b, c, x) && l in {a, b, c}
    ensures var s := Of(a, b, c, x);
      s.membership.Keys == {a, b, c} && s.membership[l] == HomeIn(a, b, x, l) && s.membership[l] in s.opportunities
  {
    hide Ids;
  }

  /** What is stored about a listing. */
  lemma {:induction false} OfAt(a: ListingId, b: ListingId, c: ListingId, x: Scene, l: ListingId)
    requires Fits(a, b, c, x) && l in {a, b, c}
    ensures var s := Of(a, b, c, x);
      && Tables(s) && s.order == [a, b, c] && s.notifications == []
      && l in s.listings && s.listings[l].title == TitleOf(a, b, x, l) && LocationOf(s, l) == ""
      && IdentityAt(s, l, "") == At(TitleOf(a, b, x, l))
      && s.membership.Keys == {a, b, c} && s.membership[l] == HomeIn(a, b, x, l) && s.membership[l] in s.opportunities
      && (l in s.analyses ==> s.analyses[l].retries == 0) && (l in x.analyses ==> l in s.analyses && s.analyses[l].processed)
  {
    OfTables(a, b, c, x);
    OfListing(a, b, c, x, l);
    OfHome(a, b, c, x, l);
    hide Of, Tables, LocationOf, HomeIn, TitleOf, Fits;
  }

  /** The stored opportunities. */
  lemma {:induction false} OfRows(a: ListingId, b: ListingId, c: ListingId, x: Scene)
    requires Three(a, b, c)
    ensures var s := Of(a, b, c, x);
      && s.opportunities.Keys == Ids(a, b, c, x)
      && s.opportunities[Own(a)] == x.rowA && s.opportunities[Own(b)] == x.rowB && s.opportunities[Own(c)] == x.rowC
      && s.opportunities[WINDOW] == x.window
      && (x.spare.Some? ==> s.opportunities[Spare(b)] == x.spare.value)
  {
  }

  lemma {:induction false} OfAccepts(t: Chars, a: ListingId, b: ListingId, c: ListingId, x: Scene, title: string)
    requires !Blank(t, a.company) && !Blank(t, title)
    ensures Accepts(t, Of(a, b, c, x), "careers", a.company, title)
  {
    CareersNamed(t);
    hide Blank, Ids;
  }

  lemma {:induction false} RetitleGives(t: Chars, s: State, l: ListingId, title: string)
    requires Tables(s) && l in s.listings && Accepts(t, s, "careers", l.company, title)
    ensures Step(t, s, Titled(l, title, 0)) == s.(listings := s.listings[l := Listing("careers", title)])
  {
    hide Accepts, Tables, M.NormalizeTitle;
    assert l == ListingId(l.company, l.url);
  }

  lemma {:induction false} Retitles(t: Chars, a: ListingId, b: ListingId, c: ListingId, x: Scene, l: ListingId, title: string)
    requires Fits(a, b, c, x) && l in {a, b, c} && !Blank(t, a.company) && (title == "b" || title == "-")
    ensures var s := Of(a, b, c, x);
      Tables(s) && Step(t, s, Titled(l, title, 0)) == Of(a, b, c, WithTitle(a, b, x, l, title))
  {
    if title == "b" { LetterTitle(t, title); } else { HyphenTitle(t); }
    OfAt(a, b, c, x, l);
    OfAccepts(t, a, b, c, x, title);
    OfWithTitle(a, b, c, x, l, title);
    hide Accepts, Tables, M.NormalizeTitle, Of, WithTitle, Blank, Step;
    RetitleGives(t, Of(a, b, c, x), l, title);
  }

  lemma {:induction false} CareersNamed(t: Chars)
    ensures !Blank(t, "careers")
  {
    assert t.word('c') && t.word('s');
  }

  /** An analysis without a location that asks for no notification resolves the listing. */
  lemma {:induction false} SaveGives(t: Chars, s: State, l: ListingId)
    requires Tables(s) && l in s.listings && (l in s.analyses ==> s.analyses[l].retries == 0)
    ensures var s' := s.(analyses := s.analyses[l := DONE]);
      Tables(s') && l in s'.listings && Step(t, s, Save(l, ANALYSIS)) == Resolved(t, s', l, "")
  {
    var s' := s.(analyses := s.analyses[l := DONE]);
    assert Analyzed(s, l, ANALYSIS) == s';
    AnalyzedTables(s, l, ANALYSIS);
    hide Tables, Analyzed, Resolved, FirstSuccess, Announced;
    ResolveKeepsTables(t, s', l, "");
    WeakIsQuiet(Resolved(t, s', l, ""), l, FirstSuccess(s, l));
    StepOfSave(t, s, l, ANALYSIS);
  }

  lemma {:induction false} Saves(t: Chars, a: ListingId, b: ListingId, c: ListingId, x: Scene, l: ListingId)
    requires Fits(a, b, c, x) && l in {a, b, c}
    ensures var s, s' := Of(a, b, c, x), Of(a, b, c, x.(analyses := x.analyses[l := DONE]));
      Tables(s) && Tables(s') && l in s'.listings && Step(t, s, Save(l, ANALYSIS)) == Resolved(t, s', l, "")
  {
    OfAt(a, b, c, x, l);
    OfAnalysed(a, b, c, x, l);
    hide Of, Tables, Resolved, Step;
    SaveGives(t, Of(a, b, c, x), l);
  }

  lemma {:induction false} WeakIsQuiet(s: State, l: ListingId, first: bool)
    requires Tables(s) && l in s.listings
    ensures Announced(s, l, false, first) == s
  {
  }

  /** Every row is of the company and has a letter or nothing as its title. */
  ghost predicate Lettered(a: ListingId, x: Scene)
  {
    forall row <- {x.rowA, x.rowB, x.rowC, x.window} + (if x.spare.Some? then {x.spare.value} else {}) ::
      row.company == a.company && row.identity in {At("a"), At("b"), At("")}
  }

  lemma {:induction false} LetteredRow(a: ListingId, b: ListingId, c: ListingId, x: Scene, o: OppId)
    requires Three(a, b, c) && Lettered(a, x) && o in Of(a, b, c, x).opportunities
    ensures var row := Of(a, b, c, x).opportunities[o];
      row.company == a.company && row.identity in {At("a"), At("b"), At("")}
  {
    OfRows(a, b, c, x);
    assert Of(a, b, c, x).opportunities[o] in {x.rowA, x.rowB, x.rowC, x.window} + (if x.spare.Some? then {x.spare.value} else {});
  }

  /** The candidates are the given rows. */
  ghost predicate Equals(s: State, l: ListingId, title: string, found: set<OppId>)
  {
    && l in s.membership
    && forall o :: o in found <==> o in s.opportunities && o != s.membership[l] && s.opportunities[o].active
                                   && s.opportunities[o].identity == At(title)
  }

  lemma {:induction false} CandidatesAre(t: Chars, a: ListingId, b: ListingId, c: ListingId, x: Scene, l: ListingId, found: set<OppId>)
    requires Fits(a, b, c, x) && Lettered(a, x) && l in {a, b, c} && TitleOf(a, b, x, l) in {"a", "b", "-"}
    requires Equals(Of(a, b, c, x), l, TitleOf(a, b, x, l), found)
    ensures var s := Of(a, b, c, x);
      l in s.membership && l in s.listings && AutoCandidates(t, s, l, IdentityAt(s, l, "")) == found
  {
    var s := Of(a, b, c, x);
    OfAt(a, b, c, x, l);
    forall o | o in s.opportunities
      ensures o in AutoCandidates(t, s, l, IdentityAt(s, l, "")) <==> o in found
    {
      LetteredRow(a, b, c, x, o);
      hide Of, M.Evaluate, Tables, Lettered, AutoCandidates;
      CandidateIffLetter(t, s, l, TitleOf(a, b, x, l), o);
    }
    hide Of, M.Evaluate, Tables, Lettered, Equals;
    OnlyRows(t, s, l, found);
  }

  lemma {:induction false} OnlyRows(t: Chars, s: State, l: ListingId, found: set<OppId>)
    requires l in s.membership && l in s.listings && found <= s.opportunities.Keys
    requires forall o <- s.opportunities :: o in AutoCandidates(t, s, l, IdentityAt(s, l, "")) <==> o in found
    ensures AutoCandidates(t, s, l, IdentityAt(s, l, "")) == found
  {
    hide M.Evaluate;
  }

  lemma {:induction false} HomeIsKnown(a: ListingId, b: ListingId, c: ListingId, x: Scene, l: ListingId)
    requires Fits(a, b, c, x)
    ensures HomeIn(a, b, x, l) in {Own(a), Own(b), Own(c), WINDOW} || HomeIn(a, b, x, l) == Spare(b)
  {
  }

  /** A listing alone in its opportunity joins its only equal. */
  lemma {:induction false} Joins(t: Chars, a: ListingId, b: ListingId, c: ListingId, x: Scene, l: ListingId, o: OppId, title: string)
    requires Fits(a, b, c, x) && Lettered(a, x) && l in {a, b, c} && title == TitleOf(a, b, x, l) && (title == "a" || title == "b")
    requires var s := Of(a, b, c, x);
      && (forall k :: !IsOther(s, l, k)) && Equals(s, l, title, {o})
      && HomeIn(a, b, x, l) in s.opportunities && s.opportunities[HomeIn(a, b, x, l)] == Row(a.company, title, true)
    ensures var s := Of(a, b, c, x);
      && Tables(s) && l in s.listings
      && Resolved(t, s, l, "")
         == Of(a, b, c, WithRow(a, b, c, WithHome(a, b, x, l, o), HomeIn(a, b, x, l), Row(a.company, title, false)))
  {
    assert Three(a, b, c) && l.company == a.company;
    hide Of, Tables, Resolved, Three, TitleOf, M.Evaluate, AutoCandidates, M.Normal, WithHome, WithRow, Lettered, FirstOther, Equals, IsOther, Ids, HomeIn, Fits, LocationOf;
    var s, home, row := Of(a, b, c, x), HomeIn(a, b, x, l), Row(a.company, title, false);
    CandidatesAre(t, a, b, c, x, l, {o});
    OfAt(a, b, c, x, l);
    NormalAt(t, title);
    HomeIsKnown(a, b, c, x, l);
    OfWithHome(a, b, c, x, l, o);
    OfWithRow(a, b, c, WithHome(a, b, x, l, o), home, row);
    NobodyElse(s, l);
    JoinGives(t, s, l, o, row);
  }

  /** A listing leaves an opportunity it shares only with k, when their titles differ or are none. */
  lemma {:induction false} Parts(t: Chars, a: ListingId, b: ListingId, c: ListingId, x: Scene, l: ListingId, k: ListingId, target: OppId, row: Opportunity)
    requires Fits(a, b, c, x) && l in {a, b, c} && k in {a, b, c} && TitleOf(a, b, x, l) in {"b", "-"} && TitleOf(a, b, x, k) in {"a", "-"}
    requires var s := Of(a, b, c, x);
      IsOther(s, l, k) && (forall y :: IsOther(s, l, y) ==> y == k)
    requires target == if HomeIn(a, b, x, l) == Own(l) then SplitOff(l, row.identity.title, "") else Own(l)
    requires target in {Own(a), Own(b), Own(c), WINDOW} || target == Spare(b)
    requires row == Row(a.company, if TitleOf(a, b, x, l) == "-" then "" else "b", true)
    requires target in Of(a, b, c, x).opportunities ==> Of(a, b, c, x).opportunities[target].company == a.company
    ensures var s := Of(a, b, c, x);
      && Tables(s) && l in s.listings
      && Resolved(t, s, l, "") == Of(a, b, c, WithRow(a, b, c, WithHome(a, b, x, l, target), target, row))
  {
    hide Of, Tables, Resolved, M.Normal, M.Evaluate, WithHome, WithRow, FirstOther, LocationOf;
    var s := Of(a, b, c, x);
    assert Three(a, b, c) && l.company == a.company;
    OfAt(a, b, c, x, l);
    OfAt(a, b, c, x, k);
    NormalAt(t, TitleOf(a, b, x, l));
    Verdict(t, TitleOf(a, b, x, l), TitleOf(a, b, x, k));
    OfWithHome(a, b, c, x, l, target);
    OfWithRow(a, b, c, WithHome(a, b, x, l, target), target, row);
    OnlyOther(s, l, k);
    assert target == SplitTarget(t, s, l, IdentityAt(s, l, ""));
    hide IsOther, Ids, HomeIn, Fits, SplitTarget, TitleOf;
    SplitGives(t, s, l, k, target, row);
  }

  /** A listing alone and without a title stays, and its row forgets its title. */
  lemma {:induction false} Forgets(t: Chars, a: ListingId, b: ListingId, c: ListingId, x: Scene, l: ListingId)
    requires Fits(a, b, c, x) && Lettered(a, x) && l in {a, b, c} && TitleOf(a, b, x, l) == "-"
    requires var s := Of(a, b, c, x);
      && (forall k :: !IsOther(s, l, k)) && Equals(s, l, "-", {})
      && HomeIn(a, b, x, l) in s.opportunities && s.opportunities[HomeIn(a, b, x, l)].company == a.company
    ensures var s := Of(a, b, c, x);
      && Tables(s) && l in s.listings
      && Resolved(t, s, l, "") == Of(a, b, c, WithRow(a, b, c, x, HomeIn(a, b, x, l), Row(a.company, "", true)))
  {
    var s, home, row := Of(a, b, c, x), HomeIn(a, b, x, l), Row(a.company, "", true);
    assert Three(a, b, c);
    hide Of, Tables, Resolved, AutoCandidates, M.Normal, WithHome, WithRow, Lettered, FirstOther, Equals, IsOther, Ids, HomeIn, Fits, LocationOf;
    CandidatesAre(t, a, b, c, x, l, {});
    OfAt(a, b, c, x, l);
    NormalAt(t, "-");
    HomeIsKnown(a, b, c, x, l);
    OfWithRow(a, b, c, x, home, row);
    NobodyElse(s, l);
    RefreshGives(t, s, l, row);
  }

  // ----- The run, step by step -----

  lemma {:induction false} OfHomes(a: ListingId, b: ListingId, c: ListingId, x: Scene)
    requires Three(a, b, c)
    ensures var s := Of(a, b, c, x);
      && s.membership.Keys == {a, b, c}
      && s.membership[a] == x.homeA && s.membership[b] == x.homeB && s.membership[c] == x.homeC
  {
  }

  /** l lives alone and has exactly one equal. */
  ghost predicate Meets(s: State, l: ListingId, title: string, o: OppId, row: Opportunity)
  {
    && (forall k :: !IsOther(s, l, k)) && Equals(s, l, title, {o})
    && s.membership[l] in s.opportunities && s.opportunities[s.membership[l]] == row
  }

  lemma {:induction false} ThirdMeets(a: ListingId, b: ListingId, c: ListingId)
    requires Three(a, b, c)
    ensures Meets(Of(a, b, c, Arrived(a, b, c).(analyses := map[c := DONE])), c, "b", WINDOW, Row(a.company, "b", true))
  {
    hide Of;
    OfRows(a, b, c, Arrived(a, b, c).(analyses := map[c := DONE]));
    OfHomes(a, b, c, Arrived(a, b, c).(analyses := map[c := DONE]));
  }

  lemma {:induction false} ThirdJoins(t: Chars, a: ListingId, b: ListingId, c: ListingId)
    requires Three(a, b, c)
    ensures var s := Of(a, b, c, Arrived(a, b, c));
      Tables(s) && Step(t, s, Save(c, ANALYSIS)) == Of(a, b, c, Sc1(a, b, c))
  {
    hide Of, Resolved, Step, Tables, Equals, IsOther;
    assert map[][c := DONE] == map[c := DONE];
    OfHomes(a, b, c, Arrived(a, b, c).(analyses := map[c := DONE]));
    ThirdMeets(a, b, c);
    Saves(t, a, b, c, Arrived(a, b, c), c);
    Joins(t, a, b, c, Arrived(a, b, c).(analyses := map[c := DONE]), c, WINDOW, "b");
  }

  lemma {:induction false} FirstMeets(a: ListingId, b: ListingId, c: ListingId)
    requires Three(a, b, c)
    ensures Meets(Of(a, b, c, Sc1(a, b, c).(analyses := map[c := DONE, a := DONE])), a, "a", Own(b), Row(a.company, "a", true))
  {
    hide Of;
    OfRows(a, b, c, Sc1(a, b, c).(analyses := map[c := DONE, a := DONE]));
    OfHomes(a, b, c, Sc1(a, b, c).(analyses := map[c := DONE, a := DONE]));
  }

  lemma {:induction false} FirstJoins(t: Chars, a: ListingId, b: ListingId, c: ListingId)
    requires Three(a, b, c)
    ensures var s := Of(a, b, c, Sc1(a, b, c));
      Tables(s) && Step(t, s, Save(a, ANALYSIS)) == Of(a, b, c, Sc2(a, b, c))
  {
    hide Of, Resolved, Step, Tables, Equals, IsOther;
    assert map[c := DONE][a := DONE] == map[c := DONE, a := DONE];
    OfHomes(a, b, c, Sc1(a, b, c).(analyses := map[c := DONE, a := DONE]));
    FirstMeets(a, b, c);
    Saves(t, a, b, c, Sc1(a, b, c), a);
    Joins(t, a, b, c, Sc1(a, b, c).(analyses := map[c := DONE, a := DONE]), a, Own(b), "a");
  }

  lemma {:induction false} SecondMet(a: ListingId, b: ListingId, c: ListingId)
    requires Three(a, b, c)
    ensures var s := Of(a, b, c, Sc2(a, b, c).(titleB := "b", analyses := All(a, b, c)));
      IsOther(s, b, a) && (forall k :: IsOther(s, b, k) ==> k == a) && Spare(b) !in s.opportunities
  {
    hide Of;
    OfRows(a, b, c, Sc2(a, b, c).(titleB := "b", analyses := All(a, b, c)));
    OfHomes(a, b, c, Sc2(a, b, c).(titleB := "b", analyses := All(a, b, c)));
  }

  lemma {:induction false} SecondLeaves(t: Chars, a: ListingId, b: ListingId, c: ListingId)
    requires Three(a, b, c)
    ensures var s := Of(a, b, c, Sc2(a, b, c).(titleB := "b"));
      Tables(s) && Step(t, s, Save(b, ANALYSIS)) == Of(a, b, c, Sc3(a, b, c))
  {
    hide Of, Resolved, Step, Tables, IsOther;
    assert map[c := DONE, a := DONE][b := DONE] == All(a, b, c);
    SecondMet(a, b, c);
    Saves(t, a, b, c, Sc2(a, b, c).(titleB := "b"), b);
    Parts(t, a, b, c, Sc2(a, b, c).(titleB := "b", analyses := All(a, b, c)), b, a, Spare(b), Row(a.company, "b", true));
  }

  lemma {:induction false} SecondMeets(a: ListingId, b: ListingId, c: ListingId)
    requires Three(a, b, c)
    ensures Meets(Of(a, b, c, Sc3(a, b, c)), b, "b", WINDOW, Row(a.company, "b", true))
  {
    hide Of;
    OfRows(a, b, c, Sc3(a, b, c));
    OfHomes(a, b, c, Sc3(a, b, c));
  }

  lemma {:induction false} SecondJoins(t: Chars, a: ListingId, b: ListingId, c: ListingId)
    requires Three(a, b, c)
    ensures var s := Of(a, b, c, Sc3(a, b, c));
      Tables(s) && Step(t, s, Save(b, ANALYSIS)) == Of(a, b, c, Sc4(a, b, c))
  {
    hide Of, Resolved, Step, Tables, Equals, IsOther;
    assert All(a, b, c)[b := DONE] == All(a, b, c);
    OfHomes(a, b, c, Sc3(a, b, c));
    SecondMeets(a, b, c);
    Saves(t, a, b, c, Sc3(a, b, c), b);
    Joins(t, a, b, c, Sc3(a, b, c), b, WINDOW, "b");
  }

  /** The window is registered again under a name without letters. */
  lemma {:induction false} WindowForgets(t: Chars, a: ListingId, b: ListingId, c: ListingId, x: Scene)
    requires Fits(a, b, c, x) && x.window == Row(a.company, "b", true)
    ensures var s := Of(a, b, c, x);
      Tables(s) && Step(t, s, RegisterProgram("window", a.company, "-")) == Of(a, b, c, x.(window := Row(a.company, "", true)))
  {
    assert Three(a, b, c);
    hide Of, Tables, M.NormalizeTitle, Fits;
    OfTables(a, b, c, x);
    OfRows(a, b, c, x);
    OfCompany(a, b, c, x);
    HyphenTitle(t);
    OfWithRow(a, b, c, x, WINDOW, Row(a.company, "", true));
  }

  lemma {:induction false} OfCompany(a: ListingId, b: ListingId, c: ListingId, x: Scene)
    ensures Of(a, b, c, x).companies == map[a.company := Primary]
  {
  }

  lemma {:induction false} FirstForgets(t: Chars, a: ListingId, b: ListingId, c: ListingId, x: Scene)
    requires Three(a, b, c) && (x == Sc5(a, b, c) || x == Sc6(a, b, c))
    ensures var s := Of(a, b, c, x);
      Tables(s) && a in s.listings && Resolved(t, s, a, "") == Of(a, b, c, Sc6(a, b, c))
  {
    hide Of, Resolved, Tables;
    var s := Of(a, b, c, x);
    OfRows(a, b, c, x);
    OfHomes(a, b, c, x);
    assert Equals(s, a, "-", {});
    assert forall k :: !IsOther(s, a, k);
    hide Equals, IsOther;
    Forgets(t, a, b, c, x, a);
  }

  lemma {:induction false} FirstSaves(t: Chars, a: ListingId, b: ListingId, c: ListingId)
    requires Three(a, b, c)
    ensures var s := Of(a, b, c, Sc5(a, b, c));
      Tables(s) && Step(t, s, Save(a, ANALYSIS)) == Of(a, b, c, Sc6(a, b, c))
  {
    hide Of, Resolved, Step, Tables;
    assert All(a, b, c)[a := DONE] == All(a, b, c);
    Saves(t, a, b, c, Sc5(a, b, c), a);
    FirstForgets(t, a, b, c, Sc5(a, b, c));
  }

  // ----- The two passes -----

  lemma {:induction false} SecondReturns(t: Chars, a: ListingId, b: ListingId, c: ListingId)
    requires Three(a, b, c)
    ensures var s := Of(a, b, c, Sc6(a, b, c));
      Tables(s) && b in s.listings && Resolved(t, s, b, "") == Of(a, b, c, Sc7(a, b, c))
  {
    hide Of, Resolved, Tables;
    var x := Sc6(a, b, c);
    var s := Of(a, b, c, x);
    OfRows(a, b, c, x);
    OfHomes(a, b, c, x);
    assert IsOther(s, b, c) && forall k :: IsOther(s, b, k) ==> k == c;
    hide IsOther;
    Parts(t, a, b, c, x, b, c, Own(b), Row(a.company, "", true));
  }

  lemma {:induction false} ThirdStays(t: Chars, a: ListingId, b: ListingId, c: ListingId)
    requires Three(a, b, c)
    ensures var s := Of(a, b, c, Sc7(a, b, c));
      Tables(s) && c in s.listings && Resolved(t, s, c, "") == s
  {
    hide Of, Resolved, Tables;
    var x := Sc7(a, b, c);
    var s := Of(a, b, c, x);
    OfRows(a, b, c, x);
    OfHomes(a, b, c, x);
    assert Equals(s, c, "-", {});
    assert forall k :: !IsOther(s, c, k);
    hide Equals, IsOther;
    Forgets(t, a, b, c, x, c);
  }

  lemma {:induction false} FirstIsRestless(t: Chars, a: ListingId, b: ListingId, c: ListingId)
    requires Three(a, b, c)
    ensures var s := Of(a, b, c, Sc7(a, b, c));
      Tables(s) && a in s.listings && !AtRest(t, s, a)
  {
    hide Of, Tables, LocationOf, M.Evaluate;
    var x := Sc7(a, b, c);
    var s := Of(a, b, c, x);
    OfHomes(a, b, c, x);
    OfAt(a, b, c, x, a);
    OfAt(a, b, c, x, b);
    assert IsOther(s, a, b) && forall k :: IsOther(s, a, k) ==> k == b;
    hide IsOther;
    OnlyOther(s, a, b);
    Verdict(t, "-", "-");
  }

  // ----- Reaching the store -----

  ghost predicate Leads(t: Chars, s: State, op: Op, s': State)
  {
    Tables(s) && Step(t, s, op) == s' && Tables(s')
  }

  lemma {:induction false} LeadsOn(t: Chars, s: State, op: Op, s': State, rest: seq<Op>, end: State)
    requires Leads(t, s, op, s') && Reaches(t, s', rest, end)
    ensures Tables(s) && Reaches(t, s, [op] + rest, end)
  {
    hide Step, Tables;
    assert ([op] + rest)[1..] == rest;
  }

  lemma {:induction false} HereAlready(t: Chars, s: State, op: Op, s': State)
    requires Leads(t, s, op, s')
    ensures Tables(s') && Reaches(t, s', [], s')
  {
    hide Tables, Step;
  }

  ghost function Founded(company: string): State
  {
    EMPTY.(companies := map[company := Primary], sources := map["careers" := Source(company, OfficialCompany)])
  }

  ghost function Opened(company: string): State
  {
    Founded(company).(opportunities := map[WINDOW := Row(company, "b", true)])
  }

  /** s with one more listing, last in order. */
  ghost function Joined(s: State, l: ListingId, title: string): State
  {
    s.(order := s.order + [l], listings := s.listings[l := Listing("careers", title)],
       opportunities := s.opportunities[Own(l) := Row(l.company, title, true)], membership := s.membership[l := Own(l)])
  }

  lemma {:induction false} UpsertJoins(t: Chars, s: State, l: ListingId, title: string)
    requires l !in s.listings && M.NormalizeTitle(t, title) == title
    ensures Upserted(t, s, "careers", l, title, |s.order|) == Joined(s, l, title)
  {
    hide M.NormalizeTitle;
    assert s.order[..|s.order|] + [l] + s.order[|s.order|..] == s.order + [l];
  }

  lemma {:induction false} CareersAccepts(t: Chars, s: State, company: string, title: string)
    requires !Blank(t, company) && !Blank(t, title)
    requires s.companies == map[company := Primary] && s.sources == map["careers" := Source(company, OfficialCompany)]
    ensures Accepts(t, s, "careers", company, title)
  {
    CareersNamed(t);
    hide Blank;
  }

  lemma {:induction false} ArrivalLeads(t: Chars, s: State, l: ListingId, title: string)
    requires Inv(s) && l !in s.listings && (title == "a" || title == "b") && !Blank(t, l.company)
    requires s.companies == map[l.company := Primary] && s.sources == map["careers" := Source(l.company, OfficialCompany)]
    ensures Leads(t, s, Titled(l, title, |s.order|), Joined(s, l, title)) && Inv(Joined(s, l, title))
  {
    LetterTitle(t, title);
    CareersAccepts(t, s, l.company, title);
    UpsertJoins(t, s, l, title);
    StepKeeps(t, s, Titled(l, title, |s.order|));
    hide M.NormalizeTitle, Blank, OwnRows, Homes, Announcements, Tables, Accepts, Upserted, Joined;
    assert l == ListingId(l.company, l.url);
  }

  lemma {:induction false} FoundingLeads(t: Chars, company: string)
    ensures Leads(t, EMPTY, Register("careers", company, Primary, OfficialCompany), Founded(company)) && Inv(Founded(company))
  {
    StepKeeps(t, EMPTY, Register("careers", company, Primary, OfficialCompany));
  }

  lemma {:induction false} OpeningLeads(t: Chars, company: string)
    ensures Leads(t, Founded(company), RegisterProgram("window", company, "b"), Opened(company)) && Inv(Opened(company))
  {
    hide M.NormalizeTitle;
    FoundingLeads(t, company);
    LetterTitle(t, "b");
    var s := Founded(company);
    StepKeeps(t, s, RegisterProgram("window", company, "b"));
    assert s.opportunities[WINDOW := Row(company, "b", true)] == Opened(company).opportunities;
  }

  lemma {:induction false} ArrivedListings(a: ListingId, b: ListingId, c: ListingId)
    requires Three(a, b, c)
    ensures var s, s' := Joined(Joined(Joined(Opened(a.company), a, "a"), b, "a"), c, "b"), Of(a, b, c, Arrived(a, b, c));
      s.order == s'.order && s.listings == s'.listings
  {
    var s, s' := Joined(Joined(Joined(Opened(a.company), a, "a"), b, "a"), c, "b"), Of(a, b, c, Arrived(a, b, c));
    assert s.listings.Keys == s'.listings.Keys;
  }

  lemma {:induction false} ArrivedHomes(a: ListingId, b: ListingId, c: ListingId)
    requires Three(a, b, c)
    ensures var s, s' := Joined(Joined(Joined(Opened(a.company), a, "a"), b, "a"), c, "b"), Of(a, b, c, Arrived(a, b, c));
      s.membership == s'.membership
  {
    var s, s' := Joined(Joined(Joined(Opened(a.company), a, "a"), b, "a"), c, "b"), Of(a, b, c, Arrived(a, b, c));
    OfHomes(a, b, c, Arrived(a, b, c));
    hide Of;
    assert s.membership.Keys == s'.membership.Keys;
  }

  lemma {:induction false} ArrivedRows(a: ListingId, b: ListingId, c: ListingId)
    requires Three(a, b, c)
    ensures var s, s' := Joined(Joined(Joined(Opened(a.company), a, "a"), b, "a"), c, "b"), Of(a, b, c, Arrived(a, b, c));
      s.opportunities == s'.opportunities
  {
    hide Titles, Homed, Rows, Of;
    var s, s' := Joined(Joined(Joined(Opened(a.company), a, "a"), b, "a"), c, "b"), Of(a, b, c, Arrived(a, b, c));
    OfRows(a, b, c, Arrived(a, b, c));
    assert s.opportunities.Keys == s'.opportunities.Keys;
  }

  lemma {:induction false} AllArrived(a: ListingId, b: ListingId, c: ListingId)
    requires Three(a, b, c)
    ensures Joined(Joined(Joined(Opened(a.company), a, "a"), b, "a"), c, "b") == Of(a, b, c, Arrived(a, b, c))
  {
    ArrivedListings(a, b, c);
    ArrivedHomes(a, b, c);
    ArrivedRows(a, b, c);
    var s' := Of(a, b, c, Arrived(a, b, c));
    assert s'.companies == map[a.company := Primary] && s'.sources == map["careers" := Source(a.company, OfficialCompany)];
    assert s'.analyses == map[] && s'.notifications == [];
    hide Of;
  }

  lemma {:induction false} Arrivals(a: ListingId, b: ListingId, c: ListingId)
    requires Three(a, b, c)
    ensures var s0 := Opened(a.company);
      var s1 := Joined(s0, a, "a");
      var s2 := Joined(s1, b, "a");
      && |s0.order| == 0 && |s1.order| == 1 && |s2.order| == 2
      && a !in s0.listings && b !in s1.listings && c !in s2.listings
      && s0.companies == s1.companies == s2.companies == map[a.company := Primary]
      && s0.sources == s1.sources == s2.sources == map["careers" := Source(a.company, OfficialCompany)]
  {
  }

  lemma {:induction false} ReachesArrived(t: Chars, a: ListingId, b: ListingId, c: ListingId, rest: seq<Op>, end: State)
    requires Three(a, b, c) && !Blank(t, a.company)
    requires Tables(Of(a, b, c, Arrived(a, b, c))) && Reaches(t, Of(a, b, c, Arrived(a, b, c)), rest, end)
    ensures Reaches(t, EMPTY, [Register("careers", a.company, Primary, OfficialCompany)]
      + ([RegisterProgram("window", a.company, "b")] + ([Titled(a, "a", 0)] + ([Titled(b, "a", 1)] + ([Titled(c, "b", 2)] + rest)))), end)
  {
    var s0 := Opened(a.company);
    var s1 := Joined(s0, a, "a");
    var s2 := Joined(s1, b, "a");
    var s3 := Joined(s2, c, "b");
    hide Leads, Inv, Blank, Of, Reaches, Tables, Joined, Founded, Opened;
    Arrivals(a, b, c);
    FoundingLeads(t, a.company);
    OpeningLeads(t, a.company);
    ArrivalLeads(t, s0, a, "a");
    ArrivalLeads(t, s1, b, "a");
    ArrivalLeads(t, s2, c, "b");
    AllArrived(a, b, c);
    LeadsOn(t, s2, Titled(c, "b", 2), s3, rest, end);
    LeadsOn(t, s1, Titled(b, "a", 1), s2, [Titled(c, "b", 2)] + rest, end);
    LeadsOn(t, s0, Titled(a, "a", 0), s1, [Titled(b, "a", 1)] + ([Titled(c, "b", 2)] + rest), end);
    LeadsOn(t, Founded(a.company), RegisterProgram("window", a.company, "b"), s0,
      [Titled(a, "a", 0)] + ([Titled(b, "a", 1)] + ([Titled(c, "b", 2)] + rest)), end);
    LeadsOn(t, EMPTY, Register("careers", a.company, Primary, OfficialCompany), Founded(a.company),
      [RegisterProgram("window", a.company, "b")] + ([Titled(a, "a", 0)] + ([Titled(b, "a", 1)] + ([Titled(c, "b", 2)] + rest))), end);
  }

  lemma {:induction false} RetitleLeads(t: Chars, a: ListingId, b: ListingId, c: ListingId, x: Scene, l: ListingId, title: string)
    requires Fits(a, b, c, x) && l in {a, b, c} && !Blank(t, a.company) && (title == "b" || title == "-")
    ensures Leads(t, Of(a, b, c, x), Titled(l, title, 0), Of(a, b, c, WithTitle(a, b, x, l, title)))
  {
    Retitles(t, a, b, c, x, l, title);
    OfTables(a, b, c, WithTitle(a, b, x, l, title));
    hide Of, Step, Tables;
  }

  lemma {:induction false} StepLeads(t: Chars, s: State, op: Op, a: ListingId, b: ListingId, c: ListingId, x: Scene)
    requires Tables(s) && Step(t, s, op) == Of(a, b, c, x) && Fits(a, b, c, x)
    ensures Leads(t, s, op, Of(a, b, c, x))
  {
    OfTables(a, b, c, x);
    hide Of, Step, Tables;
  }

  lemma {:induction false} ScenesFit(a: ListingId, b: ListingId, c: ListingId)
    requires Three(a, b, c)
    ensures Fits(a, b, c, Sc1(a, b, c)) && Fits(a, b, c, Sc2(a, b, c)) && Fits(a, b, c, Sc3(a, b, c)) && Fits(a, b, c, Sc4(a, b, c))
    ensures Fits(a, b, c, Sc5(a, b, c)) && Fits(a, b, c, Sc6(a, b, c)) && Fits(a, b, c, Sc5(a, b, c).(window := Row(a.company, "b", true)))
  {
  }

  /** The five transactions after the arrivals that analyse and regroup. */
  lemma {:induction false} AnalysesLead(t: Chars, a: ListingId, b: ListingId, c: ListingId)
    requires Three(a, b, c) && !Blank(t, a.company)
    ensures Leads(t, Of(a, b, c, Arrived(a, b, c)), Save(c, ANALYSIS), Of(a, b, c, Sc1(a, b, c)))
    ensures Leads(t, Of(a, b, c, Sc1(a, b, c)), Save(a, ANALYSIS), Of(a, b, c, Sc2(a, b, c)))
    ensures Leads(t, Of(a, b, c, Sc2(a, b, c)), Titled(b, "b", 0), Of(a, b, c, Sc2(a, b, c).(titleB := "b")))
    ensures Leads(t, Of(a, b, c, Sc2(a, b, c).(titleB := "b")), Save(b, ANALYSIS), Of(a, b, c, Sc3(a, b, c)))
    ensures Leads(t, Of(a, b, c, Sc3(a, b, c)), Save(b, ANALYSIS), Of(a, b, c, Sc4(a, b, c)))
  {
    assert WithTitle(a, b, Sc2(a, b, c), b, "b") == Sc2(a, b, c).(titleB := "b");
    ScenesFit(a, b, c);
    hide Of, Step, Tables, Leads, Fits, Arrived, Sc1, Sc2, Sc3, Sc4, WithTitle, Blank;
    ThirdJoins(t, a, b, c);
    StepLeads(t, Of(a, b, c, Arrived(a, b, c)), Save(c, ANALYSIS), a, b, c, Sc1(a, b, c));
    FirstJoins(t, a, b, c);
    StepLeads(t, Of(a, b, c, Sc1(a, b, c)), Save(a, ANALYSIS), a, b, c, Sc2(a, b, c));
    RetitleLeads(t, a, b, c, Sc2(a, b, c), b, "b");
    SecondLeaves(t, a, b, c);
    StepLeads(t, Of(a, b, c, Sc2(a, b, c).(titleB := "b")), Save(b, ANALYSIS), a, b, c, Sc3(a, b, c));
    SecondJoins(t, a, b, c);
    StepLeads(t, Of(a, b, c, Sc3(a, b, c)), Save(b, ANALYSIS), a, b, c, Sc4(a, b, c));
  }

  /** The five transactions after those, which take the titles away. */
  lemma {:induction false} RetitlesLead(t: Chars, a: ListingId, b: ListingId, c: ListingId)
    requires Three(a, b, c) && !Blank(t, a.company)
    ensures var x := Sc4(a, b, c);
      var y := Sc5(a, b, c).(window := Row(a.company, "b", true));
      && Leads(t, Of(a, b, c, x), Titled(a, "-", 0), Of(a, b, c, x.(titleA := "-")))
      && Leads(t, Of(a, b, c, x.(titleA := "-")), Titled(b, "-", 0), Of(a, b, c, x.(titleA := "-", titleB := "-")))
      && Leads(t, Of(a, b, c, x.(titleA := "-", titleB := "-")), Titled(c, "-", 0), Of(a, b, c, y))
      && Leads(t, Of(a, b, c, y), RegisterProgram("window", a.company, "-"), Of(a, b, c, Sc5(a, b, c)))
      && Leads(t, Of(a, b, c, Sc5(a, b, c)), Save(a, ANALYSIS), Of(a, b, c, Sc6(a, b, c)))
  {
    hide Of, Leads, Step, Tables, Blank;
    var x := Sc4(a, b, c);
    var y := Sc5(a, b, c).(window := Row(a.company, "b", true));
    ScenesFit(a, b, c);
    RetitleLeads(t, a, b, c, x, a, "-");
    RetitleLeads(t, a, b, c, x.(titleA := "-"), b, "-");
    RetitleLeads(t, a, b, c, x.(titleA := "-", titleB := "-"), c, "-");
    WindowForgets(t, a, b, c, y);
    FirstSaves(t, a, b, c);
    hide Fits, WithTitle;
    StepLeads(t, Of(a, b, c, y), RegisterProgram("window", a.company, "-"), a, b, c, Sc5(a, b, c));
    StepLeads(t, Of(a, b, c, Sc5(a, b, c)), Save(a, ANALYSIS), a, b, c, Sc6(a, b, c));
  }

  lemma {:induction false} RetitlingsReach(t: Chars, a: ListingId, b: ListingId, c: ListingId)
    requires Three(a, b, c) && !Blank(t, a.company)
    ensures var s := Of(a, b, c, Sc4(a, b, c));
      Tables(s) && Reaches(t, s, Retitlings(a, b, c), Of(a, b, c, Sc6(a, b, c)))
  {
    hide Of, Leads, Reaches, Tables, Blank, Sc4, Sc5, Sc6;
    var end, x := Of(a, b, c, Sc6(a, b, c)), Sc4(a, b, c);
    RetitlesLead(t, a, b, c);
    HereAlready(t, Of(a, b, c, Sc5(a, b, c)), Save(a, ANALYSIS), end);
    var r4 := [Save(a, ANALYSIS)] + [];
    var r3 := [RegisterProgram("window", a.company, "-")] + r4;
    var r2 := [Titled(c, "-", 0)] + r3;
    var r1 := [Titled(b, "-", 0)] + r2;
    LeadsOn(t, Of(a, b, c, Sc5(a, b, c)), Save(a, ANALYSIS), end, [], end);
    LeadsOn(t, Of(a, b, c, Sc5(a, b, c).(window := Row(a.company, "b", true))), RegisterProgram("window", a.company, "-"),
            Of(a, b, c, Sc5(a, b, c)), r4, end);
    LeadsOn(t, Of(a, b, c, x.(titleA := "-", titleB := "-")), Titled(c, "-", 0),
            Of(a, b, c, Sc5(a, b, c).(window := Row(a.company, "b", true))), r3, end);
    LeadsOn(t, Of(a, b, c, x.(titleA := "-")), Titled(b, "-", 0), Of(a, b, c, x.(titleA := "-", titleB := "-")), r2, end);
    LeadsOn(t, Of(a, b, c, x), Titled(a, "-", 0), Of(a, b, c, x.(titleA := "-")), r1, end);
  }

  lemma {:induction false} AnalysesReach(t: Chars, a: ListingId, b: ListingId, c: ListingId)
    requires Three(a, b, c) && !Blank(t, a.company)
    ensures var s := Of(a, b, c, Arrived(a, b, c));
      Tables(s) && Reaches(t, s, Analyses(a, b, c), Of(a, b, c, Sc6(a, b, c)))
  {
    hide Of, Leads, Reaches, Tables, Blank, Arrived, Sc1, Sc2, Sc3, Sc4, Sc6, Retitlings;
    RetitlingsReach(t, a, b, c);
    AnalysesLead(t, a, b, c);
    var end := Of(a, b, c, Sc6(a, b, c));
    var s1, s2, s2', s3, s4 := Of(a, b, c, Sc1(a, b, c)), Of(a, b, c, Sc2(a, b, c)), Of(a, b, c, Sc2(a, b, c).(titleB := "b")),
                               Of(a, b, c, Sc3(a, b, c)), Of(a, b, c, Sc4(a, b, c));
    var r4 := [Save(b, ANALYSIS)] + Retitlings(a, b, c);
    var r3 := [Save(b, ANALYSIS)] + r4;
    var r2 := [Titled(b, "b", 0)] + r3;
    var r1 := [Save(a, ANALYSIS)] + r2;
    LeadsOn(t, s3, Save(b, ANALYSIS), s4, Retitlings(a, b, c), end);
    LeadsOn(t, s2', Save(b, ANALYSIS), s3, r4, end);
    LeadsOn(t, s2, Titled(b, "b", 0), s2', r3, end);
    LeadsOn(t, s1, Save(a, ANALYSIS), s2, r2, end);
    LeadsOn(t, Of(a, b, c, Arrived(a, b, c)), Save(c, ANALYSIS), s1, r1, end);
  }

  lemma {:induction false} HistoryReaches(t: Chars, a: ListingId, b: ListingId, c: ListingId)
    requires Three(a, b, c) && !Blank(t, a.company)
    ensures Reaches(t, EMPTY, History(a, b, c), Of(a, b, c, Sc6(a, b, c)))
  {
    hide Of, Reaches, Tables, Blank, Analyses;
    AnalysesReach(t, a, b, c);
    ReachesArrived(t, a, b, c, Analyses(a, b, c), Of(a, b, c, Sc6(a, b, c)));
  }

  // ----- The second pass still changes the store -----

  lemma {:induction false} ThreeSteps(t: Chars, s: State, s1: State, s2: State, s3: State, a: ListingId, b: ListingId, c: ListingId)
    requires Tables(s) && Tables(s1) && Tables(s2) && a in s.listings && b in s.listings && c in s.listings && b in s1.listings && c in s1.listings && c in s2.listings
    requires Resolved(t, s, a, LocationOf(s, a)) == s1
    requires Resolved(t, s1, b, LocationOf(s1, b)) == s2
    requires Resolved(t, s2, c, LocationOf(s2, c)) == s3
    ensures ReconciledOver(t, s, [a, b, c]) == s3
  {
    hide Tables, Resolved;
    ResolveKeepsTables(t, s2, c, LocationOf(s2, c));
    assert [a, b, c][1..] == [b, c] && [b, c][1..] == [c] && [c][1..] == [];
    assert ReconciledOver(t, s2, [c]) == ReconciledOver(t, s3, []);
    assert forall l <- [b, c] :: l in s1.listings;
    assert ReconciledOver(t, s1, [b, c]) == ReconciledOver(t, s2, [c]);
  }

  lemma {:induction false} AllAnalysed(a: ListingId, b: ListingId, c: ListingId)
    requires Three(a, b, c)
    ensures var s := Of(a, b, c, Sc6(a, b, c));
      Items(s, s.order) == [a, b, c] && s.listings.Keys == {a, b, c}
  {
    var x := Sc6(a, b, c);
    assert Fits(a, b, c, x);
    assert a in x.analyses && b in x.analyses && c in x.analyses;
    hide Of, Items, LocationOf, Fits, Sc6, TitleOf;
    OfListing(a, b, c, x, a);
    OfListing(a, b, c, x, b);
    OfListing(a, b, c, x, c);
    AllItems(Of(a, b, c, x), [a, b, c]);
  }

  lemma {:induction false} NoLocations(a: ListingId, b: ListingId, c: ListingId)
    requires Three(a, b, c)
    ensures var s, s' := Of(a, b, c, Sc6(a, b, c)), Of(a, b, c, Sc7(a, b, c));
      && s.listings.Keys == s'.listings.Keys == {a, b, c}
      && LocationOf(s, a) == LocationOf(s, b) == LocationOf(s', c) == ""
  {
    assert Fits(a, b, c, Sc6(a, b, c)) && Fits(a, b, c, Sc7(a, b, c));
    hide Of, LocationOf, Sc6, Sc7, Fits;
    OfListing(a, b, c, Sc6(a, b, c), a);
    OfListing(a, b, c, Sc6(a, b, c), b);
    OfListing(a, b, c, Sc7(a, b, c), c);
  }

  lemma {:induction false} PassReturns(t: Chars, a: ListingId, b: ListingId, c: ListingId)
    requires Three(a, b, c)
    ensures var s := Of(a, b, c, Sc6(a, b, c));
      Tables(s) && Reconciled(t, s) == Of(a, b, c, Sc7(a, b, c))
  {
    hide Of, Resolved, Tables, LocationOf, ReconciledOver, Items, Sc6, Sc7;
    var s, s' := Of(a, b, c, Sc6(a, b, c)), Of(a, b, c, Sc7(a, b, c));
    NoLocations(a, b, c);
    FirstForgets(t, a, b, c, Sc6(a, b, c));
    SecondReturns(t, a, b, c);
    ThirdStays(t, a, b, c);
    AllAnalysed(a, b, c);
    ThreeSteps(t, s, s, s', s', a, b, c);
  }

  lemma {:induction false} BlockedStores(t: Chars, a: ListingId, b: ListingId, c: ListingId, l: ListingId)
    requires Three(a, b, c) && l in {a, b, c}
    ensures var s := Of(a, b, c, Sc6(a, b, c));
      && Tables(s) && l in s.listings && Ident(s, l) == At("-")
      && HomeOf(s, l) == Row(l.company, "", true)
  {
    var x := Sc6(a, b, c);
    assert Fits(a, b, c, x);
    hide Of, Tables, LocationOf;
    OfAt(a, b, c, x, l);
    OfRows(a, b, c, x);
  }

  /** Every row stores its listings' identity, and without titles nothing merges. */
  lemma {:induction false} BlockedIsOrderly(t: Chars, a: ListingId, b: ListingId, c: ListingId)
    requires Three(a, b, c)
    ensures var s := Of(a, b, c, Sc6(a, b, c));
      Tables(s) && Stores(t, s) && Distinct(t, s)
  {
    hide Of, Tables, Sc6, Ident, HomeOf, M.Evaluate, M.Normal, LocationOf, Items;
    var s := Of(a, b, c, Sc6(a, b, c));
    NormalAt(t, "-");
    AllAnalysed(a, b, c);
    BlockedStores(t, a, b, c, a);
    forall l | l in s.listings
      ensures Ident(s, l) == At("-") && HomeOf(s, l) == Row(l.company, "", true)
    {
      BlockedStores(t, a, b, c, l);
    }
    forall o | o in s.opportunities
      ensures M.Evaluate(t, At("-"), s.opportunities[o].identity).outcome == M.Separate
    {
      UntitledIsSeparate(t, At("-"), s.opportunities[o].identity);
    }
  }

  /** Reconciliation is not idempotent, even in a store whose rows store their listings' identities and
      merge only equals: this run ends in one that a first pass changes and a second pass changes again.
      The first pass returns the second listing to its own opportunity, where the first listing lives;
      without titles they do not fit, so the second pass moves the first one out. */
  lemma {:induction false} SecondPassStillChanges(t: Chars, a: ListingId, b: ListingId, c: ListingId)
    requires Three(a, b, c) && !Blank(t, a.company)
    ensures var s := Of(a, b, c, Sc6(a, b, c));
      && Reaches(t, EMPTY, History(a, b, c), s)
      && Inv(s) && Batches.Vacant(s) && Stores(t, s) && Distinct(t, s)
      && Tables(Reconciled(t, s)) && Reconciled(t, Reconciled(t, s)) != Reconciled(t, s)
  {
    assert Tables(EMPTY) && Batches.Vacant(EMPTY);
    hide Of, Reaches, Tables, Blank, History, AtRest, Reconciled, Items, Sc6, Sc7, Stores, Distinct, Batches.Vacant, Inv;
    var s := Of(a, b, c, Sc6(a, b, c));
    HistoryReaches(t, a, b, c);
    EveryReachableStateIsConsistent(t, History(a, b, c), s);
    Batches.RunKeepsVacant(t, EMPTY, History(a, b, c), s);
    BlockedIsOrderly(t, a, b, c);
    PassReturns(t, a, b, c);
    AllAnalysed(a, b, c);
    IdempotentIff(t, s);
    FirstIsRestless(t, a, b, c);
    assert a in Items(s, s.order);
  }

  // ----- A program window that changes company -----

  /** A listing joins the program window of its company; then the window is registered for another. */
  function Adoption(l: ListingId, company: string): seq<Op>
  {
    [Register("careers", l.company, Primary, OfficialCompany)]
    + ([Register("others", company, Primary, OfficialCompany)]
    + ([RegisterProgram("window", l.company, "a")]
    + ([Titled(l, "a", 0)]
    + ([Save(l, ANALYSIS)]
    + ([RegisterProgram("window", company, "a")] + [])))))
  }

  ghost function TwoCompanies(l: ListingId, company: string): State
  {
    EMPTY.(companies := map[l.company := Primary, company := Primary],
           sources := map["careers" := Source(l.company, OfficialCompany), "others" := Source(company, OfficialCompany)])
  }

  ghost function WithWindow(l: ListingId, company: string): State
  {
    TwoCompanies(l, company).(opportunities := map[WINDOW := Row(l.company, "a", true)])
  }

  ghost function Adopted(l: ListingId, company: string, window: string): State
  {
    Joined(WithWindow(l, company), l, "a").(
      opportunities := map[WINDOW := Row(window, "a", true), Own(l) := Row(l.company, "a", false)],
      membership := map[l := WINDOW],
      analyses := map[l := DONE])
  }

  lemma {:induction false} CompaniesLead(t: Chars, l: ListingId, company: string)
    requires l.company != company
    ensures Leads(t, Founded(l.company), Register("others", company, Primary, OfficialCompany), TwoCompanies(l, company))
    ensures Inv(TwoCompanies(l, company))
  {
    FoundingLeads(t, l.company);
    StepKeeps(t, Founded(l.company), Register("others", company, Primary, OfficialCompany));
    var s := Step(t, Founded(l.company), Register("others", company, Primary, OfficialCompany));
    assert s.companies == TwoCompanies(l, company).companies && s.sources == TwoCompanies(l, company).sources;
    hide Inv, Tables;
  }

  lemma {:induction false} WindowLeads(t: Chars, l: ListingId, company: string)
    requires l.company != company
    ensures Leads(t, TwoCompanies(l, company), RegisterProgram("window", l.company, "a"), WithWindow(l, company))
    ensures Inv(WithWindow(l, company))
  {
    CompaniesLead(t, l, company);
    LetterTitle(t, "a");
    var s := TwoCompanies(l, company);
    StepKeeps(t, s, RegisterProgram("window", l.company, "a"));
    assert s.opportunities[WINDOW := Row(l.company, "a", true)] == WithWindow(l, company).opportunities;
    hide Inv, Tables, M.NormalizeTitle;
  }

  lemma {:induction false} ListingLeads(t: Chars, l: ListingId, company: string)
    requires l.company != company && !Blank(t, l.company)
    ensures Leads(t, WithWindow(l, company), Titled(l, "a", 0), Joined(WithWindow(l, company), l, "a"))
    ensures Inv(Joined(WithWindow(l, company), l, "a"))
  {
    var s := WithWindow(l, company);
    WindowLeads(t, l, company);
    LetterTitle(t, "a");
    CareersNamed(t);
    assert Accepts(t, s, "careers", l.company, "a") by { hide Blank; }
    assert |s.order| == 0 && l !in s.listings;
    UpsertJoins(t, s, l, "a");
    StepKeeps(t, s, Titled(l, "a", 0));
    hide Inv, Tables, M.NormalizeTitle, Accepts, Upserted, Joined, WithWindow;
    assert l == ListingId(l.company, l.url);
  }

  lemma {:induction false} AdoptionLeads(t: Chars, l: ListingId, company: string)
    requires l.company != company && !Blank(t, l.company)
    ensures Leads(t, Joined(WithWindow(l, company), l, "a"), Save(l, ANALYSIS), Adopted(l, company, l.company))
    ensures Inv(Adopted(l, company, l.company))
  {
    var s := Joined(WithWindow(l, company), l, "a");
    var s' := s.(analyses := s.analyses[l := DONE]);
    ListingLeads(t, l, company);
    StepKeeps(t, s, Save(l, ANALYSIS));
    assert l in s.listings && l !in s.analyses;
    SaveGives(t, s, l);
    WindowIsOnlyEqual(t, l, company);
    hide Inv, Tables, Resolved, Step;
  }

  lemma {:induction false} WindowIsOnlyEqual(t: Chars, l: ListingId, company: string)
    requires l.company != company
    requires var s := Joined(WithWindow(l, company), l, "a"); Tables(s.(analyses := s.analyses[l := DONE]))
    ensures var s := Joined(WithWindow(l, company), l, "a");
      var s' := s.(analyses := s.analyses[l := DONE]);
      l in s'.listings && Resolved(t, s', l, "") == Adopted(l, company, l.company)
  {
    hide Tables, Resolved, Joined, WithWindow, Adopted, M.Evaluate, M.Normal;
    var s := Joined(WithWindow(l, company), l, "a");
    var s' := s.(analyses := s.analyses[l := DONE]);
    var window := WINDOW;
    WindowAndListing(l, company);
    AdoptedIs(l, company);
    NormalAt(t, "a");
    CandidateIffLetter(t, s', l, "a", window);
    CandidateIffLetter(t, s', l, "a", Own(l));
    OnlyRows(t, s', l, {window});
    NobodyElse(s', l);
    JoinGives(t, s', l, window, Row(l.company, "a", false));
  }

  lemma {:induction false} WindowAndListing(l: ListingId, company: string)
    ensures var s := Joined(WithWindow(l, company), l, "a");
      && s.opportunities.Keys == {WINDOW, Own(l)}
      && s.opportunities[WINDOW] == Row(l.company, "a", true) == s.opportunities[Own(l)]
      && s.listings == map[l := Listing("careers", "a")] && s.membership == map[l := Own(l)] && s.notifications == []
  {
  }

  lemma {:induction false} AdoptedIs(l: ListingId, company: string)
    ensures var s := Joined(WithWindow(l, company), l, "a");
      var s' := s.(analyses := s.analyses[l := DONE]);
      Adopted(l, company, l.company) == s'.(membership := s'.membership[l := WINDOW],
        opportunities := s'.opportunities[Own(l) := Row(l.company, "a", false)])
  {
  }

  lemma {:induction false} MoveLeads(t: Chars, l: ListingId, company: string)
    requires l.company != company && !Blank(t, l.company)
    ensures Leads(t, Adopted(l, company, l.company), RegisterProgram("window", company, "a"), Adopted(l, company, company))
  {
    hide Inv, Tables, M.NormalizeTitle, Step, Reconciled;
    var s, op := Adopted(l, company, l.company), RegisterProgram("window", company, "a");
    AdoptionLeads(t, l, company);
    StepKeeps(t, s, op);
    ConsistentHasTables(Step(t, s, op));
    MoveSteps(t, l, company);
  }

  lemma {:induction false} ConsistentHasTables(s: State)
    requires Inv(s)
    ensures Tables(s)
  {
  }

  lemma {:induction false} MoveSteps(t: Chars, l: ListingId, company: string)
    requires l.company != company && Tables(Adopted(l, company, l.company))
    ensures Step(t, Adopted(l, company, l.company), RegisterProgram("window", company, "a")) == Adopted(l, company, company)
  {
    hide Tables, M.NormalizeTitle;
    LetterTitle(t, "a");
    var s := Adopted(l, company, l.company);
    assert s.opportunities[WINDOW := Row(company, "a", true)] == Adopted(l, company, company).opportunities;
  }

  lemma {:induction false} AdoptedIsMisplaced(l: ListingId, company: string)
    requires l.company != company
    ensures !Placed(Adopted(l, company, company))
  {
    var s := Adopted(l, company, company);
    assert l in s.membership && s.membership[l] in s.opportunities;
  }

  /** A window registered again for another company takes with it the listing that had joined it. */
  lemma {:induction false} WindowTakesListing(t: Chars, l: ListingId, company: string)
    requires l.company != company && !Blank(t, l.company)
    ensures var s := Adopted(l, company, company);
      Reaches(t, EMPTY, Adoption(l, company), s) && !Placed(s)
  {
    hide Founded, TwoCompanies, WithWindow, Joined, Inv, Blank, Reaches, Leads;
    var s0, s1, s2 := Founded(l.company), TwoCompanies(l, company), WithWindow(l, company);
    var s3, s4, s5 := Joined(s2, l, "a"), Adopted(l, company, l.company), Adopted(l, company, company);
    AdoptedIsMisplaced(l, company);
    FoundingLeads(t, l.company);
    CompaniesLead(t, l, company);
    WindowLeads(t, l, company);
    ListingLeads(t, l, company);
    AdoptionLeads(t, l, company);
    MoveLeads(t, l, company);
    hide Adopted, Placed;
    HereAlready(t, s4, RegisterProgram("window", company, "a"), s5);
    var r5 := [RegisterProgram("window", company, "a")] + [];
    var r4 := [Save(l, ANALYSIS)] + r5;
    var r3 := [Titled(l, "a", 0)] + r4;
    var r2 := [RegisterProgram("window", l.company, "a")] + r3;
    LeadsOn(t, s4, RegisterProgram("window", company, "a"), s5, [], s5);
    LeadsOn(t, s3, Save(l, ANALYSIS), s4, r5, s5);
    LeadsOn(t, s2, Titled(l, "a", 0), s3, r4, s5);
    LeadsOn(t, s1, RegisterProgram("window", l.company, "a"), s2, r3, s5);
    LeadsOn(t, s0, Register("others", company, Primary, OfficialCompany), s1, r2, s5);
    LeadsOn(t, EMPTY, Register("careers", l.company, Primary, OfficialCompany), s0,
      [Register("others", company, Primary, OfficialCompany)] + r2, s5);
  }
}
