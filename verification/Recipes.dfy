/** Learned extraction recipes: running one on a page, and the self-repairing, versioned protocol
    around it (internal/scraper/learnedselector.go, recipe storage in internal/store/sqlite.go). */
module Recipes {
  import opened Wrappers
  import opened Text
  import opened Listings
  import S = Selector

  datatype Recipe = Recipe(identitySelector: string, identityText: string, listingSelector: string,
                           titleSelector: string, linkSelector: string)

  /** A fetched page: its tree, the text and link of each node, and URL resolution against the page,
      which yields an absolute HTTP(S) URL without a fragment or nothing. */
  datatype Page = Page(doc: S.Node, text: S.Path -> string, href: S.Path -> Option<string>,
                       resolve: string -> Option<string>)

  datatype Failure = InvalidRecipe | IdentityFailed | SchemaFailed

  // ----- Running a recipe -----

  predicate OccursAt(s: string, part: string, i: nat)
  {
    i + |part| <= |s| && s[i..i + |part|] == part
  }

  predicate Contains(s: string, part: string)
  {
    exists i :: 0 <= i <= |s| && OccursAt(s, part, i)
  }

  predicate ValidRecipe(t: Chars, r: Recipe)
  {
    && Trim(r.identityText, t.space) != ""
    && S.Parse(t, r.identitySelector).Some? && S.Parse(t, r.listingSelector).Some?
    && S.Parse(t, r.titleSelector).Some? && S.Parse(t, r.linkSelector).Some?
  }

  predicate Identifies(t: Chars, page: Page, r: Recipe, node: S.Path)
  {
    Contains(S.Lower(t, page.text(node)), S.Lower(t, Trim(r.identityText, t.space)))
  }

  /** The listing a node describes: it needs exactly one title node and one link node below it, a
      non-blank title and a resolvable link. */
  ghost function Extract(t: Chars, page: Page, r: Recipe, node: S.Path): Option<Listing>
  {
    var titles := S.Selection(t, page.doc, node, r.titleSelector);
    var links := S.Selection(t, page.doc, node, r.linkSelector);
    if |titles| != 1 || |links| != 1 then None
    else ListingOf(t, page, titles[0], links[0], node)
  }

  function ListingOf(t: Chars, page: Page, titleNode: S.Path, linkNode: S.Path, node: S.Path): Option<Listing>
  {
    var title := Trim(page.text(titleNode), t.space);
    var href := page.href(linkNode);
    if title == "" || href.None? then None
    else
      match page.resolve(Trim(href.value, t.space))
      case Some(url) => Some(Listing(title, url, page.text(node)))
      case None => None
  }

  ghost function ExtractAll(t: Chars, page: Page, r: Recipe, nodes: seq<S.Path>): Option<seq<Listing>>
  {
    if nodes == [] then Some([])
    else
      match (ExtractAll(t, page, r, nodes[..|nodes| - 1]), Extract(t, page, r, nodes[|nodes| - 1]))
      case (Some(before), Some(last)) => Some(before + [last])
      case _ => None
  }

  ghost function RunOn(t: Chars, page: Page, r: Recipe): Result<seq<Listing>, Failure>
  {
    if !ValidRecipe(t, r) then Err(InvalidRecipe)
    else if !exists node <- S.Selection(t, page.doc, [], r.identitySelector) :: Identifies(t, page, r, node)
    then Err(IdentityFailed)
    else
      match ExtractAll(t, page, r, S.Selection(t, page.doc, [], r.listingSelector))
      case Some(all) => Ok(FirstByUrl(all))
      case None => Err(SchemaFailed)
  }

  lemma {:induction false} ExtractAllFails(t: Chars, page: Page, r: Recipe, nodes: seq<S.Path>, n: nat)
    requires n <= |nodes| && ExtractAll(t, page, r, nodes[..n]).None?
    ensures ExtractAll(t, page, r, nodes).None?
    decreases |nodes| - n
  {
    if n < |nodes| {
      assert nodes[..n + 1][..n] == nodes[..n];
      ExtractAllFails(t, page, r, nodes, n + 1);
    } else {
      assert nodes[..n] == nodes;
    }
  }

  lemma {:induction false} ExtractAllStep(t: Chars, page: Page, r: Recipe, nodes: seq<S.Path>, i: nat)
    requires i < |nodes| && ExtractAll(t, page, r, nodes[..i]).Some?
    ensures ExtractAll(t, page, r, nodes[..i + 1]) ==
      match Extract(t, page, r, nodes[i])
      case Some(last) => Some(ExtractAll(t, page, r, nodes[..i]).value + [last])
      case None => None
  {
    hide Extract;
    assert nodes[..i + 1][..i] == nodes[..i];
  }

  lemma {:induction false} ExtractAllOfNone(t: Chars, page: Page, r: Recipe)
    ensures ExtractAll(t, page, r, []) == Some([]) && FirstByUrl([]) == []
  {
  }

  // ----- What a recipe finds, read off the page -----

  /** p is the only node strictly below the given one that the selector matches. */
  ghost predicate OnlyMatch(t: Chars, doc: S.Node, node: S.Path, selector: string, p: S.Path)
  {
    && Below(t, doc, node, selector, p)
    && forall q :: Below(t, doc, node, selector, q) ==> q == p
  }

  ghost predicate Below(t: Chars, doc: S.Node, node: S.Path, selector: string, p: S.Path)
  {
    node < p && S.Parse(t, selector).Some? && S.Matches(doc, p, S.Parse(t, selector).value)
  }

  /** l is what the page says about a title node, a link node and the listing node around them. */
  ghost predicate Tells(t: Chars, page: Page, titleNode: S.Path, linkNode: S.Path, node: S.Path, l: Listing)
  {
    && l.title == Trim(page.text(titleNode), t.space) && l.title != ""
    && page.href(linkNode).Some? && page.resolve(Trim(page.href(linkNode).value, t.space)) == Some(l.url)
    && l.rawText == page.text(node)
  }

  ghost predicate Describes(t: Chars, page: Page, r: Recipe, node: S.Path, l: Listing)
  {
    exists a, b :: OnlyMatch(t, page.doc, node, r.titleSelector, a) && OnlyMatch(t, page.doc, node, r.linkSelector, b)
      && Tells(t, page, a, b, node, l)
  }

  ghost predicate ListingNode(t: Chars, page: Page, r: Recipe, node: S.Path)
  {
    Below(t, page.doc, [], r.listingSelector, node)
  }

  ghost predicate ShowsIdentity(t: Chars, page: Page, r: Recipe)
  {
    exists node :: Below(t, page.doc, [], r.identitySelector, node) && Identifies(t, page, r, node)
  }

  /** The node describes l, and no listing node before it has a listing of that URL. */
  ghost predicate FirstDescribed(t: Chars, page: Page, r: Recipe, node: S.Path, l: Listing)
  {
    && ListingNode(t, page, r, node) && Describes(t, page, r, node, l)
    && forall q, m ::
      ListingNode(t, page, r, q) && S.DocumentBefore(q, node) && Describes(t, page, r, q, m) ==> m.url != l.url
  }

  lemma {:induction false} OnlyMember(paths: seq<S.Path>, p: S.Path)
    requires S.InDocumentOrder(paths) && p in paths && forall q <- paths :: q == p
    ensures paths == [p]
  {
    hide S.DocumentBefore;
    if |paths| > 1 {
      assert paths[0] in paths && paths[1] in paths;
      S.OrderIsStrict(paths[0], paths[1]);
    }
  }

  lemma {:induction false} SingleSelection(t: Chars, doc: S.Node, node: S.Path, selector: string)
    requires S.At(doc, node).Some?
    ensures var found := S.Selection(t, doc, node, selector);
      && (|found| == 1 ==> OnlyMatch(t, doc, node, selector, found[0]))
      && forall p :: OnlyMatch(t, doc, node, selector, p) ==> found == [p]
  {
    hide S.Selection, S.Matches, S.Parse, S.InDocumentOrder;
    var found := S.Selection(t, doc, node, selector);
    S.SelectionExact(t, doc, node, selector);
    assert forall p :: p in found <==> Below(t, doc, node, selector, p);
    forall p | OnlyMatch(t, doc, node, selector, p)
      ensures found == [p]
    {
      assert p in found;
      OnlyMember(found, p);
    }
  }

  lemma {:induction false} ExtractDescribes(t: Chars, page: Page, r: Recipe, node: S.Path, l: Listing)
    requires S.At(page.doc, node).Some?
    ensures Extract(t, page, r, node) == Some(l) <==> Describes(t, page, r, node, l)
  {
    hide S.Selection, OnlyMatch;
    SingleSelection(t, page.doc, node, r.titleSelector);
    SingleSelection(t, page.doc, node, r.linkSelector);
    var titles := S.Selection(t, page.doc, node, r.titleSelector);
    var links := S.Selection(t, page.doc, node, r.linkSelector);
    if Extract(t, page, r, node) == Some(l) {
      assert Tells(t, page, titles[0], links[0], node, l);
    }
  }

  lemma {:induction false} ExtractedAll(t: Chars, page: Page, r: Recipe, nodes: seq<S.Path>)
    ensures var all := ExtractAll(t, page, r, nodes);
      && (all.Some? <==> forall i :: 0 <= i < |nodes| ==> Extract(t, page, r, nodes[i]).Some?)
      && (all.Some? ==>
            && |all.value| == |nodes|
            && forall i :: 0 <= i < |nodes| ==> Extract(t, page, r, nodes[i]) == Some(all.value[i]))
  {
    hide Extract;
    if nodes != [] { ExtractedAll(t, page, r, nodes[..|nodes| - 1]); }
  }

  lemma {:induction false} ListingNodes(t: Chars, page: Page, r: Recipe)
    ensures var nodes := S.Selection(t, page.doc, [], r.listingSelector);
      && (forall p :: p in nodes <==> ListingNode(t, page, r, p))
      && (forall p <- nodes :: S.At(page.doc, p).Some?)
      && forall i, j :: 0 <= i < |nodes| && 0 <= j < |nodes| ==> (S.DocumentBefore(nodes[i], nodes[j]) <==> i < j)
  {
    hide S.Selection, S.Parse, S.DocumentBefore;
    var nodes := S.Selection(t, page.doc, [], r.listingSelector);
    S.SelectionExact(t, page.doc, [], r.listingSelector);
    forall i, j | 0 <= i < |nodes| && 0 <= j < |nodes|
      ensures S.DocumentBefore(nodes[i], nodes[j]) <==> i < j
    {
      if i > j { S.OrderIsStrict(nodes[j], nodes[i]); }
      if i == j && S.DocumentBefore(nodes[i], nodes[i]) { S.OrderIsStrict(nodes[i], nodes[i]); }
    }
  }

  lemma {:induction false} FirstNodes(
      t: Chars, page: Page, r: Recipe, nodes: seq<S.Path>, all: seq<Listing>, l: Listing, i: nat)
    requires i < |nodes| == |all|
    requires forall p :: p in nodes <==> ListingNode(t, page, r, p)
    requires forall k, j :: 0 <= k < |nodes| && 0 <= j < |nodes| ==> (S.DocumentBefore(nodes[k], nodes[j]) <==> k < j)
    requires forall k, m :: 0 <= k < |nodes| ==> (Describes(t, page, r, nodes[k], m) <==> m == all[k])
    ensures FirstAt(all, l, i) <==> FirstDescribed(t, page, r, nodes[i], l)
  {
    hide ListingNode, Describes, S.DocumentBefore;
    if FirstAt(all, l, i) {
      forall q, m | ListingNode(t, page, r, q) && S.DocumentBefore(q, nodes[i]) && Describes(t, page, r, q, m)
        ensures m.url != l.url
      {
        var k :| 0 <= k < |nodes| && nodes[k] == q;
        assert all[k] in all[..i];
      }
      assert nodes[i] in nodes;
    }
    if FirstDescribed(t, page, r, nodes[i], l) {
      forall k | 0 <= k < i
        ensures all[k].url != l.url
      {
        assert nodes[k] in nodes && Describes(t, page, r, nodes[k], all[k]);
      }
    }
  }

  /** An identity text that is not blank, and four selectors. */
  ghost predicate Usable(t: Chars, r: Recipe)
  {
    && !AllChars(r.identityText, t.space)
    && forall selector <- [r.identitySelector, r.listingSelector, r.titleSelector, r.linkSelector] ::
         S.Parse(t, selector).Some?
  }

  lemma {:induction false} UsableIsValid(t: Chars, r: Recipe)
    ensures Usable(t, r) <==> ValidRecipe(t, r)
  {
    hide Trim, S.Parse, AllChars;
    TrimIsEmptyIff(r.identityText, t.space);
    var four := [r.identitySelector, r.listingSelector, r.titleSelector, r.linkSelector];
    assert four[0] in four && four[1] in four && four[2] in four && four[3] in four;
  }

  /** A node shows the identity exactly when, apart from case, some stretch of its text is the recipe's
      identity text without the white space around it. */
  lemma {:induction false} IdentifiesIff(
      t: Chars, page: Page, r: Recipe, node: S.Path, left: string, core: string, right: string)
    requires r.identityText == left + core + right && AllChars(left, t.space) && AllChars(right, t.space)
    requires core == "" || (!t.space(core[0]) && !t.space(core[|core| - 1]))
    ensures Identifies(t, page, r, node) <==>
      exists i: nat, j: nat :: i <= j <= |page.text(node)| && S.Lower(t, page.text(node)[i..j]) == S.Lower(t, core)
  {
    TrimStrips(left, core, right, t.space);
    var text, part := page.text(node), S.Lower(t, core);
    forall i: nat
      ensures OccursAt(S.Lower(t, text), part, i) <==> i + |part| <= |text| && S.Lower(t, text[i..i + |part|]) == part
    {
      LowerOfStretch(t, text, part, i);
    }
    hide OccursAt, S.Lower, Trim, AllChars;
    if i: nat, j: nat :| i <= j <= |text| && S.Lower(t, text[i..j]) == part {
      LowerKeepsLength(t, text[i..j]);
      LowerKeepsLength(t, text);
      assert j == i + |part|;
      assert OccursAt(S.Lower(t, text), part, i);
    }
  }

  lemma {:induction false} LowerKeepsLength(t: Chars, text: string)
    ensures |S.Lower(t, text)| == |text|
  {
  }

  lemma {:induction false} LowerOfStretch(t: Chars, text: string, part: string, i: nat)
    ensures OccursAt(S.Lower(t, text), part, i) <==> i + |part| <= |text| && S.Lower(t, text[i..i + |part|]) == part
  {
    if i + |part| <= |text| {
      assert S.Lower(t, text[i..i + |part|]) == S.Lower(t, text)[i..i + |part|];
    }
  }

  /** A usable recipe succeeds on a page exactly when some node shows the identity text and every
      listing node describes a listing.  It then returns the listings described, of each URL the
      first in document order. */
  lemma {:induction false} RunFindsListings(t: Chars, page: Page, r: Recipe)
    ensures RunOn(t, page, r).Ok? <==>
      && Usable(t, r) && ShowsIdentity(t, page, r)
      && forall node :: ListingNode(t, page, r, node) ==> exists l :: Describes(t, page, r, node, l)
    ensures RunOn(t, page, r).Ok? ==>
      forall l :: l in RunOn(t, page, r).value <==> exists node :: FirstDescribed(t, page, r, node, l)
  {
    var nodes := S.Selection(t, page.doc, [], r.listingSelector);
    UsableIsValid(t, r);
    IdentityShown(t, page, r);
    ListingNodes(t, page, r);
    ExtractedAll(t, page, r, nodes);
    hide S.Selection, Extract, ExtractAll, Describes, ListingNode, ShowsIdentity, ValidRecipe, Usable, FirstByUrl, Identifies;
    forall p, l | p in nodes
      ensures Extract(t, page, r, p) == Some(l) <==> Describes(t, page, r, p, l)
    {
      ExtractDescribes(t, page, r, p, l);
    }
    NodesDescribe(t, page, r, nodes);
    if RunOn(t, page, r).Ok? {
      var all := ExtractAll(t, page, r, nodes).value;
      forall l
        ensures l in FirstByUrl(all) <==> exists node :: FirstDescribed(t, page, r, node, l)
      {
        KeptListing(t, page, r, nodes, all, l);
      }
    }
  }

  lemma {:induction false} IdentityShown(t: Chars, page: Page, r: Recipe)
    ensures ShowsIdentity(t, page, r) <==>
      exists node <- S.Selection(t, page.doc, [], r.identitySelector) :: Identifies(t, page, r, node)
  {
    hide S.Selection, Identifies, S.Parse, S.Matches;
    S.SelectionExact(t, page.doc, [], r.identitySelector);
    if ShowsIdentity(t, page, r) {
      var node :| Below(t, page.doc, [], r.identitySelector, node) && Identifies(t, page, r, node);
      assert node in S.Selection(t, page.doc, [], r.identitySelector);
    }
    if node :| node in S.Selection(t, page.doc, [], r.identitySelector) && Identifies(t, page, r, node) {
      assert Below(t, page.doc, [], r.identitySelector, node);
    }
  }

  lemma {:induction false} NodesDescribe(t: Chars, page: Page, r: Recipe, nodes: seq<S.Path>)
    requires forall p :: p in nodes <==> ListingNode(t, page, r, p)
    requires forall p, l :: p in nodes ==> (Extract(t, page, r, p) == Some(l) <==> Describes(t, page, r, p, l))
    ensures (forall i :: 0 <= i < |nodes| ==> Extract(t, page, r, nodes[i]).Some?) <==>
      forall node :: ListingNode(t, page, r, node) ==> exists l :: Describes(t, page, r, node, l)
  {
    hide Extract, Describes, ListingNode;
    forall p | p in nodes
      ensures Extract(t, page, r, p).Some? <==> exists l :: Describes(t, page, r, p, l)
    {
      if Extract(t, page, r, p).Some? {
        assert Describes(t, page, r, p, Extract(t, page, r, p).value);
      }
    }
    if forall i :: 0 <= i < |nodes| ==> Extract(t, page, r, nodes[i]).Some? {
      forall node | ListingNode(t, page, r, node)
        ensures exists l :: Describes(t, page, r, node, l)
      {
        assert node in nodes;
      }
    }
    if forall node :: ListingNode(t, page, r, node) ==> exists l :: Describes(t, page, r, node, l) {
      forall i | 0 <= i < |nodes|
        ensures Extract(t, page, r, nodes[i]).Some?
      {
        assert nodes[i] in nodes;
      }
    }
  }

  lemma {:induction false} KeptListing(t: Chars, page: Page, r: Recipe, nodes: seq<S.Path>, all: seq<Listing>, l: Listing)
    requires |nodes| == |all|
    requires forall p :: p in nodes <==> ListingNode(t, page, r, p)
    requires forall k, j :: 0 <= k < |nodes| && 0 <= j < |nodes| ==> (S.DocumentBefore(nodes[k], nodes[j]) <==> k < j)
    requires forall p, m :: p in nodes ==> (Extract(t, page, r, p) == Some(m) <==> Describes(t, page, r, p, m))
    requires forall i :: 0 <= i < |nodes| ==> Extract(t, page, r, nodes[i]) == Some(all[i])
    ensures l in FirstByUrl(all) <==> exists node :: FirstDescribed(t, page, r, node, l)
  {
    hide Extract, Describes, ListingNode, FirstByUrl, S.DocumentBefore;
    KeptAreFirst(all, l);
    forall k, m | 0 <= k < |nodes|
      ensures Describes(t, page, r, nodes[k], m) <==> m == all[k]
    {
      assert nodes[k] in nodes;
    }
    if i: nat :| FirstAt(all, l, i) {
      FirstNodes(t, page, r, nodes, all, l, i);
    }
    if node :| FirstDescribed(t, page, r, node, l) {
      assert node in nodes;
      var i: nat :| i < |nodes| && nodes[i] == node;
      FirstNodes(t, page, r, nodes, all, l, i);
    }
  }

  // ----- Running it -----

  method RunRecipe(t: Chars, page: Page, r: Recipe) returns (result: Result<seq<Listing>, Failure>)
    ensures result == RunOn(t, page, r)
    ensures result.Ok? ==> UniqueUrls(result.value)
  {
    if !ValidRecipe(t, r) { return Err(InvalidRecipe); }
    var identified := CheckIdentity(t, page, r);
    if !identified { return Err(IdentityFailed); }
    result := ExtractListings(t, page, r);
  }

  method CheckIdentity(t: Chars, page: Page, r: Recipe) returns (identified: bool)
    ensures identified <==> exists node <- S.Selection(t, page.doc, [], r.identitySelector) :: Identifies(t, page, r, node)
  {
    var identities := S.SelectNodes(t, page.doc, [], r.identitySelector);
    for i := 0 to |identities|
      invariant forall node <- identities[..i] :: !Identifies(t, page, r, node)
    {
      if Identifies(t, page, r, identities[i]) {
        assert identities[i] in identities;
        return true;
      }
      assert identities[..i + 1] == identities[..i] + [identities[i]];
    }
    assert identities[..|identities|] == identities;
    identified := false;
  }

  method ExtractListings(t: Chars, page: Page, r: Recipe) returns (result: Result<seq<Listing>, Failure>)
    ensures var all := ExtractAll(t, page, r, S.Selection(t, page.doc, [], r.listingSelector));
      result == if all.Some? then Ok(FirstByUrl(all.value)) else Err(SchemaFailed)
    ensures result.Ok? ==> UniqueUrls(result.value)
  {
    hide ExtractAll, Extract, FirstByUrl;
    var nodes := S.SelectNodes(t, page.doc, [], r.listingSelector);
    var listings: seq<Listing> := [];
    ghost var all: seq<Listing> := [];
    ExtractAllOfNone(t, page, r);
    for i := 0 to |nodes|
      invariant ExtractAll(t, page, r, nodes[..i]) == Some(all)
      invariant listings == FirstByUrl(all)
    {
      ExtractAllStep(t, page, r, nodes, i);
      assert nodes[i] in nodes;
      var extracted := ExtractOne(t, page, r, nodes[i]);
      if extracted.None? {
        ExtractAllFails(t, page, r, nodes, i + 1);
        return Err(SchemaFailed);
      }
      FirstByUrlStep(all, extracted.value);
      all := all + [extracted.value];
      if !HasUrl(listings, extracted.value.url) {
        listings := listings + [extracted.value];
      }
    }
    assert nodes[..|nodes|] == nodes;
    KeptUrlsDiffer(all);
    result := Ok(listings);
  }

  method ExtractOne(t: Chars, page: Page, r: Recipe, node: S.Path) returns (listing: Option<Listing>)
    requires S.At(page.doc, node).Some?
    ensures listing == Extract(t, page, r, node)
  {
    var titles := S.SelectNodes(t, page.doc, node, r.titleSelector);
    var links := S.SelectNodes(t, page.doc, node, r.linkSelector);
    if |titles| != 1 || |links| != 1 { return None; }
    listing := ListingOf(t, page, titles[0], links[0], node);
  }

  // ----- Versions -----

  datatype Row = Row(version: nat, active: bool, recipe: Recipe, golden: nat)

  function MaxVersion(rows: seq<Row>): nat
  {
    if rows == [] then 0
    else
      var before := MaxVersion(rows[..|rows| - 1]);
      if rows[|rows| - 1].version > before then rows[|rows| - 1].version else before
  }

  function Active(rows: seq<Row>): Option<Row>
  {
    if rows == [] then None
    else if rows[|rows| - 1].active then Some(rows[|rows| - 1])
    else Active(rows[..|rows| - 1])
  }

  function Retired(rows: seq<Row>): (r: seq<Row>)
    ensures |r| == |rows|
  {
    seq(|rows|, i requires 0 <= i < |rows| => rows[i].(active := false))
  }

  function TrimRecipe(t: Chars, r: Recipe): Recipe
  {
    Recipe(Trim(r.identitySelector, t.space), Trim(r.identityText, t.space), Trim(r.listingSelector, t.space),
           Trim(r.titleSelector, t.space), Trim(r.linkSelector, t.space))
  }

  /** Retires the active recipe and inserts the next version as the active one. */
  function Saved(t: Chars, rows: seq<Row>, r: Recipe, golden: nat): seq<Row>
  {
    Retired(rows) + [Row(MaxVersion(rows) + 1, true, TrimRecipe(t, r), golden)]
  }

  predicate Targets(row: Row, version: nat) { row.active && row.version == version }

  function Snapshot(rows: seq<Row>, version: nat, golden: nat): (r: seq<Row>)
    ensures |r| == |rows|
  {
    seq(|rows|, i requires 0 <= i < |rows| => if Targets(rows[i], version) then rows[i].(golden := golden) else rows[i])
  }

  // ----- One scan of a learned source -----

  datatype FetchError = NoPage | LearnerFailed | RecipeRejected(why: Failure) | NothingFound | NotRegistered

  ghost function LearnAndRun(t: Chars, rows: seq<Row>, page: Page, learned: Option<Recipe>, registered: bool)
    : (seq<Row>, Result<seq<Listing>, FetchError>)
  {
    if learned.None? then (rows, Err(LearnerFailed))
    else
      match RunOn(t, page, learned.value)
      case Err(why) => (rows, Err(RecipeRejected(why)))
      case Ok(listings) =>
        if listings == [] then (rows, Err(NothingFound))
        else if !registered then (rows, Err(NotRegistered))
        else (Saved(t, rows, learned.value, |listings|), Ok(listings))
  }

  /** The learner is consulted when there is no recipe, the recipe fails, or a page that used to list
      something lists nothing. */
  ghost predicate NeedsLearner(t: Chars, rows: seq<Row>, page: Page)
  {
    var current := Active(rows);
    current.None?
    || match RunOn(t, page, current.value.recipe)
       case Err(_) => true
       case Ok(listings) => listings == [] && current.value.golden > 0
  }

  ghost function Fetched(t: Chars, rows: seq<Row>, page: Option<Page>, learned: Option<Recipe>, registered: bool)
    : (seq<Row>, Result<seq<Listing>, FetchError>)
  {
    if page.None? then (rows, Err(NoPage))
    else if NeedsLearner(t, rows, page.value) then LearnAndRun(t, rows, page.value, learned, registered)
    else
      var current := Active(rows).value;
      var listings := RunOn(t, page.value, current.recipe).value;
      (Snapshot(rows, current.version, |listings|), Ok(listings))
  }

  /** Versions count up from one, exactly the newest is active, and every recipe found something when
      it was last confirmed. */
  ghost predicate Inv(rows: seq<Row>)
  {
    && (forall i :: 0 <= i < |rows| ==> rows[i].version == i + 1)
    && (forall i :: 0 <= i < |rows| ==> (rows[i].active <==> i == |rows| - 1))
    && (forall i :: 0 <= i < |rows| ==> rows[i].golden >= 1)
  }

  lemma {:induction false} MaxVersionOfCounted(rows: seq<Row>)
    requires forall i :: 0 <= i < |rows| ==> rows[i].version == i + 1
    ensures MaxVersion(rows) == |rows|
  {
    if rows != [] { MaxVersionOfCounted(rows[..|rows| - 1]); }
  }

  lemma {:induction false} ActiveIsNewest(rows: seq<Row>)
    requires Inv(rows)
    ensures Active(rows) == if rows == [] then None else Some(rows[|rows| - 1])
  {
  }

  /** Whatever the page shows and the learner answers, the version history keeps its shape, a failed
      scan changes nothing, and a successful one returns at least one listing with distinct URLs. */
  lemma {:induction false} FetchKeepsRecipes(
      t: Chars, rows: seq<Row>, page: Option<Page>, learned: Option<Recipe>, registered: bool)
    requires Inv(rows)
    ensures var (rows', result) := Fetched(t, rows, page, learned, registered);
      && Inv(rows')
      && (result.Err? ==> rows' == rows)
      && (result.Ok? ==> result.value != [] && UniqueUrls(result.value) && rows' != []
                         && rows'[|rows'| - 1].golden == |result.value|)
  {
    hide RunOn, UniqueUrls, TrimRecipe;
    ActiveIsNewest(rows);
    MaxVersionOfCounted(rows);
    if page.Some? {
      if rows != [] { ResultsAreUnique(t, page.value, rows[|rows| - 1].recipe); }
      if learned.Some? { ResultsAreUnique(t, page.value, learned.value); }
    }
  }

  lemma {:induction false} ResultsAreUnique(t: Chars, page: Page, r: Recipe)
    ensures RunOn(t, page, r).Ok? ==> UniqueUrls(RunOn(t, page, r).value)
  {
    var all := ExtractAll(t, page, r, S.Selection(t, page.doc, [], r.listingSelector));
    if all.Some? { KeptUrlsDiffer(all.value); }
  }

  /** What a recipe lists on a page, nothing when it fails. */
  ghost function FoundBy(t: Chars, page: Page, r: Recipe): seq<Listing>
  {
    match RunOn(t, page, r)
    case Ok(listings) => listings
    case Err(_) => []
  }

  /** A scan returns what the current recipe lists or, when that is nothing, what a learned recipe
      lists, which is then the next version of the current recipe.  It fails exactly when neither
      lists anything or the source is not registered.  Older versions are never touched. */
  lemma {:induction false} ScanOutcome(t: Chars, rows: seq<Row>, page: Page, learned: Option<Recipe>, registered: bool)
    requires Inv(rows)
    ensures var (rows', result) := Fetched(t, rows, Some(page), learned, registered);
      var own := if rows == [] then [] else FoundBy(t, page, rows[|rows| - 1].recipe);
      var other := if learned.None? then [] else FoundBy(t, page, learned.value);
      && (NeedsLearner(t, rows, page) <==> own == [])
      && (result.Ok? <==> own != [] || (other != [] && registered))
      && (result.Ok? ==> result.value == if own != [] then own else other)
      && |rows'| == |rows| + (if result.Ok? && own == [] then 1 else 0)
      && (result.Ok? && own == [] ==> rows'[|rows|].recipe == TrimRecipe(t, learned.value))
      && (forall i :: 0 <= i < |rows| ==> rows'[i].recipe == rows[i].recipe)
      && (forall i :: 0 <= i < |rows| && (i + 1 < |rows| || own == []) ==> rows'[i].golden == rows[i].golden)
  {
    hide RunOn, TrimRecipe, MaxVersion;
    ActiveIsNewest(rows);
  }

  datatype Scan = Scan(page: Option<Page>, learned: Option<Recipe>, registered: bool)

  ghost function Scans(t: Chars, rows: seq<Row>, scans: seq<Scan>): seq<Row>
    decreases |scans|
  {
    if scans == [] then rows
    else Scans(t, Fetched(t, rows, scans[0].page, scans[0].learned, scans[0].registered).0, scans[1..])
  }

  lemma {:induction false} ScansKeepRecipes(t: Chars, rows: seq<Row>, scans: seq<Scan>)
    requires Inv(rows)
    ensures Inv(Scans(t, rows, scans))
    decreases |scans|
  {
    if scans != [] {
      FetchKeepsRecipes(t, rows, scans[0].page, scans[0].learned, scans[0].registered);
      ScansKeepRecipes(t, Fetched(t, rows, scans[0].page, scans[0].learned, scans[0].registered).0, scans[1..]);
    }
  }

  lemma {:induction false} EveryHistoryIsConsistent(t: Chars, scans: seq<Scan>)
    ensures Inv(Scans(t, [], scans))
  {
    ScansKeepRecipes(t, [], scans);
  }

  // ----- A saved recipe runs like the learned one -----

  lemma {:induction false} ParseIgnoresTrim(t: Chars, selector: string)
    ensures S.Parse(t, Trim(selector, t.space)) == S.Parse(t, selector)
  {
    TrimIsIdempotent(selector, t.space);
  }

  lemma {:induction false} TrimmedRunsTheSame(t: Chars, page: Page, r: Recipe)
    ensures RunOn(t, page, TrimRecipe(t, r)) == RunOn(t, page, r)
  {
    var r' := TrimRecipe(t, r);
    TrimIsIdempotent(r.identityText, t.space);
    ParseIgnoresTrim(t, r.identitySelector);
    ParseIgnoresTrim(t, r.listingSelector);
    ParseIgnoresTrim(t, r.titleSelector);
    ParseIgnoresTrim(t, r.linkSelector);
    assert forall node :: Identifies(t, page, r', node) <==> Identifies(t, page, r, node);
    SameExtraction(t, page, r, S.Selection(t, page.doc, [], r.listingSelector));
  }

  lemma {:induction false} SameExtraction(t: Chars, page: Page, r: Recipe, nodes: seq<S.Path>)
    ensures ExtractAll(t, page, TrimRecipe(t, r), nodes) == ExtractAll(t, page, r, nodes)
  {
    if nodes != [] {
      var node := nodes[|nodes| - 1];
      ParseIgnoresTrim(t, r.titleSelector);
      ParseIgnoresTrim(t, r.linkSelector);
      SameExtraction(t, page, r, nodes[..|nodes| - 1]);
    }
  }

  /** Once a scan has succeeded, scanning the same page again succeeds with the same listings and
      the same recipe, without consulting the learner. */
  lemma {:induction false} SuccessIsRepeatable(
      t: Chars, rows: seq<Row>, page: Page, learned: Option<Recipe>, registered: bool, later: Option<Recipe>, still: bool)
    requires Inv(rows) && Fetched(t, rows, Some(page), learned, registered).1.Ok?
    ensures var (rows', result) := Fetched(t, rows, Some(page), learned, registered);
      !NeedsLearner(t, rows', page) && Fetched(t, rows', Some(page), later, still) == (rows', result)
  {
    hide RunOn, UniqueUrls, TrimRecipe, MaxVersion;
    var (rows', result) := Fetched(t, rows, Some(page), learned, registered);
    FetchKeepsRecipes(t, rows, Some(page), learned, registered);
    ActiveIsNewest(rows);
    if NeedsLearner(t, rows, page) {
      TrimmedRunsTheSame(t, page, learned.value);
    }
    SettledScan(t, rows', page, result.value, later, still);
  }

  lemma {:induction false} SettledScan(
      t: Chars, rows: seq<Row>, page: Page, listings: seq<Listing>, learned: Option<Recipe>, registered: bool)
    requires Inv(rows) && rows != [] && listings != []
    requires var newest := rows[|rows| - 1]; newest.golden == |listings| && RunOn(t, page, newest.recipe) == Ok(listings)
    ensures !NeedsLearner(t, rows, page) && Fetched(t, rows, Some(page), learned, registered) == (rows, Ok(listings))
  {
    ActiveIsNewest(rows);
    assert Snapshot(rows, rows[|rows| - 1].version, |listings|) == rows;
  }

  // ----- The source and its store -----

  /** A learned source together with its rows of source_extraction_recipes. */
  class LearnedSource {
    const t: Chars
    var rows: seq<Row>

    constructor (t: Chars)
      ensures this.t == t && rows == []
    {
      this.t := t;
      rows := [];
    }

    method SaveSourceRecipe(r: Recipe, golden: nat, registered: bool) returns (ok: bool)
      modifies this`rows
      ensures ok <==> registered
      ensures rows == if ok then Saved(t, old(rows), r, golden) else old(rows)
    {
      ok := registered;
      if ok {
        var version := MaxVersion(rows) + 1;
        rows := Retired(rows);
        rows := rows + [Row(version, true, TrimRecipe(t, r), golden)];
      }
    }

    method UpdateSnapshot(version: nat, golden: nat) returns (ok: bool)
      requires Inv(rows)
      modifies this`rows
      ensures ok <==> old(rows) != [] && version == |old(rows)|
      ensures rows == if ok then Snapshot(old(rows), version, golden) else old(rows)
    {
      assert rows != [] ==> rows[|rows| - 1] in rows;
      ok := exists row <- rows :: Targets(row, version);
      if ok { rows := Snapshot(rows, version, golden); }
    }

    /** One scan; the flag tells whether the learner was asked. */
    method FetchListings(page: Option<Page>, learned: Option<Recipe>, registered: bool)
      returns (asked: bool, r: Result<seq<Listing>, FetchError>)
      requires Inv(rows)
      modifies this`rows
      ensures (rows, r) == Fetched(t, old(rows), page, learned, registered)
      ensures Inv(rows)
      ensures asked <==> page.Some? && NeedsLearner(t, old(rows), page.value)
    {
      FetchKeepsRecipes(t, rows, page, learned, registered);
      asked := false;
      if page.None? { return false, Err(NoPage); }
      var current := Active(rows);
      if current.Some? {
        var result := RunRecipe(t, page.value, current.value.recipe);
        if result.Ok? && !(|result.value| == 0 && current.value.golden > 0) {
          ActiveIsNewest(rows);
          var ok := UpdateSnapshot(current.value.version, |result.value|);
          return false, Ok(result.value);
        }
      }
      asked := true;
      r := LearnThenRun(page.value, learned, registered);
    }

    method LearnThenRun(page: Page, learned: Option<Recipe>, registered: bool) returns (r: Result<seq<Listing>, FetchError>)
      modifies this`rows
      ensures (rows, r) == LearnAndRun(t, old(rows), page, learned, registered)
    {
      if learned.None? { return Err(LearnerFailed); }
      var result := RunRecipe(t, page, learned.value);
      if result.Err? { return Err(RecipeRejected(result.error)); }
      if |result.value| == 0 { return Err(NothingFound); }
      var ok := SaveSourceRecipe(learned.value, |result.value|, registered);
      r := if ok then Ok(result.value) else Err(NotRegistered);
    }
  }
}
