/** Opportunity matching: title and location normalisation, similarity and the merge decision
    (internal/opportunity/matcher.go). */
module Matcher {
  import opened Text
  import EditDistance

  const AUTO_MERGE_THRESHOLD: real := 0.92
  const AMBIGUOUS_THRESHOLD: real := 0.80

  datatype Outcome = AutoMerge | Ambiguous | Separate

  datatype LocationRelation = Compatible | Incomplete | Conflict | Absent

  datatype Identity = Identity(title: string, location: string)

  datatype Decision = Decision(outcome: Outcome, score: real, reason: string,
                               normalizedTitle: string, normalizedLocation: string)

  // ----- Normalisation -----

  /** The replacer applied after lower-casing. */
  function AsciiFold(c: char): char
  {
    match c
    case 'ı' => 'i'  case 'İ' => 'i'
    case 'ş' => 's'  case 'Ş' => 's'
    case 'ğ' => 'g'  case 'Ğ' => 'g'
    case 'ü' => 'u'  case 'Ü' => 'u'
    case 'ö' => 'o'  case 'Ö' => 'o'
    case 'ç' => 'c'  case 'Ç' => 'c'
    case _ => c
  }

  function FoldText(t: Chars, s: string): (r: string)
    ensures |r| == |s|
  {
    seq(|s|, i requires 0 <= i < |s| => AsciiFold(t.lower(s[i])))
  }

  const INTERNSHIP_WORDS := {"stajyeri", "stajyer", "staji", "intern", "internship"}
  const COUNTRY_WORDS := {"turkey", "turkiye", "turkiye'", "tr"}

  function UnifyWord(token: string): string
  {
    if token in INTERNSHIP_WORDS then "staj" else token
  }

  function Tokens(t: Chars, value: string): seq<string>
  {
    Fields(FoldText(t, Trim(value, t.space)), t.word)
  }

  function Unified(tokens: seq<string>): seq<string>
  {
    seq(|tokens|, i requires 0 <= i < |tokens| => UnifyWord(tokens[i]))
  }

  function WithoutCountry(tokens: seq<string>): seq<string>
  {
    if tokens == [] then []
    else
      var last := tokens[|tokens| - 1];
      WithoutCountry(tokens[..|tokens| - 1]) + if last in COUNTRY_WORDS then [] else [last]
  }

  function NormalizeTitle(t: Chars, value: string): string
  {
    JoinWords(Unified(Tokens(t, value)))
  }

  function NormalizeLocation(t: Chars, value: string): string
  {
    JoinWords(Sorted(WithoutCountry(Tokens(t, value))))
  }

  /** Byte order of strings, as sort.Strings uses it. */
  predicate TextLeq(a: string, b: string)
  {
    a == "" || (b != "" && (a[0] < b[0] || (a[0] == b[0] && TextLeq(a[1..], b[1..]))))
  }

  function Insert(x: string, s: seq<string>): seq<string>
  {
    if s == [] || TextLeq(x, s[0]) then [x] + s else [s[0]] + Insert(x, s[1..])
  }

  function Sorted(s: seq<string>): seq<string>
  {
    if s == [] then [] else Insert(s[0], Sorted(s[1..]))
  }

  /** The switch that rewrites the token slice in place when a title is normalised. */
  method UnifyTokens(tokens: array<string>)
    modifies tokens
    ensures tokens[..] == Unified(old(tokens[..]))
  {
    for index := 0 to tokens.Length
      invariant forall i :: 0 <= i < index ==> tokens[i] == UnifyWord(old(tokens[i]))
      invariant forall i :: index <= i < tokens.Length ==> tokens[i] == old(tokens[i])
    {
      if tokens[index] in INTERNSHIP_WORDS {
        tokens[index] := "staj";
      }
    }
  }

  /** The compaction that keeps the non-country tokens at the front of the same slice. */
  method DropCountry(tokens: array<string>) returns (kept: nat)
    modifies tokens
    ensures kept <= tokens.Length
    ensures tokens[..kept] == WithoutCountry(old(tokens[..]))
  {
    kept := 0;
    ghost var before := tokens[..];
    for index := 0 to tokens.Length
      invariant kept <= index
      invariant tokens[..kept] == WithoutCountry(before[..index])
      invariant tokens[index..] == before[index..]
    {
      var token := tokens[index];
      assert before[..index + 1][..index] == before[..index];
      assert token == tokens[index..][0] == before[index..][0] == before[index];
      assert tokens[index + 1..] == tokens[index..][1..] == before[index + 1..];
      if token !in COUNTRY_WORDS {
        tokens[kept] := token;
        kept := kept + 1;
      }
    }
    assert before[..tokens.Length] == before;
  }

  // ----- Normal forms -----

  predicate Plain(t: Chars, s: string)
  {
    forall i :: 0 <= i < |s| ==> AsciiFold(t.lower(s[i])) == s[i]
  }

  ghost predicate WordList(t: Chars, words: seq<string>)
  {
    forall i :: 0 <= i < |words| ==> words[i] != "" && AllChars(words[i], t.word) && Plain(t, words[i])
  }

  lemma {:induction false} FoldIsPlain(t: Chars, s: string)
    ensures Plain(t, FoldText(t, s))
  {
  }

  lemma {:induction false} FieldsOfPlain(t: Chars, s: string)
    requires Plain(t, s)
    ensures WordList(t, Fields(s, t.word))
    decreases |s|
  {
    if s != "" {
      if t.word(s[0]) {
        FieldsOfPlain(t, s[Run(s, t.word)..]);
      } else {
        FieldsOfPlain(t, s[1..]);
      }
    }
  }

  lemma {:induction false} TokensAreWords(t: Chars, value: string)
    ensures WordList(t, Tokens(t, value))
  {
    FoldIsPlain(t, Trim(value, t.space));
    FieldsOfPlain(t, FoldText(t, Trim(value, t.space)));
  }

  lemma {:induction false} JoinIsPlain(t: Chars, words: seq<string>)
    requires WordList(t, words)
    ensures Plain(t, JoinWords(words))
  {
    if |words| > 1 {
      JoinIsPlain(t, words[1..]);
    }
  }

  /** Tokenising a joined word list gives the same words: a stored normal form reads back as itself. */
  lemma {:induction false} TokensOfJoin(t: Chars, words: seq<string>)
    requires WordList(t, words)
    ensures Tokens(t, JoinWords(words)) == words
    ensures Fields(JoinWords(words), c => !t.space(c)) == words
  {
    var s := JoinWords(words);
    JoinIsPlain(t, words);
    if words != [] {
      JoinEnds(words, t.word);
    }
    assert Trim(s, t.space) == s;
    assert FoldText(t, s) == s;
    FieldsOfJoin(words, t.word);
    FieldsOfJoin(words, c => !t.space(c));
  }

  lemma {:induction false} StajIsWord(t: Chars)
    ensures AllChars("staj", t.word) && Plain(t, "staj")
  {
  }

  lemma {:induction false} UnifiedAreWords(t: Chars, tokens: seq<string>)
    requires WordList(t, tokens)
    ensures WordList(t, Unified(tokens))
    ensures Unified(Unified(tokens)) == Unified(tokens)
  {
    StajIsWord(t);
  }

  // ----- Sorting gives a canonical word order -----

  lemma {:induction false} TextLeqTotal(a: string, b: string)
    ensures TextLeq(a, b) || TextLeq(b, a)
    ensures TextLeq(a, b) && TextLeq(b, a) ==> a == b
  {
    if a != "" && b != "" {
      TextLeqTotal(a[1..], b[1..]);
      assert a == [a[0]] + a[1..] && b == [b[0]] + b[1..];
    }
  }

  lemma {:induction false} TextLeqTransitive(a: string, b: string, c: string)
    requires TextLeq(a, b) && TextLeq(b, c)
    ensures TextLeq(a, c)
  {
    if a != "" && a[0] == b[0] && b[0] == c[0] {
      TextLeqTransitive(a[1..], b[1..], c[1..]);
    }
  }

  lemma {:induction false} InsertCommutes(x: string, y: string, s: seq<string>)
    ensures Insert(x, Insert(y, s)) == Insert(y, Insert(x, s))
  {
    TextLeqTotal(x, y);
    if s != [] {
      var h := s[0];
      TextLeqTotal(x, h);
      TextLeqTotal(y, h);
      if TextLeq(y, x) && TextLeq(x, h) { TextLeqTransitive(y, x, h); }
      if TextLeq(x, y) && TextLeq(y, h) { TextLeqTransitive(x, y, h); }
      InsertCommutes(x, y, s[1..]);
    }
  }

  lemma {:induction false} InsertMultiset(x: string, s: seq<string>)
    ensures multiset(Insert(x, s)) == multiset(s) + multiset{x}
  {
    if s != [] {
      InsertMultiset(x, s[1..]);
      assert s == [s[0]] + s[1..];
    }
  }

  lemma {:induction false} SortedMultiset(s: seq<string>)
    ensures multiset(Sorted(s)) == multiset(s)
  {
    if s != [] {
      SortedMultiset(s[1..]);
      InsertMultiset(s[0], Sorted(s[1..]));
      assert s == [s[0]] + s[1..];
    }
  }

  lemma {:induction false} SortedPullsOut(s: seq<string>, k: nat)
    requires k < |s|
    ensures Sorted(s) == Insert(s[k], Sorted(s[..k] + s[k + 1..]))
  {
    if k == 0 {
      assert s[..0] + s[1..] == s[1..];
    } else {
      SortedPullsOut(s[1..], k - 1);
      var rest := s[1..][..k - 1] + s[1..][k..];
      var without := s[..k] + s[k + 1..];
      assert without[0] == s[0] && without[1..] == rest;
      InsertCommutes(s[0], s[k], Sorted(rest));
    }
  }

  /** Two arrangements of the same words sort to the same sequence. */
  lemma {:induction false} SortIsCanonical(a: seq<string>, b: seq<string>)
    requires multiset(a) == multiset(b)
    ensures Sorted(a) == Sorted(b)
    decreases |a|
  {
    if a == [] {
      assert |multiset(b)| == 0;
    } else {
      assert a[0] in multiset(b);
      var k :| 0 <= k < |b| && b[k] == a[0];
      var rest := b[..k] + b[k + 1..];
      assert b == b[..k] + [b[k]] + b[k + 1..];
      assert a == [a[0]] + a[1..];
      assert multiset(rest) == multiset(b) - multiset{a[0]};
      SortIsCanonical(a[1..], rest);
      SortedPullsOut(b, k);
    }
  }

  lemma {:induction false} CountryFilter(s: seq<string>, w: string)
    ensures multiset(WithoutCountry(s))[w] == if w in COUNTRY_WORDS then 0 else multiset(s)[w]
  {
    if s != [] {
      CountryFilter(s[..|s| - 1], w);
      assert s == s[..|s| - 1] + [s[|s| - 1]];
    }
  }

  lemma {:induction false} NothingToDrop(s: seq<string>)
    requires forall i :: 0 <= i < |s| ==> s[i] !in COUNTRY_WORDS
    ensures WithoutCountry(s) == s
  {
    if s != [] {
      NothingToDrop(s[..|s| - 1]);
    }
  }

  /** Only the words of a location matter, not their order. */
  lemma {:induction false} LocationIgnoresWordOrder(t: Chars, a: string, b: string)
    requires multiset(Tokens(t, a)) == multiset(Tokens(t, b))
    ensures NormalizeLocation(t, a) == NormalizeLocation(t, b)
  {
    var x, y := WithoutCountry(Tokens(t, a)), WithoutCountry(Tokens(t, b));
    forall w
      ensures multiset(x)[w] == multiset(y)[w]
    {
      CountryFilter(Tokens(t, a), w);
      CountryFilter(Tokens(t, b), w);
    }
    SortIsCanonical(x, y);
  }

  lemma {:induction false} LocationWords(t: Chars, value: string) returns (words: seq<string>)
    ensures NormalizeLocation(t, value) == JoinWords(words) && words == Sorted(WithoutCountry(Tokens(t, value)))
    ensures WordList(t, words) && Sorted(WithoutCountry(words)) == words
  {
    var tokens := Tokens(t, value);
    var kept := WithoutCountry(tokens);
    words := Sorted(kept);
    TokensAreWords(t, value);
    SortedMultiset(kept);
    forall i | 0 <= i < |words|
      ensures words[i] in tokens && words[i] !in COUNTRY_WORDS
    {
      assert words[i] in multiset(words);
      CountryFilter(tokens, words[i]);
    }
    NothingToDrop(words);
    SortIsCanonical(words, kept);
  }

  /** A normalised title or location is its own normal form, so the values stored on an
      opportunity compare like the listing they came from. */
  lemma {:induction false} NormalFormsAreStable(t: Chars, value: string)
    ensures NormalizeTitle(t, NormalizeTitle(t, value)) == NormalizeTitle(t, value)
    ensures NormalizeLocation(t, NormalizeLocation(t, value)) == NormalizeLocation(t, value)
  {
    TokensAreWords(t, value);
    UnifiedAreWords(t, Tokens(t, value));
    TokensOfJoin(t, Unified(Tokens(t, value)));
    var words := LocationWords(t, value);
    TokensOfJoin(t, words);
  }

  // ----- Similarity -----

  /** strings.Fields. */
  function SpaceFields(t: Chars, value: string): seq<string>
  {
    Fields(value, c => !t.space(c))
  }

  function TokenSet(t: Chars, value: string): set<string>
  {
    set w | w in SpaceFields(t, value)
  }

  lemma {:induction false} TitleHasTokens(t: Chars, value: string)
    ensures NormalizeTitle(t, value) != "" ==> TokenSet(t, NormalizeTitle(t, value)) != {}
  {
    var words := Unified(Tokens(t, value));
    TokensAreWords(t, value);
    UnifiedAreWords(t, Tokens(t, value));
    TokensOfJoin(t, words);
    if words != [] {
      assert words[0] in TokenSet(t, NormalizeTitle(t, value));
    }
  }

  /** Twice the shared tokens over all tokens.  The division is defined: a non-empty normalised
      title always has a token (TitleHasTokens). */
  function TokenDice(left: set<string>, right: set<string>): (r: real)
    requires left != {} || right != {}
    ensures 0.0 <= r <= 1.0
  {
    var shared := left * right;
    assert |shared| <= |left| && |shared| <= |right| && |left| + |right| > 0 by {
      SubsetSize(shared, left);
      SubsetSize(shared, right);
    }
    RatioInUnit(2 * |shared|, |left| + |right|);
    2.0 * (|shared| as real) / ((|left| + |right|) as real)
  }

  lemma {:induction false} SubsetSize(a: set<string>, b: set<string>)
    requires a <= b
    ensures |a| <= |b|
  {
    assert b == a + (b - a);
  }

  lemma {:induction false} RatioInUnit(n: nat, m: nat)
    requires n <= m && m > 0
    ensures 0.0 <= (n as real) / (m as real) <= 1.0
  {
  }

  /** The counting loop over the left token set. */
  method CountShared(left: set<string>, right: set<string>) returns (intersection: nat)
    ensures intersection == |left * right|
  {
    intersection := 0;
    var rest := left;
    while rest != {}
      invariant rest <= left
      invariant intersection == |(left - rest) * right|
      decreases |rest|
    {
      var token :| token in rest;
      ghost var seen := (left - rest) * right;
      if token in right {
        intersection := intersection + 1;
        assert (left - (rest - {token})) * right == seen + {token};
      } else {
        assert (left - (rest - {token})) * right == seen;
      }
      rest := rest - {token};
    }
    assert left - {} == left;
  }

  function CharacterSimilarity(left: string, right: string): (r: real)
    ensures 0.0 <= r <= 1.0
  {
    var maximum := EditDistance.Max(|left|, |right|);
    if maximum == 0 then 1.0
    else
      EditDistance.LengthBounds(left, right);
      RatioInUnit(EditDistance.Distance(left, right), maximum);
      1.0 - (EditDistance.Distance(left, right) as real) / (maximum as real)
  }

  lemma {:induction false} Quotient(x: real, y: real)
    requires y > 0.0
    ensures x / y * y == x
  {
  }

  lemma {:induction false} SplitSize(a: set<string>, b: set<string>)
    ensures |a| == |a * b| + |a - b|
  {
    assert a == a * b + (a - b);
  }

  /** The overlap makes up, of all the tokens of both sides, those that are not on one side only. */
  lemma {:induction false} OverlapIsWhatIsShared(left: set<string>, right: set<string>)
    requires left != {} || right != {}
    ensures var all := (|left| + |right|) as real;
      TokenDice(left, right) * all + (|left - right| + |right - left|) as real == all
  {
    SplitSize(left, right);
    SplitSize(right, left);
    assert left * right == right * left;
    assert |left| + |right| > 0 by { if |left| == 0 { assert left == {}; } if |right| == 0 { assert right == {}; } }
    Quotient(2.0 * (|left * right| as real), (|left| + |right|) as real);
  }

  /** It is whole exactly when the sides have the same tokens, and nothing exactly when they share none. */
  lemma {:induction false} OverlapExtremes(left: set<string>, right: set<string>)
    requires left != {} || right != {}
    ensures TokenDice(left, right) == 1.0 <==> left == right
    ensures TokenDice(left, right) == 0.0 <==> left * right == {}
  {
    hide TokenDice;
    var dice, all := TokenDice(left, right), (|left| + |right|) as real;
    OverlapIsWhatIsShared(left, right);
    SplitSize(left, right);
    SplitSize(right, left);
    assert left * right == right * left;
    assert |left| + |right| > 0 by { if |left| == 0 { assert left == {}; } if |right| == 0 { assert right == {}; } }
    if left == right { assert left - right == {} && right - left == {}; WholeProduct(dice, all); }
    if dice == 1.0 {
      assert left - right == {} && right - left == {};
      assert left == right;
    }
    if left * right == {} { NoProduct(dice, all); }
    if dice == 0.0 { assert |left * right| == 0; }
  }

  lemma {:induction false} WholeProduct(x: real, y: real)
    requires y > 0.0 && x * y == y
    ensures x == 1.0
  {
  }

  lemma {:induction false} NoProduct(x: real, y: real)
    requires y > 0.0 && x * y == 0.0
    ensures x == 0.0
  {
  }

  /** The similarity by characters and the edit distance make up the longer length. */
  lemma {:induction false} CharactersAndEdits(left: string, right: string)
    ensures var longer := EditDistance.Max(|left|, |right|) as real;
      CharacterSimilarity(left, right) * longer + EditDistance.Distance(left, right) as real == longer
  {
    EditDistance.LengthBounds(left, right);
    hide EditDistance.Distance;
    var longer := EditDistance.Max(|left|, |right|);
    if longer > 0 { Quotient(EditDistance.Distance(left, right) as real, longer as real); }
  }

  function TitleSimilarity(t: Chars, left: string, right: string): (r: real)
    requires left != "" ==> TokenSet(t, left) != {}
    ensures 0.0 <= r <= 1.0
  {
    if left == "" || right == "" then 0.0
    else if left == right then 1.0
    else
      var c := CharacterSimilarity(left, right);
      var d := TokenDice(TokenSet(t, left), TokenSet(t, right));
      if c >= d then c else d
  }

  function CompareLocations(t: Chars, left: string, right: string): (LocationRelation, string)
  {
    var l, r := NormalizeLocation(t, left), NormalizeLocation(t, right);
    if l == "" && r == "" then (Absent, "")
    else if l == "" || r == "" then (Incomplete, if l != "" then l else r)
    else if l == r then (Compatible, l)
    else (Conflict, l)
  }

  function Classify(score: real, exact: bool, location: LocationRelation): (Outcome, string)
  {
    if location == Conflict then (Separate, "location_conflict")
    else if exact then
      match location
      case Compatible => (AutoMerge, "exact_title_location_match")
      case Absent => (AutoMerge, "exact_title_locations_absent")
      case _ => (Ambiguous, "location_missing")
    else if score >= AUTO_MERGE_THRESHOLD then
      if location == Compatible then (AutoMerge, "fuzzy_title_location_match") else (Ambiguous, "location_missing")
    else if score >= AMBIGUOUS_THRESHOLD then (Ambiguous, "title_similarity_uncertain")
    else (Separate, "title_similarity_low")
  }

  function Evaluate(t: Chars, incoming: Identity, existing: Identity): (d: Decision)
    ensures 0.0 <= d.score <= 1.0
  {
    var incomingTitle := NormalizeTitle(t, incoming.title);
    var existingTitle := NormalizeTitle(t, existing.title);
    TitleHasTokens(t, incoming.title);
    var exact := incomingTitle != "" && incomingTitle == existingTitle;
    var score := TitleSimilarity(t, incomingTitle, existingTitle);
    var (relation, location) := CompareLocations(t, incoming.location, existing.location);
    var (outcome, reason) := Classify(score, exact, relation);
    Decision(outcome, score, reason, incomingTitle, location)
  }

  // ----- Laws of the decision -----

  lemma {:induction false} SimilarityIsSymmetric(t: Chars, a: string, b: string)
    requires a != "" ==> TokenSet(t, a) != {}
    requires b != "" ==> TokenSet(t, b) != {}
    ensures TitleSimilarity(t, a, b) == TitleSimilarity(t, b, a)
  {
    EditDistance.Symmetric(a, b);
    assert TokenSet(t, a) * TokenSet(t, b) == TokenSet(t, b) * TokenSet(t, a);
  }

  lemma {:induction false} LocationsAreSymmetric(t: Chars, a: string, b: string)
    ensures CompareLocations(t, a, b).0 == CompareLocations(t, b, a).0
  {
  }

  /** Swapping the two sides changes neither the outcome nor the score nor the reason. */
  lemma {:induction false} EvaluateIsSymmetric(t: Chars, a: Identity, b: Identity)
    ensures Evaluate(t, a, b).outcome == Evaluate(t, b, a).outcome
    ensures Evaluate(t, a, b).score == Evaluate(t, b, a).score
    ensures Evaluate(t, a, b).reason == Evaluate(t, b, a).reason
  {
    hide NormalizeTitle, TitleSimilarity, CompareLocations;
    TitleHasTokens(t, a.title);
    TitleHasTokens(t, b.title);
    SimilarityIsSymmetric(t, NormalizeTitle(t, a.title), NormalizeTitle(t, b.title));
    LocationsAreSymmetric(t, a.location, b.location);
  }

  /** Titles that are both a fuzzy merge away from a third stay above the ambiguity threshold, in
      fact above 19/23. */
  lemma {:induction false} SimilarityThroughCommonTitle(a: string, b: string, c: string)
    requires CharacterSimilarity(a, b) >= AUTO_MERGE_THRESHOLD
    requires CharacterSimilarity(b, c) >= AUTO_MERGE_THRESHOLD
    ensures CharacterSimilarity(a, c) >= 19.0 / 23.0 > AMBIGUOUS_THRESHOLD
  {
    EditDistance.Triangle(a, b, c);
    EditDistance.LengthBounds(a, b);
    EditDistance.LengthBounds(b, c);
    var ab, bc, ac := EditDistance.Distance(a, b), EditDistance.Distance(b, c), EditDistance.Distance(a, c);
    var mab, mbc, mac := EditDistance.Max(|a|, |b|), EditDistance.Max(|b|, |c|), EditDistance.Max(|a|, |c|);
    if mab > 0 { RatioBounds(ab, mab); }
    if mbc > 0 { RatioBounds(bc, mbc); }
    if mac > 0 { RatioBounds(ac, mac); }
  }

  lemma QuotientOrder(x: real, y: real, bound: real)
    requires y > 0.0
    ensures x / y <= bound <==> x <= bound * y
  {
    var q := x / y;
    assert q * y == x;
    if q <= bound { assert q * y <= bound * y; } else { assert q * y > bound * y; }
  }

  lemma RatioBounds(d: nat, m: nat)
    requires m > 0
    ensures 1.0 - (d as real) / (m as real) >= AUTO_MERGE_THRESHOLD <==> 25 * d <= 2 * m
    ensures 1.0 - (d as real) / (m as real) >= 19.0 / 23.0 <==> 23 * d <= 4 * m
  {
    QuotientOrder(d as real, m as real, 0.08);
    QuotientOrder(d as real, m as real, 4.0 / 23.0);
    assert (25 * d) as real == 25.0 * (d as real) && (2 * m) as real == 2.0 * (m as real);
    assert (23 * d) as real == 23.0 * (d as real) && (4 * m) as real == 4.0 * (m as real);
  }

  /** Two listings fuzzily merged by edit distance with one title are never told apart by title. */
  lemma {:induction false} CommonTitleNeverSeparates(t: Chars, a: Identity, b: Identity, c: Identity)
    requires NormalizeTitle(t, a.title) != "" && NormalizeTitle(t, c.title) != ""
    requires CharacterSimilarity(NormalizeTitle(t, a.title), NormalizeTitle(t, b.title)) >= AUTO_MERGE_THRESHOLD
    requires CharacterSimilarity(NormalizeTitle(t, b.title), NormalizeTitle(t, c.title)) >= AUTO_MERGE_THRESHOLD
    ensures Evaluate(t, a, c).outcome == Separate <==> CompareLocations(t, a.location, c.location).0 == Conflict
  {
    hide NormalizeTitle, CharacterSimilarity, CompareLocations, TokenDice;
    SimilarityThroughCommonTitle(NormalizeTitle(t, a.title), NormalizeTitle(t, b.title), NormalizeTitle(t, c.title));
    TitleHasTokens(t, a.title);
  }

  /** The stored normal form of an identity. */
  function Normal(t: Chars, identity: Identity): Identity
  {
    Identity(NormalizeTitle(t, identity.title), NormalizeLocation(t, identity.location))
  }

  /** Comparing against stored normal forms is comparing against the listings themselves. */
  lemma {:induction false} EvaluateOnNormalForms(t: Chars, a: Identity, b: Identity)
    ensures Evaluate(t, a, Normal(t, b)) == Evaluate(t, a, b)
    ensures Evaluate(t, Normal(t, a), b) == Evaluate(t, a, b)
  {
    NormalFormsAreStable(t, a.title);
    NormalFormsAreStable(t, a.location);
    NormalFormsAreStable(t, b.title);
    NormalFormsAreStable(t, b.location);
  }

  /** An automatic merge needs equal locations and either the same non-empty title, or a known
      location and a title score at the merge threshold.  Two identities are told apart exactly
      when both locations are known and differ, or the titles are not the same and score below
      the ambiguity threshold. */
  lemma {:induction false} OutcomeIff(t: Chars, a: Identity, b: Identity)
    ensures var (x, y) := (Normal(t, a), Normal(t, b));
      var sameTitle := x.title != "" && x.title == y.title;
      var d := Evaluate(t, a, b);
      && (d.outcome == AutoMerge <==>
           x.location == y.location && (sameTitle || (x.location != "" && d.score >= AUTO_MERGE_THRESHOLD)))
      && (d.outcome == Separate <==>
           (x.location != "" && y.location != "" && x.location != y.location)
           || (!sameTitle && d.score < AMBIGUOUS_THRESHOLD))
  {
    TitleHasTokens(t, a.title);
  }

  // ----- What the score is -----

  /** The tokens of a title, with every internship word read as one. */
  function Words(t: Chars, title: string): set<string>
  {
    set w | w in Unified(Tokens(t, title))
  }

  lemma {:induction false} NormalTitleHasWords(t: Chars, title: string)
    ensures TokenSet(t, NormalizeTitle(t, title)) == Words(t, title)
    ensures NormalizeTitle(t, title) == "" <==> Words(t, title) == {}
  {
    var words := Unified(Tokens(t, title));
    TokensAreWords(t, title);
    UnifiedAreWords(t, Tokens(t, title));
    TokensOfJoin(t, words);
    if words != [] {
      assert words[0] in Words(t, title) && words[0] != "";
      JoinEnds(words, t.word);
    }
  }

  /** The score of two different titles with words is the larger of the two measures: each of them is
      reached and one is met. */
  lemma {:induction false} ScoreIsTheBetterMeasure(t: Chars, a: Identity, b: Identity)
    requires Words(t, a.title) != {} && Words(t, b.title) != {} && NormalizeTitle(t, a.title) != NormalizeTitle(t, b.title)
    ensures var (score, c, d) := (Evaluate(t, a, b).score,
                                  CharacterSimilarity(NormalizeTitle(t, a.title), NormalizeTitle(t, b.title)),
                                  TokenDice(Words(t, a.title), Words(t, b.title)));
      score >= c && score >= d && (score == c || score == d)
  {
    hide TokenDice, CharacterSimilarity, NormalizeTitle, Words, TokenSet, CompareLocations;
    NormalTitleHasWords(t, a.title);
    NormalTitleHasWords(t, b.title);
  }

  /** Equal titles with words score one, and a title without words scores nothing. */
  lemma {:induction false} ScoreExtremes(t: Chars, a: Identity, b: Identity)
    ensures Words(t, a.title) != {} && NormalizeTitle(t, a.title) == NormalizeTitle(t, b.title) ==> Evaluate(t, a, b).score == 1.0
    ensures Words(t, a.title) == {} || Words(t, b.title) == {} ==> Evaluate(t, a, b).score == 0.0
  {
    hide TokenDice, CharacterSimilarity, NormalizeTitle, Words, TokenSet, CompareLocations;
    NormalTitleHasWords(t, a.title);
    NormalTitleHasWords(t, b.title);
  }

  /** Two titles of the same words, in any order and number, merge at one known place. */
  lemma {:induction false} SameWordsMerge(t: Chars, a: Identity, b: Identity)
    requires Words(t, a.title) == Words(t, b.title) != {}
    requires NormalizeLocation(t, a.location) == NormalizeLocation(t, b.location) != ""
    ensures Evaluate(t, a, b).outcome == AutoMerge
  {
    hide TokenDice, CharacterSimilarity, NormalizeTitle, NormalizeLocation, Words, Evaluate;
    NormalTitleHasWords(t, a.title);
    OutcomeIff(t, a, b);
    if NormalizeTitle(t, a.title) != NormalizeTitle(t, b.title) {
      ScoreIsTheBetterMeasure(t, a, b);
      OverlapExtremes(Words(t, a.title), Words(t, b.title));
    }
  }

  // ----- What normal forms distinguish -----

  /** The same word, or two words for an internship. */
  predicate SameWord(a: string, b: string)
  {
    a == b || (a in INTERNSHIP_WORDS + {"staj"} && b in INTERNSHIP_WORDS + {"staj"})
  }

  ghost predicate SameWords(a: seq<string>, b: seq<string>)
  {
    |a| == |b| && forall i :: 0 <= i < |a| ==> SameWord(a[i], b[i])
  }

  /** Titles have one normal form exactly when they agree word by word, all words for an internship
      being one. */
  lemma {:induction false} SameNormalTitleIff(t: Chars, a: string, b: string)
    ensures NormalizeTitle(t, a) == NormalizeTitle(t, b) <==> SameWords(Tokens(t, a), Tokens(t, b))
  {
    TokensAreWords(t, a);
    TokensAreWords(t, b);
    var x, y := Unified(Tokens(t, a)), Unified(Tokens(t, b));
    UnifiedAreWords(t, Tokens(t, a));
    UnifiedAreWords(t, Tokens(t, b));
    TokensOfJoin(t, x);
    TokensOfJoin(t, y);
    SameUnifiedIff(Tokens(t, a), Tokens(t, b));
  }

  lemma {:induction false} SameUnifiedIff(a: seq<string>, b: seq<string>)
    ensures Unified(a) == Unified(b) <==> SameWords(a, b)
  {
    assert |Unified(a)| == |a| && |Unified(b)| == |b|;
    if |a| == |b| {
      forall i | 0 <= i < |a|
        ensures Unified(a)[i] == Unified(b)[i] <==> SameWord(a[i], b[i])
      {
      }
    }
  }

  lemma {:induction false} SameKeptIff(p: seq<string>, q: seq<string>)
    ensures multiset(WithoutCountry(p)) == multiset(WithoutCountry(q)) <==>
      forall w :: w !in COUNTRY_WORDS ==> multiset(p)[w] == multiset(q)[w]
  {
    hide WithoutCountry;
    forall w
      ensures multiset(WithoutCountry(p))[w] == if w in COUNTRY_WORDS then 0 else multiset(p)[w]
      ensures multiset(WithoutCountry(q))[w] == if w in COUNTRY_WORDS then 0 else multiset(q)[w]
    {
      CountryFilter(p, w);
      CountryFilter(q, w);
    }
  }

  lemma {:induction false} SameLocationIffKept(t: Chars, a: string, b: string)
    ensures NormalizeLocation(t, a) == NormalizeLocation(t, b) <==>
      multiset(WithoutCountry(Tokens(t, a))) == multiset(WithoutCountry(Tokens(t, b)))
  {
    hide Sorted, WithoutCountry, Tokens;
    var x, y := WithoutCountry(Tokens(t, a)), WithoutCountry(Tokens(t, b));
    var u := LocationWords(t, a);
    var v := LocationWords(t, b);
    TokensOfJoin(t, u);
    TokensOfJoin(t, v);
    SortedMultiset(x);
    SortedMultiset(y);
    if multiset(x) == multiset(y) { SortIsCanonical(x, y); }
  }

  /** Locations have one normal form exactly when they have the same words, country names aside. */
  lemma {:induction false} SameNormalLocationIff(t: Chars, a: string, b: string)
    ensures NormalizeLocation(t, a) == NormalizeLocation(t, b) <==>
      forall w :: w !in COUNTRY_WORDS ==> multiset(Tokens(t, a))[w] == multiset(Tokens(t, b))[w]
  {
    hide WithoutCountry, Tokens, NormalizeLocation;
    SameLocationIffKept(t, a, b);
    SameKeptIff(Tokens(t, a), Tokens(t, b));
  }

  /** Each reason says which of the cases it was, and the decision names the incoming title and the known
      place. */
  lemma {:induction false} ReasonIff(t: Chars, a: Identity, b: Identity)
    ensures var (x, y, d) := (Normal(t, a), Normal(t, b), Evaluate(t, a, b));
      var sameTitle := x.title != "" && x.title == y.title;
      var conflict := x.location != "" && y.location != "" && x.location != y.location;
      var together := x.location == y.location != "";
      && (d.reason == "location_conflict" <==> conflict)
      && (d.reason == "exact_title_location_match" <==> sameTitle && together)
      && (d.reason == "exact_title_locations_absent" <==> sameTitle && x.location == y.location == "")
      && (d.reason == "fuzzy_title_location_match" <==> !sameTitle && together && d.score >= AUTO_MERGE_THRESHOLD)
      && (d.reason == "title_similarity_uncertain" <==>
            !sameTitle && !conflict && AMBIGUOUS_THRESHOLD <= d.score < AUTO_MERGE_THRESHOLD)
      && (d.reason == "title_similarity_low" <==> !sameTitle && !conflict && d.score < AMBIGUOUS_THRESHOLD)
      && (d.reason == "location_missing" <==>
            !conflict && !together && if sameTitle then x.location != y.location else d.score >= AUTO_MERGE_THRESHOLD)
      && d.normalizedTitle == x.title && d.normalizedLocation == (if x.location != "" then x.location else y.location)
  {
    TitleHasTokens(t, a.title);
    hide NormalizeTitle, NormalizeLocation, TitleSimilarity;
  }
}
