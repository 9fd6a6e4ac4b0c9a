/** Descendant selectors over a parsed page: parsing, the upward ancestor walk and the document-order
    selection (internal/scraper/learnedselector.go; section 8.1 of W3C Selectors Level 3).

    A node pointer is the node's path from the document node, the sequence of child positions; its
    parent is the path without the last position, and the document node has none. */
module Selector {
  import opened Wrappers
  import opened Text

  datatype Element = Element(tag: string, id: Option<string>, classes: set<string>)

  /** Text, comment and document nodes carry no element. */
  datatype Node = Node(element: Option<Element>, children: seq<Node>)

  type Path = seq<nat>

  datatype SimpleSelector = SimpleSelector(tag: string, id: string, classes: seq<string>)

  const BLANK := SimpleSelector("", "", [])

  // ----- Parsing -----

  predicate NameChar(t: Chars, c: char)
  {
    c != '#' && c != '.' && (t.word(c) || c == '-' || c == '_')
  }

  function Lower(t: Chars, s: string): string
  {
    seq(|s|, i requires 0 <= i < |s| => t.lower(s[i]))
  }

  /** The parser's mode ('t' for a tag), token buffer and component so far. */
  datatype Scan = Scan(mode: char, token: string, parsed: SimpleSelector)

  function Flush(t: Chars, s: Scan): Option<SimpleSelector>
  {
    if s.token == "" then None
    else if s.mode == 't' then Some(s.parsed.(tag := Lower(t, s.token)))
    else if s.mode == '#' then (if s.parsed.id != "" then None else Some(s.parsed.(id := s.token)))
    else Some(s.parsed.(classes := s.parsed.classes + [s.token]))
  }

  /** Reads the rest of one component from the given parser state. */
  function Scanned(t: Chars, rest: string, first: bool, s: Scan): Option<SimpleSelector>
    decreases |rest|
  {
    if rest == "" then
      match Flush(t, s)
      case Some(p) => if p == BLANK then None else Some(p)
      case None => None
    else if rest[0] == '#' || rest[0] == '.' then
      if first then Scanned(t, rest[1..], false, s.(mode := rest[0]))
      else
        match Flush(t, s)
        case Some(p) => Scanned(t, rest[1..], false, Scan(rest[0], "", p))
        case None => None
    else if !NameChar(t, rest[0]) then None
    else Scanned(t, rest[1..], false, s.(token := s.token + [rest[0]]))
  }

  function ParseComponent(t: Chars, part: string): Option<SimpleSelector>
  {
    Scanned(t, part, true, Scan('t', "", BLANK))
  }

  function ParseAll(t: Chars, parts: seq<string>): Option<seq<SimpleSelector>>
  {
    if parts == [] then Some([])
    else
      match (ParseAll(t, parts[..|parts| - 1]), ParseComponent(t, parts[|parts| - 1]))
      case (Some(before), Some(last)) => Some(before + [last])
      case _ => None
  }

  function Parse(t: Chars, value: string): Option<seq<SimpleSelector>>
  {
    var parts := Fields(Trim(value, t.space), c => !t.space(c));
    if |parts| == 0 || |parts| > 6 then None else ParseAll(t, parts)
  }

  method ScanComponent(t: Chars, part: string) returns (r: Option<SimpleSelector>)
    ensures r == ParseComponent(t, part)
  {
    var s := Scan('t', "", BLANK);
    for i := 0 to |part|
      invariant Scanned(t, part[i..], i == 0, s) == ParseComponent(t, part)
    {
      var c := part[i];
      assert part[i..][0] == c && part[i..][1..] == part[i + 1..];
      if c == '#' || c == '.' {
        if i > 0 {
          var flushed := Flush(t, s);
          if flushed.None? { return None; }
          s := Scan(c, "", flushed.value);
        } else {
          s := s.(mode := c);
        }
      } else {
        if !NameChar(t, c) { return None; }
        s := s.(token := s.token + [c]);
      }
    }
    var flushed := Flush(t, s);
    if flushed.None? || flushed.value == BLANK { return None; }
    r := flushed;
  }

  method ParseSelector(t: Chars, value: string) returns (r: Option<seq<SimpleSelector>>)
    ensures r == Parse(t, value)
  {
    var parts := Fields(Trim(value, t.space), c => !t.space(c));
    if |parts| == 0 || |parts| > 6 { return None; }
    var selectors: seq<SimpleSelector> := [];
    for i := 0 to |parts|
      invariant ParseAll(t, parts[..i]) == Some(selectors)
    {
      var parsed := ScanComponent(t, parts[i]);
      assert parts[..i + 1][..i] == parts[..i];
      if parsed.None? {
        FailedPart(t, parts, i + 1);
        return None;
      }
      selectors := selectors + [parsed.value];
    }
    assert parts[..|parts|] == parts;
    r := Some(selectors);
  }

  lemma {:induction false} FailedPart(t: Chars, parts: seq<string>, n: nat)
    requires n <= |parts| && ParseAll(t, parts[..n]).None?
    ensures ParseAll(t, parts).None?
    decreases |parts| - n
  {
    if n < |parts| {
      assert parts[..n + 1][..n] == parts[..n];
      FailedPart(t, parts, n + 1);
    } else {
      assert parts[..n] == parts;
    }
  }

  // ----- The component grammar -----

  /** An id or a class of a component, as written. */
  datatype Piece = Piece(marker: char, name: string)

  function Written(pieces: seq<Piece>): string
  {
    if pieces == [] then "" else [pieces[0].marker] + (pieces[0].name + Written(pieces[1..]))
  }

  /** The names behind one marker, in order. */
  function Named(pieces: seq<Piece>, marker: char): seq<string>
  {
    if pieces == [] then []
    else (if pieces[0].marker == marker then [pieces[0].name] else []) + Named(pieces[1..], marker)
  }

  ghost predicate Name(t: Chars, s: string) { AllChars(s, c => NameChar(t, c)) }

  ghost predicate Pieces(t: Chars, pieces: seq<Piece>)
  {
    forall p <- pieces :: (p.marker == '#' || p.marker == '.') && p.name != "" && Name(t, p.name)
  }

  /** The text is a name, which may be missing, followed by ids and classes. */
  ghost predicate Spells(t: Chars, text: string, tag: string, pieces: seq<Piece>)
  {
    text == tag + Written(pieces) && text != "" && Name(t, tag) && Pieces(t, pieces)
  }

  /** The component has the lower-cased tag, the one id if there is any, and the classes in order. */
  predicate Means(t: Chars, s: SimpleSelector, tag: string, pieces: seq<Piece>)
  {
    var ids := Named(pieces, '#');
    s.tag == Lower(t, tag) && ids == (if s.id == "" then [] else [s.id]) && s.classes == Named(pieces, '.')
  }

  /** The parser's components, piece by piece. */
  function Added(p: SimpleSelector, pieces: seq<Piece>): Option<SimpleSelector>
    decreases |pieces|
  {
    if pieces == [] then Some(p)
    else if pieces[0].marker != '#' then Added(p.(classes := p.classes + [pieces[0].name]), pieces[1..])
    else if p.id != "" then None
    else Added(p.(id := pieces[0].name), pieces[1..])
  }

  lemma {:induction false} ScanName(t: Chars, name: string, rest: string, first: bool, s: Scan)
    requires Name(t, name)
    ensures Scanned(t, name + rest, first, s) == Scanned(t, rest, first && name == "", s.(token := s.token + name))
    decreases |name|
  {
    if name == "" {
      assert name + rest == rest && s.token + name == s.token;
    } else {
      ScanName(t, name[1..], rest, false, s.(token := s.token + [name[0]]));
      assert (name + rest)[0] == name[0] && (name + rest)[1..] == name[1..] + rest;
      assert (s.token + [name[0]]) + name[1..] == s.token + name;
    }
  }

  lemma {:induction false} ScanPiece(t: Chars, piece: Piece, rest: string, first: bool, s: Scan)
    requires Pieces(t, [piece]) && (first || Flush(t, s).Some?)
    ensures var p := if first then s.parsed else Flush(t, s).value;
      Scanned(t, [piece.marker] + (piece.name + rest), first, Scan(s.mode, if first then "" else s.token, s.parsed))
      == Scanned(t, rest, false, Scan(piece.marker, piece.name, p))
  {
    assert piece in [piece];
    var p := if first then s.parsed else Flush(t, s).value;
    var text := [piece.marker] + (piece.name + rest);
    assert text[1..] == piece.name + rest;
    ScanName(t, piece.name, rest, false, Scan(piece.marker, "", p));
    assert "" + piece.name == piece.name;
  }

  lemma {:induction false} ScanPieces(t: Chars, pieces: seq<Piece>, s: Scan)
    requires Pieces(t, pieces)
    requires s.token != ""
    ensures Scanned(t, Written(pieces), false, s) ==
      match Flush(t, s)
      case Some(p) => Added(p, pieces)
      case None => None
    decreases |pieces|
  {
    FlushIsNotBlank(t, s);
    if pieces != [] && Flush(t, s).Some? {
      assert pieces[0] in pieces;
      assert forall p <- pieces[1..] :: p in pieces;
      ScanPiece(t, pieces[0], Written(pieces[1..]), false, s);
      ScanPieces(t, pieces[1..], Scan(pieces[0].marker, pieces[0].name, Flush(t, s).value));
    }
  }

  lemma {:induction false} FlushIsNotBlank(t: Chars, s: Scan)
    requires s.token != ""
    ensures Flush(t, s).Some? ==> Flush(t, s).value != BLANK
  {
    assert |Lower(t, s.token)| == |s.token|;
  }

  lemma {:induction false} ScanSpelled(t: Chars, tag: string, pieces: seq<Piece>)
    requires Name(t, tag) && Pieces(t, pieces)
    ensures ParseComponent(t, tag + Written(pieces)) ==
      if tag == "" && pieces == [] then None else Added(SimpleSelector(Lower(t, tag), "", []), pieces)
  {
    var start := Scan('t', "", BLANK);
    if tag != "" {
      ScanName(t, tag, Written(pieces), true, start);
      assert "" + tag == tag;
      ScanPieces(t, pieces, Scan('t', tag, BLANK));
    } else {
      assert tag + Written(pieces) == Written(pieces) && Lower(t, tag) == "";
      if pieces != [] {
        assert pieces[0] in pieces;
        assert forall p <- pieces[1..] :: p in pieces;
        ScanPiece(t, pieces[0], Written(pieces[1..]), true, start);
        ScanPieces(t, pieces[1..], Scan(pieces[0].marker, pieces[0].name, BLANK));
      }
    }
  }

  /** What the parser accepts after the first character is a rest of a name and then pieces. */
  lemma {:induction false} SpelledRest(t: Chars, rest: string, s: Scan) returns (name: string, pieces: seq<Piece>)
    requires Scanned(t, rest, false, s).Some?
    ensures rest == name + Written(pieces) && Name(t, name) && Pieces(t, pieces) && s.token + name != ""
    decreases |rest|
  {
    if rest == "" {
      name, pieces := "", [];
    } else if rest[0] == '#' || rest[0] == '.' {
      var next, more := SpelledRest(t, rest[1..], Scan(rest[0], "", Flush(t, s).value));
      name, pieces := "", [Piece(rest[0], next)] + more;
      assert pieces[1..] == more;
    } else {
      var next, more := SpelledRest(t, rest[1..], s.(token := s.token + [rest[0]]));
      name, pieces := [rest[0]] + next, more;
    }
  }

  lemma {:induction false} AcceptedIsSpelled(t: Chars, text: string) returns (tag: string, pieces: seq<Piece>)
    requires ParseComponent(t, text).Some?
    ensures Spells(t, text, tag, pieces)
  {
    if text[0] == '#' || text[0] == '.' {
      var next, more := SpelledRest(t, text[1..], Scan(text[0], "", BLANK));
      tag, pieces := "", [Piece(text[0], next)] + more;
      assert pieces[1..] == more;
    } else {
      var next, more := SpelledRest(t, text[1..], Scan('t', "" + [text[0]], BLANK));
      tag, pieces := [text[0]] + next, more;
    }
  }

  lemma {:induction false} AddedMeans(p: SimpleSelector, pieces: seq<Piece>)
    requires forall q <- pieces :: (q.marker == '#' || q.marker == '.') && q.name != ""
    ensures var ids, classes := Named(pieces, '#'), p.classes + Named(pieces, '.');
      Added(p, pieces) ==
        if ids == [] then Some(p.(classes := classes))
        else if |ids| == 1 && p.id == "" then Some(p.(id := ids[0], classes := classes))
        else None
    decreases |pieces|
  {
    if pieces == [] {
      assert p.classes + [] == p.classes;
    } else {
      var name, rest := pieces[0].name, pieces[1..];
      var ids, classes := Named(rest, '#'), Named(rest, '.');
      assert pieces[0] in pieces;
      assert forall q <- rest :: q in pieces;
      if pieces[0].marker == '#' {
        assert Named(pieces, '#') == [name] + ids && Named(pieces, '.') == classes;
        hide Named;
        if p.id == "" { AddedMeans(p.(id := name), rest); }
      } else {
        assert Named(pieces, '#') == ids && Named(pieces, '.') == [name] + classes;
        assert (p.classes + [name]) + classes == p.classes + ([name] + classes);
        hide Named;
        AddedMeans(p.(classes := p.classes + [name]), rest);
      }
    }
  }

  lemma {:induction false} NamedNotEmpty(pieces: seq<Piece>, marker: char)
    requires forall q <- pieces :: q.name != ""
    ensures forall name <- Named(pieces, marker) :: name != ""
  {
    if pieces != [] {
      assert pieces[0] in pieces;
      assert forall q <- pieces[1..] :: q in pieces;
      NamedNotEmpty(pieces[1..], marker);
    }
  }

  /** A text is parsed as a component exactly when it is spelled as an optional name followed by ids
      and classes of which at most one is an id, and the component is what those say. */
  lemma {:induction false} ComponentIff(t: Chars, text: string, s: SimpleSelector)
    ensures ParseComponent(t, text) == Some(s) <==>
      exists tag, pieces :: Spells(t, text, tag, pieces) && Means(t, s, tag, pieces)
  {
    hide Scanned, Written;
    if ParseComponent(t, text) == Some(s) {
      var tag, pieces := AcceptedIsSpelled(t, text);
      SpelledMeans(t, text, tag, pieces, s);
    }
    if tag, pieces :| Spells(t, text, tag, pieces) && Means(t, s, tag, pieces) {
      SpelledMeans(t, text, tag, pieces, s);
    }
  }

  lemma {:induction false} SpelledMeans(t: Chars, text: string, tag: string, pieces: seq<Piece>, s: SimpleSelector)
    requires Spells(t, text, tag, pieces)
    ensures ParseComponent(t, text) == Some(s) <==> Means(t, s, tag, pieces)
  {
    hide Added, Named, ParseComponent, Lower;
    ScanSpelled(t, tag, pieces);
    AddedMeans(SimpleSelector(Lower(t, tag), "", []), pieces);
    NamedNotEmpty(pieces, '#');
    assert Named(pieces, '#') != [] ==> Named(pieces, '#')[0] in Named(pieces, '#');
    assert [] + Named(pieces, '.') == Named(pieces, '.');
    assert tag == "" && pieces == [] ==> text == Written(pieces);
    assert Written([]) == "";
  }

  // ----- Parsing undoes rendering -----

  function ClassPieces(classes: seq<string>): seq<Piece>
  {
    seq(|classes|, i requires 0 <= i < |classes| => Piece('.', classes[i]))
  }

  function PiecesOf(s: SimpleSelector): seq<Piece>
  {
    (if s.id == "" then [] else [Piece('#', s.id)]) + ClassPieces(s.classes)
  }

  function Render(s: SimpleSelector): string { s.tag + Written(PiecesOf(s)) }

  function RenderEach(selectors: seq<SimpleSelector>): (parts: seq<string>)
    ensures |parts| == |selectors|
  {
    seq(|selectors|, i requires 0 <= i < |selectors| => Render(selectors[i]))
  }

  /** A component that can be written down: a lower-case tag, an id or at least one class, all made
      of name characters. */
  ghost predicate Writable(t: Chars, s: SimpleSelector)
  {
    && s != BLANK
    && Name(t, s.tag) && Lower(t, s.tag) == s.tag && Name(t, s.id)
    && forall c <- s.classes :: c != "" && Name(t, c)
  }

  lemma {:induction false} NamedClasses(classes: seq<string>)
    ensures Named(ClassPieces(classes), '#') == [] && Named(ClassPieces(classes), '.') == classes
  {
    if classes != [] {
      NamedClasses(classes[1..]);
      assert ClassPieces(classes)[1..] == ClassPieces(classes[1..]);
    }
  }

  lemma {:induction false} PiecesMean(t: Chars, s: SimpleSelector)
    requires Writable(t, s)
    ensures Spells(t, Render(s), s.tag, PiecesOf(s)) && Means(t, s, s.tag, PiecesOf(s))
  {
    var pieces, classes := PiecesOf(s), ClassPieces(s.classes);
    NamedClasses(s.classes);
    if s.id == "" {
      assert pieces == classes;
    } else {
      assert pieces[0] == Piece('#', s.id) && pieces[1..] == classes;
      assert Named(pieces, '#') == [s.id] + Named(classes, '#') && Named(pieces, '.') == [] + Named(classes, '.');
    }
    assert s.tag == "" ==> pieces != [] && Written(pieces) != "";
    forall p <- pieces
      ensures (p.marker == '#' || p.marker == '.') && p.name != "" && Name(t, p.name)
    {
      if p != Piece('#', s.id) { assert p in classes; assert p.name in s.classes; }
    }
  }

  /** Writing a component and parsing it gives the component back. */
  lemma {:induction false} ComponentRoundTrip(t: Chars, s: SimpleSelector)
    requires Writable(t, s)
    ensures ParseComponent(t, Render(s)) == Some(s)
  {
    PiecesMean(t, s);
    SpelledMeans(t, Render(s), s.tag, PiecesOf(s), s);
  }

  lemma {:induction false} RenderHasNoSpace(t: Chars, s: SimpleSelector)
    requires Writable(t, s)
    ensures Render(s) != "" && AllChars(Render(s), c => !t.space(c))
  {
    PiecesMean(t, s);
    WrittenHasNoSpace(t, PiecesOf(s));
    NameHasNoSpace(t, s.tag);
  }

  lemma {:induction false} NameHasNoSpace(t: Chars, s: string)
    requires Name(t, s)
    ensures AllChars(s, c => !t.space(c))
  {
    forall i | 0 <= i < |s|
      ensures !t.space(s[i])
    {
      assert NameChar(t, s[i]);
    }
  }

  lemma {:induction false} WrittenHasNoSpace(t: Chars, pieces: seq<Piece>)
    requires Pieces(t, pieces)
    ensures AllChars(Written(pieces), c => !t.space(c))
  {
    if pieces != [] {
      assert pieces[0] in pieces;
      assert forall p <- pieces[1..] :: p in pieces;
      NameHasNoSpace(t, pieces[0].name);
      WrittenHasNoSpace(t, pieces[1..]);
    }
  }

  lemma {:induction false} ParseAllRendered(t: Chars, selectors: seq<SimpleSelector>)
    requires forall s <- selectors :: Writable(t, s)
    ensures ParseAll(t, RenderEach(selectors)) == Some(selectors)
  {
    if selectors != [] {
      var n := |selectors| - 1;
      assert selectors[n] in selectors;
      ComponentRoundTrip(t, selectors[n]);
      ParseAllRendered(t, selectors[..n]);
      assert RenderEach(selectors)[..n] == RenderEach(selectors[..n]);
      assert selectors[..n] + [selectors[n]] == selectors;
    }
  }

  /** Writing one to six components separated by spaces and parsing them gives them back. */
  lemma {:induction false} SelectorRoundTrip(t: Chars, selectors: seq<SimpleSelector>)
    requires 1 <= |selectors| <= 6 && forall s <- selectors :: Writable(t, s)
    ensures Parse(t, JoinWords(RenderEach(selectors))) == Some(selectors)
  {
    var parts := RenderEach(selectors);
    forall i | 0 <= i < |parts|
      ensures parts[i] != "" && AllChars(parts[i], c => !t.space(c))
    {
      assert selectors[i] in selectors;
      RenderHasNoSpace(t, selectors[i]);
    }
    JoinEnds(parts, c => !t.space(c));
    assert Trim(JoinWords(parts), t.space) == JoinWords(parts);
    FieldsOfJoin(parts, c => !t.space(c));
    ParseAllRendered(t, selectors);
  }

  /** Words that hold no white space, joined by spaces and with white space around them, are a selector
      exactly when there are one to six and each is a component. */
  lemma {:induction false} SelectorIff(
      t: Chars, words: seq<string>, left: string, right: string, selectors: seq<SimpleSelector>)
    requires forall i :: 0 <= i < |words| ==> words[i] != "" && AllChars(words[i], c => !t.space(c))
    requires AllChars(left, t.space) && AllChars(right, t.space)
    ensures Parse(t, left + JoinWords(words) + right) == Some(selectors) <==>
      && 1 <= |words| <= 6 && |selectors| == |words|
      && forall i :: 0 <= i < |words| ==> ParseComponent(t, words[i]) == Some(selectors[i])
  {
    hide ParseComponent, Fields, Trim;
    var text := JoinWords(words);
    if words != [] { JoinEnds(words, c => !t.space(c)); }
    TrimStrips(left, text, right, t.space);
    FieldsOfJoin(words, c => !t.space(c));
    ParseAllIff(t, words, selectors);
  }

  lemma {:induction false} ParseAllIff(t: Chars, parts: seq<string>, selectors: seq<SimpleSelector>)
    ensures ParseAll(t, parts) == Some(selectors) <==>
      && |selectors| == |parts|
      && forall i :: 0 <= i < |parts| ==> ParseComponent(t, parts[i]) == Some(selectors[i])
  {
    hide ParseComponent;
    if parts != [] && selectors != [] {
      var n, m := |parts| - 1, |selectors| - 1;
      ParseAllIff(t, parts[..n], selectors[..m]);
      assert selectors == selectors[..m] + [selectors[m]];
    }
  }

  // ----- Matching one element -----

  predicate MatchesSimple(node: Node, s: SimpleSelector)
  {
    && node.element.Some?
    && (s.tag == "" || node.element.value.tag == s.tag)
    && (s.id == "" || node.element.value.id == Some(s.id))
    && forall c <- s.classes :: c in node.element.value.classes
  }

  /** What the text of a component selects: a tag, #id or .class names the elements with that tag, id
      or class, and a component of several parts selects what every part selects. */
  lemma {:induction false} ComponentSelects(t: Chars, s: SimpleSelector, node: Node)
    requires Writable(t, s)
    ensures ParseComponent(t, Render(s)).Some?
    ensures MatchesSimple(node, ParseComponent(t, Render(s)).value) <==>
      && node.element.Some?
      && (s.tag != "" ==> Selects(t, s.tag, node))
      && (s.id != "" ==> Selects(t, ['#'] + s.id, node))
      && (forall c <- s.classes :: Selects(t, ['.'] + c, node))
  {
    hide ParseComponent, Render;
    ComponentRoundTrip(t, s);
    if s.tag != "" { TagSelects(t, s.tag, node); }
    if s.id != "" { IdSelects(t, s.id, node); }
    forall c <- s.classes
      ensures Selects(t, ['.'] + c, node) <==> node.element.Some? && c in node.element.value.classes
    {
      ClassSelects(t, c, node);
    }
  }

  predicate Selects(t: Chars, part: string, node: Node)
  {
    ParseComponent(t, part).Some? && MatchesSimple(node, ParseComponent(t, part).value)
  }

  lemma {:induction false} OnePiece(piece: Piece)
    ensures Written([piece]) == [piece.marker] + piece.name && "" + Written([piece]) == [piece.marker] + piece.name
  {
    assert [piece][1..] == [] && piece.name + "" == piece.name;
  }

  lemma {:induction false} TagSelects(t: Chars, tag: string, node: Node)
    requires tag != "" && Name(t, tag) && Lower(t, tag) == tag
    ensures Selects(t, tag, node) <==> node.element.Some? && node.element.value.tag == tag
  {
    ComponentRoundTrip(t, SimpleSelector(tag, "", []));
    assert Render(SimpleSelector(tag, "", [])) == tag;
  }

  lemma {:induction false} IdSelects(t: Chars, id: string, node: Node)
    requires id != "" && Name(t, id)
    ensures Selects(t, ['#'] + id, node) <==> node.element.Some? && node.element.value.id == Some(id)
  {
    ComponentRoundTrip(t, SimpleSelector("", id, []));
    assert PiecesOf(SimpleSelector("", id, [])) == [Piece('#', id)];
    OnePiece(Piece('#', id));
  }

  lemma {:induction false} ClassSelects(t: Chars, c: string, node: Node)
    requires c != "" && Name(t, c)
    ensures Selects(t, ['.'] + c, node) <==> node.element.Some? && c in node.element.value.classes
  {
    ComponentRoundTrip(t, SimpleSelector("", "", [c]));
    assert PiecesOf(SimpleSelector("", "", [c])) == [Piece('.', c)];
    OnePiece(Piece('.', c));
  }

  /** The node a path leads to. */
  function At(node: Node, path: Path): Option<Node>
    decreases |path|
  {
    if path == [] then Some(node)
    else if path[0] < |node.children| then At(node.children[path[0]], path[1..])
    else None
  }

  predicate MatchesAt(doc: Node, path: Path, s: SimpleSelector)
  {
    At(doc, path).Some? && MatchesSimple(At(doc, path).value, s)
  }

  // ----- The ancestor walk -----

  /** depths picks one ancestor of the path per selector, each above the next, all of depth below n. */
  ghost predicate AncestorChain(doc: Node, path: Path, n: nat, selectors: seq<SimpleSelector>, depths: seq<nat>)
    requires n <= |path| + 1
  {
    && |depths| == |selectors|
    && (forall i :: 0 <= i < |depths| ==> depths[i] < n)
    && (forall i, j :: 0 <= i < j < |depths| ==> depths[i] < depths[j])
    && (forall i :: 0 <= i < |depths| ==> MatchesAt(doc, path[..depths[i]], selectors[i]))
  }

  ghost predicate HasChain(doc: Node, path: Path, n: nat, selectors: seq<SimpleSelector>)
    requires n <= |path| + 1
  {
    exists depths :: AncestorChain(doc, path, n, selectors, depths)
  }

  lemma {:induction false} NoSelectorsLeft(doc: Node, path: Path, n: nat)
    requires n <= |path| + 1
    ensures HasChain(doc, path, n, [])
  {
    assert AncestorChain(doc, path, n, [], []);
  }

  /** An ancestor the last selector rejects can be passed over. */
  lemma {:induction false} PassOver(doc: Node, path: Path, n: nat, selectors: seq<SimpleSelector>)
    requires 0 < n <= |path| + 1 && selectors != []
    requires !MatchesAt(doc, path[..n - 1], selectors[|selectors| - 1])
    ensures HasChain(doc, path, n, selectors) <==> HasChain(doc, path, n - 1, selectors)
  {
    if HasChain(doc, path, n, selectors) {
      var depths :| AncestorChain(doc, path, n, selectors, depths);
      assert depths[|depths| - 1] != n - 1;
      assert AncestorChain(doc, path, n - 1, selectors, depths);
    }
    if HasChain(doc, path, n - 1, selectors) {
      var depths :| AncestorChain(doc, path, n - 1, selectors, depths);
      assert AncestorChain(doc, path, n, selectors, depths);
    }
  }

  /** Taking the nearest ancestor the last selector accepts loses no chain. */
  lemma {:induction false} TakeNearest(doc: Node, path: Path, n: nat, selectors: seq<SimpleSelector>)
    requires 0 < n <= |path| + 1 && selectors != []
    requires MatchesAt(doc, path[..n - 1], selectors[|selectors| - 1])
    ensures HasChain(doc, path, n, selectors) <==> HasChain(doc, path, n - 1, selectors[..|selectors| - 1])
  {
    var last := |selectors| - 1;
    if HasChain(doc, path, n, selectors) {
      var depths :| AncestorChain(doc, path, n, selectors, depths);
      assert AncestorChain(doc, path, n - 1, selectors[..last], depths[..last]);
    }
    if HasChain(doc, path, n - 1, selectors[..last]) {
      var depths :| AncestorChain(doc, path, n - 1, selectors[..last], depths);
      var nearest: nat := n - 1;
      assert AncestorChain(doc, path, n, selectors, depths + [nearest]);
    }
  }

  /** Walks from the node at path[..n - 1] upwards, n being zero past the document node.  It accepts
      exactly when some strictly ascending chain of ancestors matches the selectors. */
  method MatchesAncestors(doc: Node, path: Path, start: nat, selectors: seq<SimpleSelector>) returns (r: bool)
    requires start <= |path|
    ensures r <==> HasChain(doc, path, start, selectors)
  {
    var n := start;
    var i := |selectors|;
    assert selectors[..i] == selectors;
    while i > 0
      invariant 0 <= i <= |selectors| && 0 <= n <= start
      invariant HasChain(doc, path, start, selectors) <==> HasChain(doc, path, n, selectors[..i])
    {
      i := i - 1;
      while n > 0 && !MatchesAt(doc, path[..n - 1], selectors[i])
        invariant 0 <= n <= start
        invariant HasChain(doc, path, start, selectors) <==> HasChain(doc, path, n, selectors[..i + 1])
      {
        PassOver(doc, path, n, selectors[..i + 1]);
        n := n - 1;
      }
      if n == 0 { return false; }
      TakeNearest(doc, path, n, selectors[..i + 1]);
      assert selectors[..i + 1][..i] == selectors[..i];
      n := n - 1;
    }
    NoSelectorsLeft(doc, path, n);
    assert selectors[..0] == [];
    r := true;
  }

  // ----- Selection -----

  /** Document order: an ancestor comes before its descendants, earlier siblings before later. */
  predicate DocumentBefore(p: Path, q: Path)
  {
    q != [] && (p == [] || p[0] < q[0] || (p[0] == q[0] && DocumentBefore(p[1..], q[1..])))
  }

  ghost predicate InDocumentOrder(paths: seq<Path>)
  {
    forall i, j :: 0 <= i < j < |paths| ==> DocumentBefore(paths[i], paths[j])
  }

  /** The node exists, matches the last component, and its ancestors match the others. */
  ghost predicate Matches(doc: Node, path: Path, parts: seq<SimpleSelector>)
    requires parts != []
  {
    MatchesAt(doc, path, parts[|parts| - 1]) && HasChain(doc, path, |path|, parts[..|parts| - 1])
  }

  lemma {:induction false} PrefixOrder(base: Path, x: Path, y: Path)
    ensures DocumentBefore(base + x, base + y) <==> DocumentBefore(x, y)
  {
    if base == [] {
      assert base + x == x && base + y == y;
    } else {
      assert (base + x)[1..] == base[1..] + x && (base + y)[1..] == base[1..] + y;
      PrefixOrder(base[1..], x, y);
    }
  }

  lemma {:induction false} SiblingOrder(base: Path, i: nat, j: nat, p: Path, q: Path)
    requires base + [i] <= p && base + [j] <= q && i < j
    ensures DocumentBefore(p, q)
  {
    var x, y := p[|base|..], q[|base|..];
    assert p == base + x && q == base + y && x[0] == i && y[0] == j;
    PrefixOrder(base, x, y);
  }

  lemma {:induction false} AncestorOrder(p: Path, q: Path)
    requires p < q
    ensures DocumentBefore(p, q)
  {
    assert q == p + q[|p|..] && p == p + [];
    PrefixOrder(p, [], q[|p|..]);
  }

  lemma {:induction false} AtChild(doc: Node, path: Path, i: nat)
    requires At(doc, path).Some?
    ensures At(doc, path + [i]) == if i < |At(doc, path).value.children| then Some(At(doc, path).value.children[i]) else None
    decreases |path|
  {
    if path == [] {
      assert (path + [i])[1..] == [];
    } else {
      assert (path + [i])[1..] == path[1..] + [i];
      AtChild(doc.children[path[0]], path[1..], i);
    }
  }

  lemma {:induction false} AtPrefix(doc: Node, path: Path, k: nat)
    requires At(doc, path).Some? && k <= |path|
    ensures At(doc, path[..k]).Some?
    decreases |path|
  {
    if k > 0 {
      assert path[..k][1..] == path[1..][..k - 1];
      AtPrefix(doc.children[path[0]], path[1..], k - 1);
    }
  }

  /** The selected nodes at and below one node, in the order a preorder walk meets them. */
  ghost function Collect(doc: Node, node: Node, path: Path, parts: seq<SimpleSelector>): seq<Path>
    requires parts != []
    decreases node, |node.children| + 1
  {
    (if Matches(doc, path, parts) then [path] else []) + CollectChildren(doc, node, path, parts, |node.children|)
  }

  ghost function CollectChildren(doc: Node, node: Node, path: Path, parts: seq<SimpleSelector>, n: nat): seq<Path>
    requires parts != [] && n <= |node.children|
    decreases node, n
  {
    if n == 0 then []
    else CollectChildren(doc, node, path, parts, n - 1) + Collect(doc, node.children[n - 1], path + [n - 1], parts)
  }

  /** What selecting below a root yields. */
  ghost function Selection(t: Chars, doc: Node, root: Path, selector: string): seq<Path>
  {
    if At(doc, root).None? || Parse(t, selector).None? || Parse(t, selector).value == [] then []
    else
      var node := At(doc, root).value;
      CollectChildren(doc, node, root, Parse(t, selector).value, |node.children|)
  }

  /** The paths strictly below base whose first step below it is smaller than n. */
  predicate Under(base: Path, n: nat, p: Path)
  {
    base < p && p[|base|] < n
  }

  lemma {:induction false} JoinInOrder(a: seq<Path>, b: seq<Path>)
    requires InDocumentOrder(a) && InDocumentOrder(b)
    requires forall p, q :: p in a && q in b ==> DocumentBefore(p, q)
    ensures InDocumentOrder(a + b)
  {
    var all := a + b;
    forall i, j | 0 <= i < j < |all|
      ensures DocumentBefore(all[i], all[j])
    {
      if i < |a| && j >= |a| { assert all[i] in a && all[j] in b; }
    }
  }

  /** Collecting finds exactly the matching nodes at and below a node, in document order. */
  lemma {:induction false} CollectExact(doc: Node, node: Node, path: Path, parts: seq<SimpleSelector>)
    requires parts != [] && At(doc, path) == Some(node)
    ensures forall p :: p in Collect(doc, node, path, parts) <==> path <= p && Matches(doc, p, parts)
    ensures InDocumentOrder(Collect(doc, node, path, parts))
    decreases node, |node.children| + 1
  {
    var n := |node.children|;
    var own := if Matches(doc, path, parts) then [path] else [];
    var below := CollectChildren(doc, node, path, parts, n);
    CollectChildrenExact(doc, node, path, parts, n);
    forall p, q | p in own && q in below
      ensures DocumentBefore(p, q)
    {
      AncestorOrder(p, q);
    }
    JoinInOrder(own, below);
    forall p | path <= p && Matches(doc, p, parts)
      ensures p == path || Under(path, n, p)
    {
      if |p| > |path| { ChildExists(doc, path, p); } else { assert p == path; }
    }
  }

  lemma {:induction false} ChildExists(doc: Node, path: Path, p: Path)
    requires path < p && At(doc, p).Some?
    ensures At(doc, path).Some? && p[|path|] < |At(doc, path).value.children|
  {
    AtPrefix(doc, p, |path|);
    AtPrefix(doc, p, |path| + 1);
    assert p[..|path|] == path && p[..|path| + 1] == path + [p[|path|]];
    AtChild(doc, path, p[|path|]);
  }

  lemma {:induction false} CollectChildrenExact(doc: Node, node: Node, path: Path, parts: seq<SimpleSelector>, n: nat)
    requires parts != [] && At(doc, path) == Some(node) && n <= |node.children|
    ensures forall p :: p in CollectChildren(doc, node, path, parts, n) <==> Under(path, n, p) && Matches(doc, p, parts)
    ensures InDocumentOrder(CollectChildren(doc, node, path, parts, n))
    decreases node, n
  {
    if n > 0 {
      var k: nat := n - 1;
      var before := CollectChildren(doc, node, path, parts, k);
      var last := Collect(doc, node.children[k], path + [k], parts);
      CollectChildrenExact(doc, node, path, parts, k);
      AtChild(doc, path, k);
      CollectExact(doc, node.children[k], path + [k], parts);
      forall p
        ensures path + [k] <= p <==> path < p && p[|path|] == k
      {
      }
      forall p, q | p in before && q in last
        ensures DocumentBefore(p, q)
      {
        assert path + [p[|path|]] <= p;
        SiblingOrder(path, p[|path|], k, p, q);
      }
      JoinInOrder(before, last);
    }
  }

  /** The recursive walk below and including one node. */
  method Walk(doc: Node, path: Path, parts: seq<SimpleSelector>, ghost node: Node) returns (result: seq<Path>)
    requires parts != [] && At(doc, path) == Some(node)
    ensures result == Collect(doc, node, path, parts)
    decreases node
  {
    result := [];
    if MatchesAt(doc, path, parts[|parts| - 1]) {
      var ancestors := MatchesAncestors(doc, path, |path|, parts[..|parts| - 1]);
      if ancestors { result := [path]; }
    }
    ghost var own := result;
    var count := |At(doc, path).value.children|;
    for i := 0 to count
      invariant result == own + CollectChildren(doc, node, path, parts, i)
    {
      AtChild(doc, path, i);
      var below := Walk(doc, path + [i], parts, node.children[i]);
      result := result + below;
    }
  }

  lemma {:induction false} OrderIsStrict(p: Path, q: Path)
    requires DocumentBefore(p, q)
    ensures !DocumentBefore(q, p) && p != q
    decreases |p|
  {
    if p != [] && p[0] == q[0] { OrderIsStrict(p[1..], q[1..]); }
  }

  /** A selection is exactly the matching nodes strictly below the root, in document order; an invalid
      selector selects nothing. */
  lemma {:induction false} SelectionExact(t: Chars, doc: Node, root: Path, selector: string)
    requires At(doc, root).Some?
    ensures forall p :: p in Selection(t, doc, root, selector) <==>
      root < p && Parse(t, selector).Some? && Matches(doc, p, Parse(t, selector).value)
    ensures InDocumentOrder(Selection(t, doc, root, selector))
  {
    if Parse(t, selector).Some? {
      var parts, node := Parse(t, selector).value, At(doc, root).value;
      CollectChildrenExact(doc, node, root, parts, |node.children|);
      forall p | root < p && Matches(doc, p, parts)
        ensures Under(root, |node.children|, p)
      {
        ChildExists(doc, root, p);
      }
    }
  }

  /** Returns exactly the matching nodes strictly below the root, once each, in document order; an
      invalid selector selects nothing. */
  method SelectNodes(t: Chars, doc: Node, root: Path, selector: string) returns (result: seq<Path>)
    requires At(doc, root).Some?
    ensures result == Selection(t, doc, root, selector)
    ensures forall p :: p in result <==>
      root < p && Parse(t, selector).Some? && Matches(doc, p, Parse(t, selector).value)
    ensures InDocumentOrder(result)
  {
    hide Matches, InDocumentOrder, DocumentBefore, Collect;
    SelectionExact(t, doc, root, selector);
    result := [];
    var parsed := ParseSelector(t, selector);
    if parsed.None? { return; }
    var parts := parsed.value;
    var count := |At(doc, root).value.children|;
    for i := 0 to count
      invariant result == CollectChildren(doc, At(doc, root).value, root, parts, i)
    {
      AtChild(doc, root, i);
      var below := Walk(doc, root + [i], parts, At(doc, root).value.children[i]);
      result := result + below;
    }
  }
}
