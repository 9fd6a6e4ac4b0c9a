/** The robots.txt decision: grouping of lines, wildcard patterns and the longest match
    (internal/scraper/robots.go; sections 2.2.1 to 2.2.3 of RFC 9309).  Text is a sequence of octets,
    written as the characters below 256.  Regular expressions work on characters, so patterns and
    paths are compared under UTF-8; as in any parsed URL, a path holds no line break. */
module Robots {
  import opened Wrappers
  import opened Text

  // ----- UTF-8 -----

  /** The length of the well-formed character at the front, or zero (section 4 of RFC 3629). */
  function Width(s: string): (w: nat)
    ensures w <= |s| && w <= 4
    ensures s == "" ==> w == 0
  {
    if s == "" then 0
    else if s[0] < '\U{80}' then 1
    else if |s| >= 2 && '\U{c2}' <= s[0] <= '\U{df}' && Continues(s[1]) then 2
    else if |s| >= 3 && '\U{e0}' <= s[0] <= '\U{ef}' && Continues(s[1]) && Continues(s[2])
            && (s[0] == '\U{e0}' ==> s[1] >= '\U{a0}') && (s[0] == '\U{ed}' ==> s[1] <= '\U{9f}') then 3
    else if |s| >= 4 && '\U{f0}' <= s[0] <= '\U{f4}' && Continues(s[1]) && Continues(s[2]) && Continues(s[3])
            && (s[0] == '\U{f0}' ==> s[1] >= '\U{90}') && (s[0] == '\U{f4}' ==> s[1] <= '\U{8f}') then 4
    else 0
  }

  predicate Continues(c: char) { '\U{80}' <= c <= '\U{bf}' }

  /** The scalar values: the code points but the surrogates. */
  predicate Scalar(c: int) { 0 <= c < 0xd800 || 0xe000 <= c < 0x110000 }

  /** The octets of a scalar value. */
  function Encoded(c: int): string
    requires Scalar(c)
  {
    if c < 0x80 then [c as char]
    else if c < 0x800 then [(0xc0 + c / 64) as char, Tail(c)]
    else if c < 0x10000 then [(0xe0 + c / 64 / 64) as char, Tail(c / 64), Tail(c)]
    else [(0xf0 + c / 64 / 64 / 64) as char, Tail(c / 64 / 64), Tail(c / 64), Tail(c)]
  }

  function Tail(c: nat): char { (0x80 + c % 64) as char }

  /** A width is the length of the scalar value that stands at the front. */
  lemma {:induction false} EncodedHasWidth(c: int, rest: string)
    requires Scalar(c)
    ensures Width(Encoded(c) + rest) == |Encoded(c)|
  {
  }

  lemma {:induction false} Append64(high: nat, c: char)
    requires Continues(c)
    ensures var n := high * 64 + (c as int - 0x80);
      n / 64 == high && Tail(n) == c && 64 * high <= n < 64 * high + 64
      && (c >= '\U{a0}' <==> n >= 64 * high + 32) && (c >= '\U{90}' <==> n >= 64 * high + 16)
  {
  }

  lemma {:induction false} TwoOctets(s: string) returns (c: int)
    requires Width(s) == 2
    ensures Scalar(c) && s[..2] == Encoded(c)
  {
    var high := s[0] as int - 0xc0;
    Append64(high, s[1]);
    c := high * 64 + (s[1] as int - 0x80);
    assert s[..2] == [s[0], s[1]] && 0x80 <= c < 0x800;
  }

  lemma {:induction false} ThreeOctets(s: string) returns (c: int)
    requires Width(s) == 3
    ensures Scalar(c) && s[..3] == Encoded(c)
  {
    var high := s[0] as int - 0xe0;
    Append64(high, s[1]);
    var middle := high * 64 + (s[1] as int - 0x80);
    Append64(middle, s[2]);
    c := middle * 64 + (s[2] as int - 0x80);
    hide Tail;
    assert s[..3] == [s[0], s[1], s[2]] && 0x800 <= c < 0x10000;
    assert Encoded(c) == [(0xe0 + c / 64 / 64) as char, Tail(c / 64), Tail(c)];
  }

  lemma {:induction false} FourOctets(s: string) returns (c: int)
    requires Width(s) == 4
    ensures Scalar(c) && s[..4] == Encoded(c)
  {
    var high := s[0] as int - 0xf0;
    Append64(high, s[1]);
    var middle := high * 64 + (s[1] as int - 0x80);
    Append64(middle, s[2]);
    var low := middle * 64 + (s[2] as int - 0x80);
    Append64(low, s[3]);
    c := low * 64 + (s[3] as int - 0x80);
    hide Tail;
    assert s[..4] == [s[0], s[1], s[2], s[3]] && 0x10000 <= c < 0x110000;
    assert Encoded(c) == [(0xf0 + c / 64 / 64 / 64) as char, Tail(c / 64 / 64), Tail(c / 64), Tail(c)];
  }

  /** And there is a width only when one does. */
  lemma {:induction false} WidthIsEncoded(s: string) returns (c: int)
    requires Width(s) > 0
    ensures Scalar(c) && s[..Width(s)] == Encoded(c)
  {
    hide Scalar;
    match Width(s)
    case 1 => c := s[0] as int; OneOctet(s);
    case 2 => c := TwoOctets(s);
    case 3 => c := ThreeOctets(s);
    case _ => c := FourOctets(s);
  }

  lemma {:induction false} OneOctet(s: string)
    requires Width(s) == 1
    ensures var c := s[0] as int; Scalar(c) && s[..1] == Encoded(c)
  {
  }

  predicate ValidUtf8(s: string)
    decreases |s|
  {
    s != "" ==> Width(s) > 0 && ValidUtf8(s[Width(s)..])
  }

  /** A character is decoded alike whatever follows it. */
  lemma {:induction false} WidthOfPrefix(s: string, rest: string)
    requires Width(s) > 0
    ensures Width(s + rest) == Width(s)
  {
  }

  lemma {:induction false} InsideCharacter(s: string, i: nat)
    requires 0 < i < Width(s)
    ensures Continues(s[i])
  {
  }

  /** A valid text may be cut before any octet that does not continue a character. */
  lemma {:induction false} CutAtCharacter(s: string, i: nat)
    requires ValidUtf8(s) && i <= |s| && (i < |s| ==> !Continues(s[i]))
    ensures ValidUtf8(s[..i]) && ValidUtf8(s[i..])
    decreases |s|
  {
    if i == 0 {
      assert s[0..] == s;
    } else {
      var w := Width(s);
      if i < w { InsideCharacter(s, i); }
      CutAtCharacter(s[w..], i - w);
      assert s[w..][i - w..] == s[i..] && s[..i][w..] == s[w..][..i - w];
      assert s[..w] + s[w..i] == s[..i];
      WidthOfStart(s, i);
    }
  }

  lemma {:induction false} WidthOfStart(s: string, i: nat)
    requires Width(s) <= i <= |s|
    ensures Width(s) > 0 ==> Width(s[..i]) == Width(s)
  {
  }

  // ----- Patterns -----

  /** The compiled expression: the literal parts in order with anything between two of them, matched
      from the start of the path and, when anchored, up to its end. */
  datatype Pattern = Pattern(parts: seq<string>, anchored: bool)

  datatype Rule = Rule(allow: bool, pattern: Pattern, specificity: nat)

  /** The texts generated by part, anything, part, ..., part. */
  predicate Generates(parts: seq<string>, s: string)
    decreases |parts|
  {
    if parts == [] then s == ""
    else if |parts| == 1 then s == parts[0]
    else parts[0] <= s && exists i :: |parts[0]| <= i <= |s| && Generates(parts[1..], s[i..])
  }

  predicate MatchesPattern(p: Pattern, path: string)
  {
    if p.anchored then Generates(p.parts, path) else exists n :: 0 <= n <= |path| && Generates(p.parts, path[..n])
  }

  /** The wildcard language itself: a star stands for any text, every other character for itself. */
  predicate Wild(pattern: string, s: string)
    decreases |pattern|
  {
    if pattern == "" then s == ""
    else if pattern[0] == '*' then exists i :: 0 <= i <= |s| && Wild(pattern[1..], s[i..])
    else s != "" && s[0] == pattern[0] && Wild(pattern[1..], s[1..])
  }

  function WithoutStars(s: string): string
  {
    if s == "" then ""
    else WithoutStars(s[..|s| - 1]) + if s[|s| - 1] == '*' then "" else [s[|s| - 1]]
  }

  predicate Anchored(value: string) { value != "" && value[|value| - 1] == '$' }

  function PatternValue(value: string): string
  {
    if Anchored(value) then value[..|value| - 1] else value
  }

  function Compile(allow: bool, value: string): Rule
  {
    Rule(allow, Pattern(Split(PatternValue(value), '*'), Anchored(value)), |WithoutStars(PatternValue(value))|)
  }

  lemma {:induction false} ConsumeLiteral(c: char, first: string, rest: seq<string>, s: string)
    ensures Generates([[c] + first] + rest, s) <==> s != "" && s[0] == c && Generates([first] + rest, s[1..])
  {
    var whole, shorter := [[c] + first] + rest, [first] + rest;
    assert whole[1..] == rest && shorter[1..] == rest;
    if rest == [] {
      if s != "" { assert s == [s[0]] + s[1..]; }
    } else {
      if Generates(whole, s) {
        var i :| |first| + 1 <= i <= |s| && Generates(rest, s[i..]);
        assert s[1..][i - 1..] == s[i..];
        assert first <= s[1..];
      }
      if s != "" && s[0] == c && Generates(shorter, s[1..]) {
        var i :| |first| <= i <= |s| - 1 && Generates(rest, s[1..][i..]);
        assert s[i + 1..] == s[1..][i..];
        assert [c] + first <= s;
      }
    }
  }

  /** Splitting at the stars and generating is the wildcard language. */
  lemma {:induction false} SplitGeneratesWild(pattern: string, s: string)
    ensures Generates(Split(pattern, '*'), s) <==> Wild(pattern, s)
    decreases |pattern|
  {
    if pattern != "" {
      var rest := Split(pattern[1..], '*');
      if pattern[0] == '*' {
        assert Split(pattern, '*')[1..] == rest;
        forall i | 0 <= i <= |s|
          ensures Generates(rest, s[i..]) <==> Wild(pattern[1..], s[i..])
        {
          SplitGeneratesWild(pattern[1..], s[i..]);
        }
      } else {
        ConsumeLiteral(pattern[0], rest[0], rest[1..], s);
        assert [rest[0]] + rest[1..] == rest;
        if s != "" { SplitGeneratesWild(pattern[1..], s[1..]); }
      }
    }
  }

  /** The same language read character by character, as the compiled expression reads it: a star stands
      for whole characters. */
  predicate WildCharacters(pattern: string, s: string)
    decreases |pattern|
  {
    if pattern == "" then s == ""
    else if pattern[0] == '*' then exists i :: 0 <= i <= |s| && ValidUtf8(s[..i]) && WildCharacters(pattern[1..], s[i..])
    else
      var w := if Width(pattern) > 0 then Width(pattern) else 1;
      w <= |s| && s[..w] == pattern[..w] && WildCharacters(pattern[w..], s[w..])
  }

  lemma {:induction false} WildAfterCharacter(pattern: string, s: string, w: nat)
    requires w <= |pattern| && '*' !in pattern[..w]
    ensures Wild(pattern, s) <==> w <= |s| && s[..w] == pattern[..w] && Wild(pattern[w..], s[w..])
    decreases w
  {
    if w == 0 {
      assert pattern[0..] == pattern && s[0..] == s;
    } else if s != "" && s[0] == pattern[0] {
      assert pattern[1..][w - 1..] == pattern[w..] && pattern[1..][..w - 1] == pattern[1..w];
      WildAfterCharacter(pattern[1..], s[1..], w - 1);
      if w <= |s| {
        assert s[1..][w - 1..] == s[w..] && s[1..][..w - 1] == s[1..w];
        assert s[..w] == [s[0]] + s[1..w] && pattern[..w] == [pattern[0]] + pattern[1..w];
      }
    } else if w <= |s| {
      assert s[..w][0] == s[0] && pattern[..w][0] == pattern[0];
    }
  }

  lemma {:induction false} NoStarInside(pattern: string)
    requires pattern != "" && pattern[0] != '*'
    ensures '*' !in pattern[..Width(pattern)]
  {
    forall i | 0 <= i < Width(pattern)
      ensures pattern[i] != '*'
    {
      if i > 0 { InsideCharacter(pattern, i); }
    }
  }

  /** A star before a star can stand for nothing. */
  lemma {:induction false} StarsAbsorb(pattern: string, s: string, i: nat)
    requires pattern != "" && pattern[0] == '*' && i <= |s| && Wild(pattern, s[i..])
    ensures Wild(pattern, s)
  {
    var k :| 0 <= k <= |s[i..]| && Wild(pattern[1..], s[i..][k..]);
    assert s[i..][k..] == s[i + k..];
  }

  /** What a star stands for can be chosen to end between two characters. */
  lemma {:induction false} StarEndsAtCharacter(pattern: string, s: string) returns (i: nat)
    requires pattern != "" && pattern[0] == '*' && ValidUtf8(pattern) && ValidUtf8(s) && Wild(pattern, s)
    ensures i <= |s| && ValidUtf8(s[..i]) && ValidUtf8(s[i..]) && ValidUtf8(pattern[1..]) && Wild(pattern[1..], s[i..])
  {
    var rest := pattern[1..];
    i :| i <= |s| && Wild(rest, s[i..]);
    hide Width;
    if rest != "" && rest[0] == '*' {
      StarsAbsorb(rest, s, i);
      i := 0;
      assert s[0..] == s;
    } else {
      AfterStar(pattern);
      LiteralStartsCharacter(rest, s[i..]);
    }
    AfterStar(pattern);
    CutAtCharacter(s, i);
  }

  lemma {:induction false} AfterStar(pattern: string)
    requires pattern != "" && pattern[0] == '*' && ValidUtf8(pattern)
    ensures ValidUtf8(pattern[1..])
  {
  }

  /** On well-formed texts octets and characters give the same matches. */
  lemma {:induction false} OctetsMatchLikeCharacters(pattern: string, s: string)
    requires ValidUtf8(pattern) && ValidUtf8(s)
    ensures Wild(pattern, s) <==> WildCharacters(pattern, s)
    decreases |pattern|
  {
    if pattern == "" {
    } else if pattern[0] == '*' {
      var rest := pattern[1..];
      if Wild(pattern, s) {
        var i := StarEndsAtCharacter(pattern, s);
        OctetsMatchLikeCharacters(rest, s[i..]);
      }
      if WildCharacters(pattern, s) {
        var i :| 0 <= i <= |s| && ValidUtf8(s[..i]) && WildCharacters(rest, s[i..]);
        ValidAfter(s, i);
        OctetsMatchLikeCharacters(rest, s[i..]);
      }
    } else {
      var w := Width(pattern);
      NoStarInside(pattern);
      WildAfterCharacter(pattern, s, w);
      if w <= |s| && s[..w] == pattern[..w] {
        WidthOfStart(pattern, w);
        assert s == s[..w] + s[w..];
        WidthOfPrefix(s[..w], s[w..]);
        OctetsMatchLikeCharacters(pattern[w..], s[w..]);
      }
    }
  }

  lemma {:induction false} LiteralStartsCharacter(pattern: string, s: string)
    requires ValidUtf8(pattern) && Wild(pattern, s) && (pattern != "" ==> pattern[0] != '*')
    ensures s != "" ==> !Continues(s[0])
  {
  }

  lemma {:induction false} ValidAfter(s: string, i: nat)
    requires ValidUtf8(s) && i <= |s| && ValidUtf8(s[..i])
    ensures ValidUtf8(s[i..])
    decreases i
  {
    if i == 0 {
      assert s[0..] == s;
    } else {
      var w := Width(s[..i]);
      assert s == s[..i] + s[i..];
      WidthOfPrefix(s[..i], s[i..]);
      assert s[w..][..i - w] == s[..i][w..] && s[w..][i - w..] == s[i..];
      ValidAfter(s[w..], i - w);
    }
  }

  lemma {:induction false} ValidThen(s: string, c: char)
    requires ValidUtf8(s) && c < '\U{80}'
    ensures ValidUtf8(s + [c])
    decreases |s|
  {
    if s == "" {
      assert s + [c] == [c] && [c][1..] == "";
    } else {
      var w := Width(s);
      WidthOfPrefix(s, [c]);
      assert (s + [c])[w..] == s[w..] + [c];
      ValidThen(s[w..], c);
    }
  }

  /** Matching from the start is matching the whole with a star appended. */
  lemma {:induction false} PrefixIsTrailingStar(pattern: string, s: string)
    ensures (exists n :: 0 <= n <= |s| && Wild(pattern, s[..n])) <==> Wild(pattern + "*", s)
    decreases |pattern|
  {
    var longer := pattern + "*";
    if pattern == "" {
      assert longer[1..] == "" && s[|s|..] == "" && s[..0] == "";
      assert Wild("", s[|s|..]);
    } else {
      assert longer[0] == pattern[0] && longer[1..] == pattern[1..] + "*";
      if pattern[0] == '*' {
        StarPrefix(pattern, s);
      } else if s != "" && s[0] == pattern[0] {
        PrefixIsTrailingStar(pattern[1..], s[1..]);
        forall n | 0 < n <= |s|
          ensures s[..n][1..] == s[1..][..n - 1]
        {
        }
        if n :| 0 <= n <= |s[1..]| && Wild(pattern[1..], s[1..][..n]) {
          assert s[..n + 1][1..] == s[1..][..n] && s[..n + 1][0] == s[0];
          assert Wild(pattern, s[..n + 1]);
        }
      }
    }
  }

  lemma {:induction false} StarPrefix(pattern: string, s: string)
    requires pattern != "" && pattern[0] == '*'
    ensures (exists n :: 0 <= n <= |s| && Wild(pattern, s[..n])) <==> Wild(pattern + "*", s)
    decreases |pattern|, 0
  {
    var rest := pattern[1..];
    assert (pattern + "*")[1..] == rest + "*";
    if n :| 0 <= n <= |s| && Wild(pattern, s[..n]) {
      var i :| 0 <= i <= n && Wild(rest, s[..n][i..]);
      assert s[..n][i..] == s[i..][..n - i];
      PrefixIsTrailingStar(rest, s[i..]);
    }
    if Wild(pattern + "*", s) {
      var i :| 0 <= i <= |s| && Wild(rest + "*", s[i..]);
      PrefixIsTrailingStar(rest, s[i..]);
      var n :| 0 <= n <= |s[i..]| && Wild(rest, s[i..][..n]);
      assert s[i..][..n] == s[..i + n][i..];
      assert Wild(pattern, s[..i + n]);
    }
  }

  /** A compiled rule matches exactly the wildcard pattern, with a star implied at its end unless the
      value ends in a dollar sign. */
  lemma {:induction false} CompiledMatchesWildcard(allow: bool, value: string, path: string)
    requires ValidUtf8(value) && ValidUtf8(path)
    ensures MatchesPattern(Compile(allow, value).pattern, path) <==>
      WildCharacters(if Anchored(value) then PatternValue(value) else value + "*", path)
  {
    hide Wild, WildCharacters, Generates, ValidUtf8;
    if Anchored(value) {
      SplitGeneratesWild(PatternValue(value), path);
      CutAtCharacter(value, |value| - 1);
      OctetsMatchLikeCharacters(PatternValue(value), path);
    } else {
      forall n | 0 <= n <= |path|
        ensures Generates(Split(value, '*'), path[..n]) <==> Wild(value, path[..n])
      {
        SplitGeneratesWild(value, path[..n]);
      }
      PrefixIsTrailingStar(value, path);
      ValidThen(value, '*');
      OctetsMatchLikeCharacters(value + "*", path);
    }
  }

  lemma {:induction false} WithoutStarsCounts(pattern: string)
    ensures |WithoutStars(pattern)| == |pattern| - multiset(pattern)['*']
  {
    if pattern != "" {
      WithoutStarsCounts(pattern[..|pattern| - 1]);
      assert pattern == pattern[..|pattern| - 1] + [pattern[|pattern| - 1]];
    }
  }

  /** A rule's specificity counts the octets of its value other than stars and the final dollar sign. */
  lemma {:induction false} SpecificityCountsLiterals(allow: bool, value: string)
    ensures Compile(allow, value).allow == allow
    ensures Compile(allow, value).specificity ==
      |value| - multiset(value)['*'] - if value != "" && value[|value| - 1] == '$' then 1 else 0
  {
    WithoutStarsCounts(PatternValue(value));
    if Anchored(value) { assert value == PatternValue(value) + ['$']; }
  }

  // ----- Lines -----

  datatype Line = AgentLine(agent: string) | RuleLine(allow: bool, value: string) | OtherLine

  function Before(s: string, c: char): string { Split(s, c)[0] }

  /** strings.ToLower and strings.TrimSpace on octets. */
  datatype Strings = Strings(lower: string -> string, trim: string -> string)

  function ParseLine(t: Strings, text: string): Line
  {
    var line := Before(text, '#');
    if ':' !in line then OtherLine
    else
      var name := Before(line, ':');
      assert |name| < |line| by { SplitShorter(line, ':'); }
      var field := t.lower(t.trim(name));
      var value := t.trim(line[|name| + 1..]);
      if value == "" then OtherLine
      else if field == "user-agent" then AgentLine(t.lower(value))
      else if field == "allow" || field == "disallow" then RuleLine(field == "allow", value)
      else OtherLine
  }

  lemma {:induction false} SplitShorter(s: string, c: char)
    requires c in s
    ensures |Split(s, c)[0]| < |s|
  {
    if s[0] != c {
      assert s == [s[0]] + s[1..];
      SplitShorter(s[1..], c);
    }
  }

  const BYTE_ORDER_MARK := "\U{ef}\U{bb}\U{bf}"

  function WithoutMark(body: string): string
  {
    if BYTE_ORDER_MARK <= body then body[|BYTE_ORDER_MARK|..] else body
  }

  function WithoutReturn(line: string): string
  {
    if line != "" && line[|line| - 1] == '\r' then line[..|line| - 1] else line
  }

  function ParseLines(t: Strings, body: string): seq<Line>
  {
    var lines := Split(WithoutMark(body), '\n');
    seq(|lines|, i requires 0 <= i < |lines| => ParseLine(t, WithoutReturn(lines[i])))
  }

  /** A comment is as if it were not there. */
  lemma {:induction false} CommentsAreSkipped(t: Strings, text: string, comment: string)
    requires '#' !in text
    ensures ParseLine(t, text + ['#'] + comment) == ParseLine(t, text)
  {
    SplitFirst(text, comment, '#');
    SplitNone(text, '#');
  }

  /** A file of these lines, each ended in the Unix or in the DOS way. */
  function FileOf(lines: seq<string>, dos: bool): string
  {
    if lines == [] then "" else lines[0] + (if dos then ['\r'] else []) + ['\n'] + FileOf(lines[1..], dos)
  }

  /** Text lines: no line break inside, and no carriage return at the end. */
  predicate PlainLines(lines: seq<string>)
  {
    forall line <- lines :: '\n' !in line && WithoutReturn(line) == line
  }

  lemma {:induction false} OneLineMore(line: string, dos: bool, rest: string)
    requires '\n' !in line && WithoutReturn(line) == line
    ensures var first := line + if dos then ['\r'] else [];
      Split(first + ['\n'] + rest, '\n') == [first] + Split(rest, '\n') && WithoutReturn(first) == line
  {
    var first := line + if dos then ['\r'] else [];
    SplitFirst(first, rest, '\n');
  }

  lemma {:induction false} FileSplits(lines: seq<string>, dos: bool)
    requires PlainLines(lines)
    ensures var parts := Split(FileOf(lines, dos), '\n');
      && |parts| == |lines| + 1 && parts[|lines|] == ""
      && forall i :: 0 <= i < |lines| ==> WithoutReturn(parts[i]) == lines[i]
  {
    if lines != [] {
      var first, rest := lines[0] + if dos then ['\r'] else [], lines[1..];
      FirstIsPlain(lines);
      assert FileOf(lines, dos) == first + ['\n'] + FileOf(rest, dos);
      hide Split, FileOf, WithoutReturn, PlainLines;
      FileSplits(rest, dos);
      OneLineMore(lines[0], dos, FileOf(rest, dos));
      var parts, more := Split(FileOf(lines, dos), '\n'), Split(FileOf(rest, dos), '\n');
      assert parts == [first] + more;
      forall i | 0 < i < |lines|
        ensures WithoutReturn(parts[i]) == lines[i]
      {
        assert parts[i] == more[i - 1] && lines[i] == rest[i - 1];
      }
    }
  }

  lemma {:induction false} FirstIsPlain(lines: seq<string>)
    requires PlainLines(lines) && lines != []
    ensures '\n' !in lines[0] && WithoutReturn(lines[0]) == lines[0] && PlainLines(lines[1..])
  {
    hide WithoutReturn;
    assert lines[0] in lines;
    assert forall line <- lines[1..] :: line in lines;
  }

  /** A file is read line by line, whichever way its lines end and with or without a byte order mark. */
  lemma {:induction false} LinesAreRead(t: Strings, lines: seq<string>, dos: bool, mark: bool)
    requires PlainLines(lines) && (!mark ==> !(BYTE_ORDER_MARK <= FileOf(lines, dos)))
    ensures var read := ParseLines(t, (if mark then BYTE_ORDER_MARK else "") + FileOf(lines, dos));
      && |read| == |lines| + 1 && read[|lines|] == OtherLine
      && forall i :: 0 <= i < |lines| ==> read[i] == ParseLine(t, lines[i])
  {
    hide FileOf, ParseLine;
    var body := (if mark then BYTE_ORDER_MARK else "") + FileOf(lines, dos);
    assert WithoutMark(body) == FileOf(lines, dos);
    FileSplits(lines, dos);
    BlankLine(t);
  }

  lemma {:induction false} BlankLine(t: Strings)
    ensures ParseLine(t, "") == OtherLine
  {
    SplitNone("", '#');
  }

  // ----- Groups -----

  datatype Group = Group(agents: seq<string>, rules: seq<Rule>)

  ghost predicate Names(groups: seq<Group>, agent: string)
  {
    exists g <- groups :: agent in g.agents
  }

  ghost predicate Pairs(groups: seq<Group>, agent: string, r: Rule)
  {
    exists g <- groups :: agent in g.agents && r in g.rules
  }

  predicate IsAgent(lines: seq<Line>, j: nat, agent: string)
  {
    j < |lines| && lines[j] == AgentLine(agent)
  }

  predicate IsRule(lines: seq<Line>, i: nat, r: Rule)
  {
    i < |lines| && lines[i].RuleLine? && Compile(lines[i].allow, lines[i].value) == r
  }

  /** An agent line below a rule line closes the group the rule belongs to. */
  predicate Closes(lines: seq<Line>, a: nat, b: nat)
  {
    a < b < |lines| && lines[a].RuleLine? && lines[b].AgentLine?
  }

  /** The group of agent line j has not been closed before line k. */
  ghost predicate Open(lines: seq<Line>, j: nat, k: nat)
  {
    forall a: nat, b: nat :: Closes(lines, a, b) && j < a ==> k <= b
  }

  /** Within the first k lines some rule line stands in the same group as an agent line above it. */
  ghost predicate Governs(lines: seq<Line>, k: nat, agent: string, r: Rule)
  {
    exists j: nat, i: nat :: j < i < k && IsAgent(lines, j, agent) && IsRule(lines, i, r) && Open(lines, j, i)
  }

  ghost predicate Declares(lines: seq<Line>, k: nat, agent: string)
  {
    exists j: nat :: j < k && IsAgent(lines, j, agent)
  }

  ghost predicate StillOpen(lines: seq<Line>, k: nat, agent: string)
  {
    exists j: nat :: j < k && IsAgent(lines, j, agent) && Open(lines, j, k)
  }

  /** Line a is a rule with no agent line between it and line k. */
  predicate TrailingRule(lines: seq<Line>, a: nat, k: nat)
  {
    a < k <= |lines| && lines[a].RuleLine? && forall b :: a < b < k ==> !lines[b].AgentLine?
  }

  ghost predicate RulesTrail(lines: seq<Line>, k: nat)
  {
    exists a: nat :: TrailingRule(lines, a, k)
  }

  predicate NoAgents(lines: seq<Line>, k: nat)
    requires k <= |lines|
  {
    forall j :: 0 <= j < k ==> !lines[j].AgentLine?
  }

  /** What the parser has built from the first k lines. */
  ghost predicate Built(lines: seq<Line>, k: nat, groups: seq<Group>, hasRules: bool)
    requires k <= |lines|
  {
    && (forall agent :: Names(groups, agent) <==> Declares(lines, k, agent))
    && (forall agent, r :: Pairs(groups, agent, r) <==> Governs(lines, k, agent, r))
    && (groups == [] <==> NoAgents(lines, k))
    && (hasRules <==> groups != [] && RulesTrail(lines, k))
    && (groups != [] ==>
          var last := groups[|groups| - 1];
          && (hasRules <==> last.rules != [])
          && (forall agent :: agent in last.agents <==> StillOpen(lines, k, agent)))
  }

  function AddAgent(groups: seq<Group>, hasRules: bool, agent: string): seq<Group>
  {
    if groups == [] || hasRules then groups + [Group([agent], [])]
    else
      var n := |groups| - 1;
      groups[n := groups[n].(agents := groups[n].agents + [agent])]
  }

  function AddRule(groups: seq<Group>, r: Rule): seq<Group>
  {
    if groups == [] then groups
    else
      var n := |groups| - 1;
      groups[n := groups[n].(rules := groups[n].rules + [r])]
  }

  lemma {:induction false} OpenStep(lines: seq<Line>, j: nat, k: nat)
    requires j < k < |lines|
    ensures Open(lines, j, k + 1) <==>
      Open(lines, j, k) && !(lines[k].AgentLine? && exists a: nat :: j < a < k && lines[a].RuleLine?)
  {
    if Open(lines, j, k) && lines[k].AgentLine? && exists a: nat :: j < a < k && lines[a].RuleLine? {
      var a: nat :| j < a < k && lines[a].RuleLine?;
      assert Closes(lines, a, k);
    }
  }

  lemma {:induction false} LastPairs(groups: seq<Group>, last: Group, agent: string, r: Rule)
    ensures Pairs(groups + [last], agent, r) <==> Pairs(groups, agent, r) || (agent in last.agents && r in last.rules)
  {
    assert forall g :: g in groups + [last] <==> g in groups || g == last;
  }

  lemma {:induction false} LastNames(groups: seq<Group>, last: Group, agent: string)
    ensures Names(groups + [last], agent) <==> Names(groups, agent) || agent in last.agents
  {
    assert forall g :: g in groups + [last] <==> g in groups || g == last;
  }

  lemma {:induction false} GovernsStep(lines: seq<Line>, k: nat, agent: string, r: Rule)
    requires k < |lines|
    ensures Governs(lines, k + 1, agent, r) <==>
      Governs(lines, k, agent, r) || (IsRule(lines, k, r) && StillOpen(lines, k, agent))
  {
    if Governs(lines, k + 1, agent, r) {
      var j: nat, i: nat :| j < i < k + 1 && IsAgent(lines, j, agent) && IsRule(lines, i, r) && Open(lines, j, i);
      assert i < k || (i == k && StillOpen(lines, k, agent));
    }
  }

  /** A new agent line keeps earlier agents of the group unless rules have begun. */
  lemma {:induction false} StillOpenAtAgent(lines: seq<Line>, k: nat, groups: seq<Group>, hasRules: bool, agent: string)
    requires k < |lines| && Built(lines, k, groups, hasRules) && lines[k].AgentLine?
    ensures StillOpen(lines, k + 1, agent) <==>
      agent == lines[k].agent || (!hasRules && StillOpen(lines, k, agent))
  {
    if agent == lines[k].agent {
      assert IsAgent(lines, k, agent) && Open(lines, k, k + 1);
    }
    forall j: nat | j < k && IsAgent(lines, j, agent)
      ensures Open(lines, j, k + 1) <==> Open(lines, j, k) && !hasRules
    {
      OpenStep(lines, j, k);
      if hasRules {
        var a: nat :| TrailingRule(lines, a, k);
        assert j < a;
      } else if Open(lines, j, k) && exists a: nat :: j < a < k && lines[a].RuleLine? {
        var a: nat :| j < a < k && lines[a].RuleLine?;
        assert !TrailingRule(lines, a, k);
        var b: nat :| a < b < k && lines[b].AgentLine?;
        assert Closes(lines, a, b);
      }
    }
  }

  lemma {:induction false} AgentLineBuilds(lines: seq<Line>, k: nat, groups: seq<Group>, hasRules: bool)
    requires k < |lines| && Built(lines, k, groups, hasRules) && lines[k].AgentLine?
    ensures Built(lines, k + 1, AddAgent(groups, hasRules, lines[k].agent), false)
  {
    var name := lines[k].agent;
    var groups' := AddAgent(groups, hasRules, name);
    var n := |groups'| - 1;
    assert groups' == groups'[..n] + [groups'[n]];
    var joins := groups != [] && !hasRules;
    if joins { assert groups == groups[..n] + [groups[n]]; } else { assert groups'[..n] == groups; }
    assert IsAgent(lines, k, name);
    forall agent
      ensures Names(groups', agent) <==> Declares(lines, k + 1, agent)
      ensures agent in groups'[n].agents <==> StillOpen(lines, k + 1, agent)
    {
      LastNames(groups'[..n], groups'[n], agent);
      if joins { LastNames(groups[..n], groups[n], agent); }
      StillOpenAtAgent(lines, k, groups, hasRules, agent);
    }
    forall agent, r
      ensures Pairs(groups', agent, r) <==> Governs(lines, k + 1, agent, r)
    {
      GovernsStep(lines, k, agent, r);
      LastPairs(groups'[..n], groups'[n], agent, r);
      if joins { LastPairs(groups[..n], groups[n], agent, r); }
    }
    assert !RulesTrail(lines, k + 1);
    assert !NoAgents(lines, k + 1);
  }

  lemma {:induction false} RuleLineBuilds(lines: seq<Line>, k: nat, groups: seq<Group>, hasRules: bool)
    requires k < |lines| && Built(lines, k, groups, hasRules) && lines[k].RuleLine?
    ensures Built(lines, k + 1, AddRule(groups, Compile(lines[k].allow, lines[k].value)), groups != [])
  {
    var rule := Compile(lines[k].allow, lines[k].value);
    var groups' := AddRule(groups, rule);
    OpenAcross(lines, k);
    var n := |groups| - 1;
    if groups != [] {
      assert groups == groups[..n] + [groups[n]] && groups' == groups[..n] + [groups'[n]];
    }
    forall agent
      ensures Names(groups', agent) <==> Declares(lines, k + 1, agent)
    {
      if groups != [] {
        LastNames(groups[..n], groups[n], agent);
        LastNames(groups[..n], groups'[n], agent);
      }
    }
    forall agent, r
      ensures Pairs(groups', agent, r) <==> Governs(lines, k + 1, agent, r)
    {
      GovernsStep(lines, k, agent, r);
      if groups != [] {
        LastPairs(groups[..n], groups[n], agent, r);
        LastPairs(groups[..n], groups'[n], agent, r);
      }
    }
    assert TrailingRule(lines, k, k + 1);
    assert RulesTrail(lines, k + 1);
  }

  lemma {:induction false} OpenAcross(lines: seq<Line>, k: nat)
    requires k < |lines| && !lines[k].AgentLine?
    ensures forall agent :: StillOpen(lines, k + 1, agent) <==> StillOpen(lines, k, agent)
    ensures forall agent :: Declares(lines, k + 1, agent) <==> Declares(lines, k, agent)
    ensures lines[k].OtherLine? ==> (RulesTrail(lines, k + 1) <==> RulesTrail(lines, k))
    ensures NoAgents(lines, k + 1) <==> NoAgents(lines, k)
  {
    forall j: nat | j < k
      ensures Open(lines, j, k + 1) <==> Open(lines, j, k)
    {
      OpenStep(lines, j, k);
    }
    if lines[k].OtherLine? {
      if RulesTrail(lines, k + 1) {
        var a: nat :| TrailingRule(lines, a, k + 1);
        assert TrailingRule(lines, a, k);
      }
      if RulesTrail(lines, k) {
        var a: nat :| TrailingRule(lines, a, k);
        assert TrailingRule(lines, a, k + 1);
      }
    }
  }

  lemma {:induction false} OtherLineBuilds(lines: seq<Line>, k: nat, groups: seq<Group>, hasRules: bool)
    requires k < |lines| && Built(lines, k, groups, hasRules) && lines[k].OtherLine?
    ensures Built(lines, k + 1, groups, hasRules)
  {
    OpenAcross(lines, k);
    forall agent, r
      ensures Governs(lines, k + 1, agent, r) <==> Governs(lines, k, agent, r)
    {
      GovernsStep(lines, k, agent, r);
    }
  }

  /** A rule below an agent line whose value is not UTF-8: regexp.MustCompile panics on it. */
  ghost predicate Panics(lines: seq<Line>, k: nat)
  {
    exists i: nat :: i < k && PanicsAt(lines, i)
  }

  predicate PanicsAt(lines: seq<Line>, i: nat)
  {
    i < |lines| && lines[i].RuleLine? && !ValidUtf8(lines[i].value) && !NoAgents(lines, i)
  }

  function LowerAscii(s: string): (r: string)
    ensures |r| == |s|
  {
    seq(|s|, i requires 0 <= i < |s| => if 'A' <= s[i] <= 'Z' then s[i] + ' ' else s[i])
  }

  /** What is used of the two functions: ASCII is lower-cased letter by letter, a space in front is
      trimmed, and nothing is trimmed off a text that begins and ends with a visible ASCII character. */
  ghost predicate Lawful(t: Strings)
  {
    && (forall s: string :: (forall c <- s :: c < '\U{80}') ==> t.lower(s) == LowerAscii(s))
    && (forall s: string :: t.trim(" " + s) == t.trim(s))
    && (forall s: string :: s != "" && '!' <= s[0] <= '~' && '!' <= s[|s| - 1] <= '~' ==> t.trim(s) == s)
  }

  lemma {:induction false} SomeStringsAreLawful()
    ensures Lawful(Strings(LowerAscii, s => Trim(s, c => c == ' ')))
  {
    var t := Strings(LowerAscii, s => Trim(s, c => c == ' '));
    forall s: string
      ensures t.trim(" " + s) == t.trim(s)
    {
      assert (" " + s)[1..] == s;
    }
  }

  /** A line of a name, a colon, a space and a value. */
  lemma {:induction false} PlainLine(t: Strings, name: string, value: string)
    requires Lawful(t) && name != "" && value != ""
    requires forall c <- name :: '!' <= c <= '~' && c != ':' && c != '#'
    requires '!' <= value[0] <= '~' && '!' <= value[|value| - 1] <= '~' && ':' !in value && '#' !in value
    ensures ParseLine(t, name + [':'] + (" " + value)) ==
      if LowerAscii(name) == "user-agent" then AgentLine(t.lower(value))
      else if LowerAscii(name) == "allow" || LowerAscii(name) == "disallow" then RuleLine(LowerAscii(name) == "allow", value)
      else OtherLine
  {
    hide Split, LowerAscii, Before;
    var text := name + [':'] + (" " + value);
    LineParts(name, value);
    assert name[0] in name && name[|name| - 1] in name;
    assert t.trim(" " + value) == t.trim(value) == value && t.trim(name) == name && t.lower(name) == LowerAscii(name);
    hide Lawful;
  }

  lemma {:induction false} LineParts(name: string, value: string)
    requires ':' !in name && '#' !in name && ':' !in value && '#' !in value
    ensures var text := name + [':'] + (" " + value);
      && ':' in text && Before(text, '#') == text && Before(text, ':') == name && text[|name| + 1..] == " " + value
  {
    hide Split;
    var text := name + [':'] + (" " + value);
    assert text[|name|] == ':';
    SplitNone(text, '#');
    SplitOnce(name, " " + value, ':');
  }

  /** A file of two lines whose rule has one Latin-1 letter. */
  function LatinFile(): string { "User-agent: *" + ['\n'] + "Disallow: /caf\U{e9}/" }

  lemma {:induction false} LatinLines(t: Strings)
    requires Lawful(t)
    ensures ParseLines(t, LatinFile()) == [AgentLine("*"), RuleLine(false, "/caf\U{e9}/")]
  {
    hide Split, LowerAscii, ParseLine, Lawful, WithoutReturn;
    LatinSplits();
    AgentParses(t);
    RuleParses(t);
  }

  lemma {:induction false} LatinSplits()
    ensures Split(WithoutMark(LatinFile()), '\n') == ["User-agent: *", "Disallow: /caf\U{e9}/"]
    ensures WithoutReturn("User-agent: *") == "User-agent: *" && WithoutReturn("Disallow: /caf\U{e9}/") == "Disallow: /caf\U{e9}/"
  {
    hide Split;
    assert WithoutMark(LatinFile()) == LatinFile() by { assert LatinFile()[0] == 'U'; }
    SplitOnce("User-agent: *", "Disallow: /caf\U{e9}/", '\n');
  }

  lemma {:induction false} AgentParses(t: Strings)
    requires Lawful(t)
    ensures ParseLine(t, "User-agent: *") == AgentLine("*")
  {
    hide ParseLine, Split, LowerAscii, Lawful;
    assert "User-agent: *" == "User-agent" + [':'] + (" " + "*");
    StarIsLower(t);
    NamesInLowerCase();
    PlainLine(t, "User-agent", "*");
  }

  lemma {:induction false} RuleParses(t: Strings)
    requires Lawful(t)
    ensures ParseLine(t, "Disallow: /caf\U{e9}/") == RuleLine(false, "/caf\U{e9}/")
  {
    hide ParseLine, Split, LowerAscii, Lawful;
    assert "Disallow: /caf\U{e9}/" == "Disallow" + [':'] + (" " + "/caf\U{e9}/");
    NamesInLowerCase();
    PlainLine(t, "Disallow", "/caf\U{e9}/");
  }

  lemma {:induction false} StarIsLower(t: Strings)
    requires Lawful(t)
    ensures t.lower("*") == "*"
  {
    assert forall c <- "*" :: c == '*';
    assert LowerAscii("*") == "*";
  }

  lemma {:induction false} NamesInLowerCase()
    ensures LowerAscii("User-agent") == "user-agent" && LowerAscii("Disallow") == "disallow"
  {
  }

  /** One Latin-1 letter in a rule is enough. */
  lemma {:induction false} LatinLetterPanics(t: Strings)
    requires Lawful(t)
    ensures var lines := ParseLines(t, LatinFile()); Panics(lines, |lines|)
  {
    hide ParseLines, LatinFile, ValidUtf8, Lawful;
    LatinLines(t);
    var lines := ParseLines(t, LatinFile());
    LatinIsNotUtf8();
    assert lines[0].AgentLine? && PanicsAt(lines, 1);
  }

  lemma {:induction false} LatinIsNotUtf8()
    ensures !ValidUtf8("/caf\U{e9}/")
  {
    var value := "/caf\U{e9}/";
    assert value[1..] == "caf\U{e9}/" && "caf\U{e9}/"[1..] == "af\U{e9}/" && "af\U{e9}/"[1..] == "f\U{e9}/" && "f\U{e9}/"[1..] == "\U{e9}/";
    assert !ValidUtf8("\U{e9}/");
    assert !ValidUtf8("f\U{e9}/") && !ValidUtf8("af\U{e9}/") && !ValidUtf8("caf\U{e9}/");
  }

  /** The parser's loop with its current group and hasRules flag; none when it panics. */
  method ParseGroups(lines: seq<Line>) returns (r: Option<seq<Group>>)
    ensures r.None? <==> Panics(lines, |lines|)
    ensures r.Some? ==> forall agent :: Names(r.value, agent) <==> Declares(lines, |lines|, agent)
    ensures r.Some? ==> forall agent, rule :: Pairs(r.value, agent, rule) <==> Governs(lines, |lines|, agent, rule)
  {
    var groups := [];
    var hasRules := false;
    for k := 0 to |lines|
      invariant Built(lines, k, groups, hasRules)
      invariant !Panics(lines, k)
    {
      assert PanicsAt(lines, k) <==> groups != [] && lines[k].RuleLine? && !ValidUtf8(lines[k].value);
      match lines[k]
      case AgentLine(agent) =>
        AgentLineBuilds(lines, k, groups, hasRules);
        groups := AddAgent(groups, hasRules, agent);
        hasRules := false;
      case RuleLine(allow, value) =>
        if groups != [] && !ValidUtf8(value) { return None; }
        RuleLineBuilds(lines, k, groups, hasRules);
        hasRules := groups != [];
        groups := AddRule(groups, Compile(allow, value));
      case OtherLine =>
        OtherLineBuilds(lines, k, groups, hasRules);
    }
    r := Some(groups);
  }

  // ----- The decision -----

  predicate Hits(r: Rule, path: string) { MatchesPattern(r.pattern, path) }

  /** r matches and no rule of the set that matches is more specific. */
  ghost predicate MostSpecific(rules: iset<Rule>, path: string, r: Rule)
  {
    r in rules && Hits(r, path) && forall other <- rules :: Hits(other, path) ==> other.specificity <= r.specificity
  }

  /** Allowed when nothing matches, or when an allow rule is among the most specific matches. */
  ghost predicate Permitted(rules: iset<Rule>, path: string)
  {
    (forall r <- rules :: !Hits(r, path)) || (exists r: Rule :: r.allow && MostSpecific(rules, path, r))
  }

  /** The rules of the groups naming the product token or, when no group does, of the star groups. */
  ghost function Applicable(groups: seq<Group>, token: string): iset<Rule>
  {
    var name := if Names(groups, token) then token else "*";
    iset r | Pairs(groups, name, r)
  }

  /** The same set read off the file: the rules standing under an agent line for the token. */
  ghost function ApplicableLines(lines: seq<Line>, token: string): iset<Rule>
  {
    var name := if Declares(lines, |lines|, token) then token else "*";
    iset r | Governs(lines, |lines|, name, r)
  }

  /** Refused when some matching disallow rule is more specific than every matching allow rule. */
  ghost predicate Refused(rules: iset<Rule>, path: string)
  {
    exists d: Rule :: d in rules && !d.allow && Hits(d, path)
      && forall a: Rule :: a in rules && a.allow && Hits(a, path) ==> a.specificity < d.specificity
  }

  method MatchingGroups(groups: seq<Group>, token: string) returns (matching: seq<Group>)
    ensures forall g :: g in matching <==> g in groups && (if Names(groups, token) then token else "*") in g.agents
  {
    var exact: seq<Group> := [];
    var wildcard: seq<Group> := [];
    for i := 0 to |groups|
      invariant forall g :: g in exact <==> g in groups[..i] && token in g.agents
      invariant token != "*" ==> forall g :: g in wildcard <==> g in groups[..i] && "*" in g.agents
      invariant token == "*" ==> wildcard == []
    {
      var group := groups[i];
      var agents := group.agents;
      ghost var exact0, wildcard0 := exact, wildcard;
      for k := 0 to |agents|
        invariant forall g :: g in exact <==> g in exact0 || (g == group && token in agents[..k])
        invariant token != "*" ==> forall g :: g in wildcard <==> g in wildcard0 || (g == group && "*" in agents[..k])
        invariant token == "*" ==> wildcard == []
      {
        assert agents[..k + 1] == agents[..k] + [agents[k]];
        if agents[k] == token {
          exact := exact + [group];
        } else if agents[k] == "*" {
          wildcard := wildcard + [group];
        }
      }
      assert agents[..|agents|] == agents;
      assert groups[..i + 1] == groups[..i] + [group];
    }
    assert groups[..|groups|] == groups;
    assert |exact| > 0 ==> exact[0] in exact;
    assert |exact| > 0 <==> Names(groups, token);
    matching := if |exact| > 0 then exact else wildcard;
  }

  /** best and allowed summarise the rules seen so far. */
  ghost predicate Tallied(seen: iset<Rule>, path: string, best: int, allowed: bool)
  {
    && best >= -1
    && (best == -1 ==> allowed && forall r <- seen :: !Hits(r, path))
    && (best >= 0 ==> exists r <- seen :: Hits(r, path) && r.specificity == best)
    && (forall r <- seen :: Hits(r, path) ==> r.specificity <= best)
    && (best >= 0 ==> (allowed <==> exists r <- seen :: Hits(r, path) && r.specificity == best && r.allow))
  }

  lemma {:induction false} TallyDecides(seen: iset<Rule>, path: string, best: int, allowed: bool)
    requires Tallied(seen, path, best, allowed)
    ensures allowed <==> Permitted(seen, path)
    ensures allowed <==> !Refused(seen, path)
  {
    hide MatchesPattern;
    if best >= 0 {
      var top :| top in seen && Hits(top, path) && top.specificity == best;
      if !allowed { assert !top.allow; }
      if allowed {
        var r :| r in seen && Hits(r, path) && r.specificity == best && r.allow;
        assert MostSpecific(seen, path, r);
      }
    }
  }

  lemma {:induction false} NothingTallied(path: string)
    ensures Tallied(iset{}, path, -1, true)
  {
  }

  lemma {:induction false} TallyStep(seen: iset<Rule>, path: string, best: int, allowed: bool, rule: Rule)
    requires Tallied(seen, path, best, allowed)
    ensures var wins := Hits(rule, path) && rule.specificity >= best && (rule.specificity > best || rule.allow);
      Tallied(seen + iset{rule}, path, if wins then rule.specificity else best, if wins then rule.allow else allowed)
  {
    hide MatchesPattern;
  }

  /** The scan over all rules of the matching groups. */
  method Allowed(groups: seq<Group>, token: string, path: string) returns (allowed: bool)
    ensures allowed <==> Permitted(Applicable(groups, token), path)
    ensures allowed <==> !Refused(Applicable(groups, token), path)
  {
    hide Hits, Tallied;
    var matching := MatchingGroups(groups, token);
    var best: int := -1;
    allowed := true;
    ghost var seen: iset<Rule> := iset{};
    NothingTallied(path);
    for i := 0 to |matching|
      invariant Tallied(seen, path, best, allowed)
      invariant forall r :: r in seen <==> exists g <- matching[..i] :: r in g.rules
    {
      var rules := matching[i].rules;
      ghost var seen0 := seen;
      for k := 0 to |rules|
        invariant Tallied(seen, path, best, allowed)
        invariant forall r :: r in seen <==> r in seen0 || r in rules[..k]
      {
        var rule := rules[k];
        TallyStep(seen, path, best, allowed, rule);
        assert rules[..k + 1] == rules[..k] + [rule];
        if Hits(rule, path) && rule.specificity >= best && (rule.specificity > best || rule.allow) {
          best := rule.specificity;
          allowed := rule.allow;
        }
        seen := seen + iset{rule};
      }
      assert rules[..|rules|] == rules;
      assert matching[..i + 1] == matching[..i] + [matching[i]];
    }
    assert matching[..|matching|] == matching;
    TallyDecides(seen, path, best, allowed);
    assert seen == Applicable(groups, token);
  }

  /** The whole decision on a fetched file; none when parsing it panics. */
  method Decide(t: Strings, body: string, token: string, path: string) returns (r: Option<bool>)
    ensures var lines := ParseLines(t, body);
      && (r.None? <==> Panics(lines, |lines|))
      && (r.Some? ==> (r.value <==> Permitted(ApplicableLines(lines, t.lower(token)), path)))
      && (r.Some? ==> (r.value <==> !Refused(ApplicableLines(lines, t.lower(token)), path)))
  {
    var lines := ParseLines(t, body);
    var groups := ParseGroups(lines);
    if groups.None? { return None; }
    var allowed := Allowed(groups.value, t.lower(token), path);
    assert Applicable(groups.value, t.lower(token)) == ApplicableLines(lines, t.lower(token));
    r := Some(allowed);
  }

  /** The star's rule binds only the agents the file does not name, the other rule only its agent, and
      each binds exactly when it forbids and matches. */
  lemma {:induction false} NamedGroupReplacesStar(
      agent: string, star: Line, own: Line, token: string, path: string)
    requires star.RuleLine? && own.RuleLine? && agent != "*"
    ensures var lines := [AgentLine("*"), star, AgentLine(agent), own];
      var bound := if token == agent then own else star;
      Refused(ApplicableLines(lines, token), path) <==>
        !bound.allow && MatchesPattern(Compile(bound.allow, bound.value).pattern, path)
  {
    hide MatchesPattern, Compile;
    var lines := [AgentLine("*"), star, AgentLine(agent), own];
    var name, bound, k := if token == agent then token else "*", if token == agent then own else star, if token == agent then 3 else 1;
    assert IsAgent(lines, 0, "*") && IsAgent(lines, 2, agent);
    forall r: Rule
      ensures Governs(lines, 4, name, r) <==> r == Compile(bound.allow, bound.value)
    {
      if Governs(lines, 4, name, r) {
        var j: nat, i: nat :| j < i < 4 && IsAgent(lines, j, name) && IsRule(lines, i, r) && Open(lines, j, i);
        assert Closes(lines, 1, 2);
      }
      if r == Compile(bound.allow, bound.value) {
        assert IsAgent(lines, k - 1, name) && IsRule(lines, k, r);
        assert Open(lines, k - 1, k);
      }
    }
    SpecificityCountsLiterals(bound.allow, bound.value);
    assert Declares(lines, 4, token) ==> name == token || token == "*";
    assert Compile(bound.allow, bound.value) in ApplicableLines(lines, token);
  }

  /** The same agents and the same rules, in any order. */
  predicate SameMembers(g: Group, h: Group)
  {
    multiset(g.agents) == multiset(h.agents) && multiset(g.rules) == multiset(h.rules)
  }

  ghost predicate Covers(a: seq<Group>, b: seq<Group>)
  {
    forall g <- b :: exists h <- a :: SameMembers(g, h)
  }

  lemma {:induction false} NamesCarryOver(a: seq<Group>, b: seq<Group>, agent: string)
    requires Covers(b, a) && Names(a, agent)
    ensures Names(b, agent)
  {
    var g :| g in a && agent in g.agents;
    var h :| h in b && SameMembers(g, h);
    assert agent in multiset(g.agents) && agent in multiset(h.agents);
  }

  lemma {:induction false} PairsCarryOver(a: seq<Group>, b: seq<Group>, agent: string, r: Rule)
    requires Covers(b, a) && Pairs(a, agent, r)
    ensures Pairs(b, agent, r)
  {
    var g :| g in a && agent in g.agents && r in g.rules;
    var h :| h in b && SameMembers(g, h);
    assert agent in multiset(g.agents) && agent in multiset(h.agents);
    assert r in multiset(g.rules) && r in multiset(h.rules);
  }

  /** Reordering groups, agents within a group or rules within a group changes no decision. */
  lemma {:induction false} OrderDoesNotMatter(a: seq<Group>, b: seq<Group>, token: string, path: string)
    requires Covers(a, b) && Covers(b, a)
    ensures Permitted(Applicable(a, token), path) <==> Permitted(Applicable(b, token), path)
  {
    hide Names, Pairs, Permitted, Covers;
    if Names(a, token) { NamesCarryOver(a, b, token); }
    if Names(b, token) { NamesCarryOver(b, a, token); }
    var name := if Names(a, token) then token else "*";
    forall r
      ensures Pairs(a, name, r) <==> Pairs(b, name, r)
    {
      if Pairs(a, name, r) { PairsCarryOver(a, b, name, r); }
      if Pairs(b, name, r) { PairsCarryOver(b, a, name, r); }
    }
    assert Applicable(a, token) == Applicable(b, token);
  }
}
