/** String helpers shared by the models: the Unicode tables the repository reads, and Go's
    strings.FieldsFunc, strings.Split, strings.Join and strings.TrimSpace. */
module Text {

  /** The parts of the Unicode tables the repository depends on. */
  datatype CharTable = CharTable(lower: char -> char, word: char -> bool, space: char -> bool)
  {
    /** What is assumed of the tables: lower-casing is idempotent, a lower-case ASCII letter is a
        letter and its own lower case, a hyphen is its own lower case and neither letter nor digit,
        and white space is neither a letter nor a digit nor one of the punctuation marks of
        selectors. */
    ghost predicate Valid()
    {
      && (forall c :: lower(lower(c)) == lower(c))
      && (forall c :: 'a' <= c <= 'z' ==> lower(c) == c && word(c))
      && (forall c :: space(c) ==> !word(c) && c != '#' && c != '.' && c != '-' && c != '_')
      && space(' ') && lower(' ') == ' '
      && lower('-') == '-' && !word('-')
    }
  }

  const ASCII := CharTable(c => c, c => 'a' <= c <= 'z', c => c == ' ')

  type Chars = t: CharTable | t.Valid() witness ASCII

  predicate AllChars(s: string, p: char -> bool)
  {
    forall i :: 0 <= i < |s| ==> p(s[i])
  }

  /** The number of leading characters of s satisfying p. */
  function Run(s: string, p: char -> bool): (n: nat)
    ensures n <= |s| && AllChars(s[..n], p)
    ensures n < |s| ==> !p(s[n])
  {
    if s == "" || !p(s[0]) then 0 else 1 + Run(s[1..], p)
  }

  /** strings.FieldsFunc: the maximal runs of characters satisfying p, in order. */
  function Fields(s: string, p: char -> bool): (fields: seq<string>)
    ensures forall i :: 0 <= i < |fields| ==> fields[i] != "" && AllChars(fields[i], p)
    decreases |s|
  {
    if s == "" then []
    else if !p(s[0]) then Fields(s[1..], p)
    else var n := Run(s, p); [s[..n]] + Fields(s[n..], p)
  }

  /** strings.Join with a single space. */
  function JoinWords(words: seq<string>): string
  {
    if words == [] then ""
    else if |words| == 1 then words[0]
    else words[0] + " " + JoinWords(words[1..])
  }

  /** strings.Split on one separator character. */
  function Split(s: string, sep: char): (parts: seq<string>)
    ensures parts != []
    ensures forall i :: 0 <= i < |parts| ==> sep !in parts[i]
    decreases |s|
  {
    if s == "" then [""]
    else if s[0] == sep then [""] + Split(s[1..], sep)
    else var rest := Split(s[1..], sep); [[s[0]] + rest[0]] + rest[1..]
  }

  /** Everything before the first separator is the first part. */
  lemma {:induction false} SplitFirst(a: string, b: string, c: char)
    requires c !in a
    ensures Split(a + [c] + b, c) == [a] + Split(b, c)
  {
    if a == "" {
      assert (a + [c] + b)[1..] == b;
    } else {
      assert (a + [c] + b)[1..] == a[1..] + [c] + b;
      SplitFirst(a[1..], b, c);
      assert [a[0]] + a[1..] == a;
    }
  }

  lemma {:induction false} SplitOnce(a: string, b: string, c: char)
    requires c !in a && c !in b
    ensures Split(a + [c] + b, c) == [a, b]
  {
    SplitFirst(a, b, c);
    SplitNone(b, c);
  }

  lemma {:induction false} SplitNone(s: string, c: char)
    requires c !in s
    ensures Split(s, c) == [s]
  {
    if s != "" {
      SplitNone(s[1..], c);
      assert [s[0]] + s[1..] == s;
    }
  }

  lemma {:induction false} SplitParts(s: string, c: char)
    ensures |Split(s, c)| == 1 <==> c !in s
    ensures |Split(s, c)| == 1 ==> Split(s, c)[0] == s
    ensures |Split(s, c)| == 2 ==> s == Split(s, c)[0] + [c] + Split(s, c)[1]
  {
    if s != "" {
      SplitParts(s[1..], c);
      assert s == [s[0]] + s[1..];
    }
  }

  /** strings.TrimSpace. */
  function Trim(s: string, space: char -> bool): string
    decreases |s|
  {
    if s == "" then s
    else if space(s[0]) then Trim(s[1..], space)
    else if space(s[|s| - 1]) then Trim(s[..|s| - 1], space)
    else s
  }

  lemma {:induction false} RunStops(word: string, rest: string, p: char -> bool)
    requires AllChars(word, p)
    requires rest == "" || !p(rest[0])
    ensures Run(word + rest, p) == |word|
  {
    if word == "" {
      assert word + rest == rest;
    } else {
      RunStops(word[1..], rest, p);
      assert (word + rest)[1..] == word[1..] + rest;
    }
  }

  /** Splitting joined words gives the words back. */
  lemma {:induction false} FieldsOfJoin(words: seq<string>, p: char -> bool)
    requires !p(' ')
    requires forall i :: 0 <= i < |words| ==> words[i] != "" && AllChars(words[i], p)
    ensures Fields(JoinWords(words), p) == words
  {
    if |words| == 1 {
      RunStops(words[0], "", p);
      assert words[0] + "" == words[0];
      assert words[0][..|words[0]|] == words[0];
    } else if |words| > 1 {
      var rest := " " + JoinWords(words[1..]);
      var all := words[0] + rest;
      assert JoinWords(words) == all;
      RunStops(words[0], rest, p);
      assert all[..|words[0]|] == words[0] && all[|words[0]|..] == rest;
      FieldsOfJoin(words[1..], p);
      assert rest[1..] == JoinWords(words[1..]);
    }
  }

  /** Joined words begin and end with characters of the words. */
  lemma {:induction false} JoinEnds(words: seq<string>, p: char -> bool)
    requires words != []
    requires forall i :: 0 <= i < |words| ==> words[i] != "" && AllChars(words[i], p)
    ensures var s := JoinWords(words); s != "" && p(s[0]) && p(s[|s| - 1])
  {
    if |words| > 1 {
      JoinEnds(words[1..], p);
    }
  }

  lemma {:induction false} TrimIsIdempotent(s: string, space: char -> bool)
    ensures Trim(Trim(s, space), space) == Trim(s, space)
    decreases |s|
  {
    if s != "" {
      if space(s[0]) {
        TrimIsIdempotent(s[1..], space);
      } else if space(s[|s| - 1]) {
        TrimIsIdempotent(s[..|s| - 1], space);
      }
    }
  }

  /** Trimming takes off the white space on both sides and nothing else. */
  lemma {:induction false} TrimStrips(front: string, core: string, back: string, space: char -> bool)
    requires AllChars(front, space) && AllChars(back, space)
    requires core == "" || (!space(core[0]) && !space(core[|core| - 1]))
    ensures Trim(front + core + back, space) == core
    decreases |front| + |back|
  {
    var s := front + core + back;
    if front != "" {
      assert s[1..] == front[1..] + core + back;
      TrimStrips(front[1..], core, back, space);
    } else if back != "" {
      assert s == core + back;
      if core == "" {
        assert s[1..] == "" + core + back[1..];
        TrimStrips("", core, back[1..], space);
      } else {
        assert s[..|s| - 1] == "" + core + back[..|back| - 1];
        TrimStrips("", core, back[..|back| - 1], space);
      }
    } else {
      assert s == core;
    }
  }

  lemma {:induction false} TrimIsEmptyIff(s: string, space: char -> bool)
    ensures Trim(s, space) == "" <==> AllChars(s, space)
    decreases |s|
  {
    if s != "" {
      if space(s[0]) {
        TrimIsEmptyIff(s[1..], space);
        assert AllChars(s, space) <==> AllChars(s[1..], space);
      } else if space(s[|s| - 1]) {
        TrimIsEmptyIff(s[..|s| - 1], space);
        assert s[..|s| - 1][0] == s[0];
      }
    }
  }
}
