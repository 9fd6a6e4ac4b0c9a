/** The edit distance behind fuzzy title matching (internal/opportunity/matcher.go, levenshtein).

    Distance is the recurrence the rolling-row loop fills in.  It is tied to an independent
    notion of cost, the length of a shortest chain of single-character edits, and shown to be a
    metric; those are the facts the matcher's thresholds rely on. */
module EditDistance {

  function Min(a: nat, b: nat): nat { if a <= b then a else b }

  function Max(a: nat, b: nat): nat { if a <= b then b else a }

  function Cost(a: char, b: char): nat { if a == b then 0 else 1 }

  function Init(s: string): string
    requires s != ""
  {
    s[..|s| - 1]
  }

  function Last(s: string): char
    requires s != ""
  {
    s[|s| - 1]
  }

  function Distance(a: string, b: string): nat
    decreases |a| + |b|
  {
    if |a| == 0 then |b|
    else if |b| == 0 then |a|
    else Min(Min(Distance(a, Init(b)) + 1, Distance(Init(a), b) + 1),
             Distance(Init(a), Init(b)) + Cost(Last(a), Last(b)))
  }

  // ----- The metric laws -----

  lemma {:induction false} Symmetric(a: string, b: string)
    ensures Distance(a, b) == Distance(b, a)
    decreases |a| + |b|
  {
    if a != "" && b != "" {
      Symmetric(a, Init(b));
      Symmetric(Init(a), b);
      Symmetric(Init(a), Init(b));
    }
  }

  lemma {:induction false} LengthBounds(a: string, b: string)
    ensures Distance(a, b) <= Max(|a|, |b|)
    ensures |a| <= |b| + Distance(a, b)
    ensures |b| <= |a| + Distance(a, b)
    decreases |a| + |b|
  {
    if a != "" && b != "" {
      LengthBounds(a, Init(b));
      LengthBounds(Init(a), b);
      LengthBounds(Init(a), Init(b));
    }
  }

  lemma {:induction false} ZeroIffEqual(a: string, b: string)
    ensures Distance(a, b) == 0 <==> a == b
    decreases |a| + |b|
  {
    if a != "" && b != "" {
      ZeroIffEqual(Init(a), Init(b));
      assert a == Init(a) + [Last(a)] && b == Init(b) + [Last(b)];
    }
  }

  lemma {:induction false} Triangle(a: string, b: string, c: string)
    ensures Distance(a, c) <= Distance(a, b) + Distance(b, c)
    decreases |a| + |b| + |c|
  {
    if a == "" || b == "" || c == "" {
      LengthBounds(a, b);
      LengthBounds(b, c);
      LengthBounds(a, c);
    } else {
      Triangle(Init(a), b, c);
      Triangle(a, b, Init(c));
      Triangle(a, Init(b), c);
      Triangle(a, Init(b), Init(c));
      Triangle(Init(a), Init(b), c);
      Triangle(Init(a), Init(b), Init(c));
    }
  }

  // ----- Edit chains: the reference notion of cost -----

  /** t arises from s by inserting, deleting or substituting one character. */
  ghost predicate OneEdit(s: string, t: string)
  {
    exists p: string, x: string, y: string, q: string ::
      SplitAs(s, p, x, q) && SplitAs(t, p, y, q) && |x| <= 1 && |y| <= 1
  }

  ghost predicate SplitAs(s: string, p: string, x: string, q: string) { s == p + x + q }

  /** A chain of single-character edits leading from a to b. */
  ghost predicate EditChain(chain: seq<string>, a: string, b: string)
  {
    && chain != []
    && chain[0] == a
    && chain[|chain| - 1] == b
    && forall i :: 0 < i < |chain| ==> OneEdit(chain[i - 1], chain[i])
  }

  lemma {:induction false} CommonSuffix(s: string, t: string, q: string)
    ensures Distance(s + q, t + q) <= Distance(s, t)
    decreases |q|
  {
    if q == "" {
      assert s + q == s && t + q == t;
    } else {
      CommonSuffix(s, t, Init(q));
      assert Init(s + q) == s + Init(q) && Init(t + q) == t + Init(q);
    }
  }

  lemma {:induction false} Neighbours(a: string, b: string)
    ensures a != "" ==> Distance(a, b) <= Distance(Init(a), b) + 1
    ensures b != "" ==> Distance(a, b) <= Distance(a, Init(b)) + 1
    ensures a != "" && b != "" ==> Distance(a, b) <= Distance(Init(a), Init(b)) + 1
  {
  }

  lemma {:induction false} LastCharCostsAtMostOne(s: string, t: string, p: string)
    requires s == p || (s != "" && Init(s) == p)
    requires t == p || (t != "" && Init(t) == p)
    ensures Distance(s, t) <= 1
  {
    ZeroIffEqual(p, p);
    Neighbours(s, t);
  }

  lemma {:induction false} OneEditCostsAtMostOne(s: string, t: string)
    requires OneEdit(s, t)
    ensures Distance(s, t) <= 1
  {
    var p, x, y, q :| SplitAs(s, p, x, q) && SplitAs(t, p, y, q) && |x| <= 1 && |y| <= 1;
    assert if x == "" then p + x == p else Init(p + x) == p;
    assert if y == "" then p + y == p else Init(p + y) == p;
    LastCharCostsAtMostOne(p + x, p + y, p);
    CommonSuffix(p + x, p + y, q);
  }

  /** No chain of edits is shorter than the distance. */
  lemma {:induction false} ChainsCostAtLeastDistance(chain: seq<string>, a: string, b: string)
    requires EditChain(chain, a, b)
    ensures Distance(a, b) <= |chain| - 1
    decreases |chain|
  {
    if |chain| == 1 {
      ZeroIffEqual(a, b);
    } else {
      var m := chain[|chain| - 2];
      assert OneEdit(chain[|chain| - 1 - 1], chain[|chain| - 1]);
      ChainsCostAtLeastDistance(chain[..|chain| - 1], a, m);
      OneEditCostsAtMostOne(m, b);
      Triangle(a, m, b);
    }
  }

  lemma {:induction false} OneEditUnderSuffix(s: string, t: string, c: char)
    requires OneEdit(s, t)
    ensures OneEdit(s + [c], t + [c])
  {
    var p, x, y, q :| SplitAs(s, p, x, q) && SplitAs(t, p, y, q) && |x| <= 1 && |y| <= 1;
    assert SplitAs(s + [c], p, x, q + [c]) && SplitAs(t + [c], p, y, q + [c]);
  }

  /** Every chain can be carried out in front of one more common character. */
  lemma {:induction false} ChainUnderSuffix(chain: seq<string>, a: string, b: string, c: char) returns (longer: seq<string>)
    requires EditChain(chain, a, b)
    ensures EditChain(longer, a + [c], b + [c]) && |longer| == |chain|
  {
    longer := seq(|chain|, i requires 0 <= i < |chain| => chain[i] + [c]);
    forall i | 0 < i < |longer|
      ensures OneEdit(longer[i - 1], longer[i])
    {
      OneEditUnderSuffix(chain[i - 1], chain[i], c);
    }
  }

  lemma {:induction false} EditOfLast(p: string, x: string, y: string, s: string, t: string)
    requires |x| <= 1 && |y| <= 1 && s == p + x && t == p + y
    ensures OneEdit(s, t)
  {
    assert SplitAs(s, p, x, "") && SplitAs(t, p, y, "");
  }

  lemma {:induction false} ChainThen(chain: seq<string>, a: string, m: string, b: string)
    requires EditChain(chain, a, m) && OneEdit(m, b)
    ensures EditChain(chain + [b], a, b)
  {
  }

  lemma {:induction false} ThenChain(a: string, m: string, chain: seq<string>, b: string)
    requires EditChain(chain, m, b) && OneEdit(a, m)
    ensures EditChain([a] + chain, a, b)
  {
    var longer := [a] + chain;
    forall i | 0 < i < |longer|
      ensures OneEdit(longer[i - 1], longer[i])
    {
      if i > 1 { assert OneEdit(chain[i - 1 - 1], chain[i - 1]); }
    }
  }

  lemma {:induction false} DistanceCases(a: string, b: string)
    ensures a == "" ==> Distance(a, b) == |b|
    ensures b == "" ==> Distance(a, b) == |a|
    ensures a == "" && b != "" ==> Distance(a, Init(b)) == |b| - 1
    ensures b == "" && a != "" ==> Distance(Init(a), b) == |a| - 1
    ensures a != "" && b != "" ==>
      Distance(a, b) == Distance(a, Init(b)) + 1 || Distance(a, b) == Distance(Init(a), b) + 1
      || Distance(a, b) == Distance(Init(a), Init(b)) + Cost(Last(a), Last(b))
  {
  }

  /** Some chain of edits is exactly as long as the distance. */
  lemma {:induction false} CheapestChain(a: string, b: string) returns (chain: seq<string>)
    ensures EditChain(chain, a, b) && |chain| - 1 == Distance(a, b)
    decreases |a| + |b|
  {
    DistanceCases(a, b);
    hide Distance, OneEdit;
    if a == "" && b == "" {
      chain := [a];
    } else if b != "" && (a == "" || Distance(a, b) == Distance(a, Init(b)) + 1) {
      var shorter := CheapestChain(a, Init(b));
      EditOfLast(Init(b), "", [Last(b)], Init(b), b);
      ChainThen(shorter, a, Init(b), b);
      chain := shorter + [b];
    } else if b == "" || Distance(a, b) == Distance(Init(a), b) + 1 {
      var shorter := CheapestChain(Init(a), b);
      EditOfLast(Init(a), [Last(a)], "", a, Init(a));
      ThenChain(a, Init(a), shorter, b);
      chain := [a] + shorter;
    } else {
      var inner := CheapestChain(Init(a), Init(b));
      assert a == Init(a) + [Last(a)] && b == Init(b) + [Last(b)];
      chain := ChainUnderSuffix(inner, Init(a), Init(b), Last(a));
      if Last(a) != Last(b) {
        EditOfLast(Init(b), [Last(a)], [Last(b)], Init(b) + [Last(a)], b);
        ChainThen(chain, a, Init(b) + [Last(a)], b);
        chain := chain + [b];
      }
    }
  }

  /** Distance is the least number of single-character edits turning a into b. */
  lemma {:induction false} DistanceIsLeastEditCount(a: string, b: string)
    ensures exists chain :: EditChain(chain, a, b) && |chain| - 1 == Distance(a, b)
    ensures forall chain :: EditChain(chain, a, b) ==> Distance(a, b) <= |chain| - 1
  {
    var shortest := CheapestChain(a, b);
    forall chain | EditChain(chain, a, b)
      ensures Distance(a, b) <= |chain| - 1
    {
      ChainsCostAtLeastDistance(chain, a, b);
    }
  }

  // ----- The rolling-row loop -----

  /** The first n cells of row i hold the distances of left's first i characters. */
  ghost predicate RowHolds(row: seq<nat>, left: string, right: string, i: nat, n: nat)
    requires n <= |row| && n <= |right| + 1 && i <= |left|
  {
    forall k :: 0 <= k < n ==> row[k] == Distance(left[..i], right[..k])
  }

  lemma {:induction false} FirstRow(row: seq<nat>, left: string, right: string)
    requires |row| == |right| + 1
    requires forall j :: 0 <= j < |row| ==> row[j] == j
    ensures RowHolds(row, left, right, 0, |row|)
  {
    assert left[..0] == "";
  }

  lemma {:induction false} FirstCell(left: string, right: string, i: nat)
    requires i <= |left|
    ensures Distance(left[..i], right[..0]) == i
  {
    assert right[..0] == "";
  }

  lemma {:induction false} Recurrence(a: string, b: string)
    requires a != "" && b != ""
    ensures Distance(a, b)
         == Min(Min(Distance(a, Init(b)) + 1, Distance(Init(a), b) + 1),
                Distance(Init(a), Init(b)) + Cost(Last(a), Last(b)))
  {
    hide Min, Init, Last, Cost;
  }

  lemma {:induction false} CellFromNeighbours(previous: seq<nat>, current: seq<nat>, left: string, right: string,
                           i: nat, j: nat, cell: nat)
    requires i < |left| && j < |right| && |previous| == |current| == |right| + 1
    requires RowHolds(previous, left, right, i, |right| + 1) && RowHolds(current, left, right, i + 1, j + 1)
    requires cell == Min(Min(current[j] + 1, previous[j + 1] + 1), previous[j] + Cost(left[i], right[j]))
    ensures RowHolds(current[j + 1 := cell], left, right, i + 1, j + 2)
  {
    hide Distance;
    Recurrence(left[..i + 1], right[..j + 1]);
    assert Init(left[..i + 1]) == left[..i] && Init(right[..j + 1]) == right[..j];
  }

  /** Computes one row of the table from the row before it. */
  method NextRow(left: string, right: string, i: nat, previous: array<nat>) returns (current: array<nat>)
    requires i < |left| && previous.Length == |right| + 1
    requires RowHolds(previous[..], left, right, i, |right| + 1)
    ensures fresh(current) && current.Length == |right| + 1
    ensures RowHolds(current[..], left, right, i + 1, |right| + 1)
  {
    current := new nat[|right| + 1](_ => 0);
    current[0] := i + 1;
    FirstCell(left, right, i + 1);
    for j := 0 to |right|
      invariant RowHolds(previous[..], left, right, i, |right| + 1)
      invariant RowHolds(current[..], left, right, i + 1, j + 1)
    {
      var cost := if left[i] != right[j] then 1 else 0;
      var cell := Min(Min(current[j] + 1, previous[j + 1] + 1), previous[j] + cost);
      ghost var before := current[..];
      CellFromNeighbours(previous[..], before, left, right, i, j, cell);
      current[j + 1] := cell;
      assert current[..] == before[j + 1 := cell];
    }
  }

  /** Keeps one previous and one current row, as the source does. */
  method Levenshtein(left: string, right: string) returns (d: nat)
    ensures d == Distance(left, right)
  {
    var previous := new nat[|right| + 1](_ => 0);
    for index := 0 to previous.Length
      invariant forall j :: 0 <= j < index ==> previous[j] == j
    {
      previous[index] := index;
    }
    FirstRow(previous[..], left, right);
    for i := 0 to |left|
      invariant previous.Length == |right| + 1
      invariant RowHolds(previous[..], left, right, i, |right| + 1)
    {
      previous := NextRow(left, right, i, previous);
    }
    d := previous[|right|];
    assert left[..|left|] == left && right[..|right|] == right;
    assert previous[..][|right|] == d;
  }
}
