/** Timestamps as the repository stores and compares them: RFC 3339 text in UTC with up to nine
    fractional digits, trailing zeros dropped, compared byte by byte inside SQL
    (internal/store/sqlite.go, time.RFC3339Nano; section 5.1 of RFC 3339). */
module TimeText {
  import opened Calendar

  const SECOND: int := 1_000_000_000
  const DAY_SECONDS: int := 86_400
  const LAST_YEAR: int := 9999

  /** An instant is a number of nanoseconds since the first midnight of year 1 in UTC. */
  function Second(instant: int): int { instant / SECOND }

  predicate InRange(instant: int)
  {
    0 <= instant && YearOf(Second(instant) / DAY_SECONDS) <= LAST_YEAR
  }

  lemma {:induction false} YearsGrow(a: int, b: int)
    requires a <= b
    ensures YearOf(a) <= YearOf(b)
  {
    hide YearOf, YearStart;
    YearOfIsRight(a);
    YearOfIsRight(b);
    if YearOf(b) < YearOf(a) { YearStartMonotone(YearOf(b) + 1, YearOf(a)); }
  }

  // ----- Byte order of text -----

  predicate LexLess(s: string, t: string)
  {
    t != "" && (s == "" || s[0] < t[0] || (s[0] == t[0] && LexLess(s[1..], t[1..])))
  }

  /** Once two texts differ inside both, what follows does not matter. */
  lemma {:induction false} LexDecided(p: string, q: string, x: string, y: string)
    requires !(p <= q) && !(q <= p)
    ensures LexLess(p + x, q + y) <==> LexLess(p, q)
  {
    if p[0] == q[0] {
      assert (p + x)[1..] == p[1..] + x && (q + y)[1..] == q[1..] + y;
      LexDecided(p[1..], q[1..], x, y);
    }
  }

  lemma {:induction false} LexCommonPrefix(p: string, x: string, y: string)
    ensures LexLess(p + x, p + y) <==> LexLess(x, y)
  {
    if p == "" {
      assert p + x == x && p + y == y;
    } else {
      assert (p + x)[1..] == p[1..] + x && (p + y)[1..] == p[1..] + y;
      LexCommonPrefix(p[1..], x, y);
    }
  }

  lemma {:induction false} LexAsymmetric(s: string, t: string)
    requires LexLess(s, t)
    ensures !LexLess(t, s) && s != t
  {
    if s != "" && s[0] == t[0] { LexAsymmetric(s[1..], t[1..]); }
  }

  lemma {:induction false} SameLengthDecides(p: string, q: string, x: string, y: string)
    requires |p| == |q| && p != q
    ensures LexLess(p + x, q + y) <==> LexLess(p, q)
  {
    LexDecided(p, q, x, y);
  }

  /** p sorts before q because of a character inside both, so what follows them does not matter. */
  predicate Ahead(p: string, q: string)
  {
    LexLess(p, q) && !(p <= q) && !(q <= p)
  }

  lemma {:induction false} PrefixWithin(p: string, q: string, x: string, y: string)
    requires p + x <= q + y
    ensures p <= q || q <= p
  {
    if |p| <= |q| {
      assert p == (p + x)[..|p|] == (q + y)[..|p|] == q[..|p|];
    } else {
      assert q == (q + y)[..|q|] == (p + x)[..|q|] == p[..|q|];
    }
  }

  lemma {:induction false} AheadDecides(p: string, q: string, x: string, y: string)
    requires Ahead(p, q)
    ensures Ahead(p + x, q + y) && !LexLess(q + y, p + x)
  {
    LexDecided(p, q, x, y);
    LexAsymmetric(p + x, q + y);
    hide LexLess;
    if p + x <= q + y { PrefixWithin(p, q, x, y); }
    if q + y <= p + x { PrefixWithin(q, p, y, x); }
  }

  lemma {:induction false} SameLengthAhead(p: string, q: string)
    requires |p| == |q| && LexLess(p, q)
    ensures Ahead(p, q)
  {
    LexAsymmetric(p, q);
  }

  lemma {:induction false} PrefixAfter(p: string, x: string, y: string)
    requires p + x <= p + y
    ensures x <= y
  {
    assert x == (p + x)[|p|..] && (p + x)[|p|..] == (p + y)[|p|..|p + x|] && (p + y)[|p|..|p + x|] == y[..|x|];
  }

  lemma {:induction false} AheadAfter(p: string, x: string, y: string)
    requires Ahead(x, y)
    ensures Ahead(p + x, p + y)
  {
    LexCommonPrefix(p, x, y);
    hide LexLess;
    if p + x <= p + y { PrefixAfter(p, x, y); }
    if p + y <= p + x { PrefixAfter(p, y, x); }
  }

  // ----- Fixed-width numbers -----

  function Digit(d: nat): char
    requires d < 10
  {
    '0' + d as char
  }

  function Power10(w: nat): (p: nat)
    ensures p > 0
  {
    if w == 0 then 1 else 10 * Power10(w - 1)
  }

  function Pad(n: nat, w: nat): (s: string)
    ensures |s| == w
  {
    if w == 0 then "" else Pad(n / 10, w - 1) + [Digit(n % 10)]
  }

  lemma {:induction false} PadOrder(a: nat, b: nat, w: nat)
    requires a < b < Power10(w)
    ensures LexLess(Pad(a, w), Pad(b, w))
  {
    if a / 10 < b / 10 {
      PadOrder(a / 10, b / 10, w - 1);
      LexAsymmetric(Pad(a / 10, w - 1), Pad(b / 10, w - 1));
      SameLengthDecides(Pad(a / 10, w - 1), Pad(b / 10, w - 1), [Digit(a % 10)], [Digit(b % 10)]);
    } else {
      LexCommonPrefix(Pad(a / 10, w - 1), [Digit(a % 10)], [Digit(b % 10)]);
    }
  }

  // ----- The text of an instant -----

  /** A year has four digits, or as many as it needs. */
  function YearWidth(year: nat): (w: nat)
    ensures w >= 4
  {
    if year <= LAST_YEAR then 4 else YearWidth(year / 10) + 1
  }

  function DateText(d: Date): (s: string)
    requires ValidDate(d) && 0 <= d.year
    ensures |s| == YearWidth(d.year) + 6
  {
    Pad(d.year, YearWidth(d.year)) + ("-" + (Pad(d.month, 2) + ("-" + Pad(d.day, 2))))
  }

  function ClockText(ofDay: nat): (s: string)
    ensures |s| == 8
  {
    Pad(ofDay / 3600, 2) + (":" + (Pad(ofDay / 60 % 60, 2) + (":" + Pad(ofDay % 60, 2))))
  }

  lemma {:induction false} YearOfPositive(day: nat)
    ensures YearOf(day) >= 1
  {
    YearOfIsRight(day);
    if YearOf(day) < 1 { YearStartMonotone(YearOf(day) + 1, 1); }
  }

  function DayText(day: nat): (s: string)
    ensures YearOf(day) >= 1 && |s| == YearWidth(YearOf(day)) + 6
  {
    DateOfDay(day);
    YearOfPositive(day);
    DateYear(day);
    DateText(DateOf(day))
  }

  lemma {:induction false} DateYear(day: int)
    ensures DateOf(day).year == YearOf(day)
  {
    YearOfIsRight(day);
    YearStep(YearOf(day));
    MonthFromIsRight(YearOf(day), 1, day - YearStart(YearOf(day)));
  }

  function SecondText(second: nat): string
  {
    DayText(second / DAY_SECONDS) + ("T" + ClockText(second % DAY_SECONDS))
  }

  function TrimZeros(s: string): (r: string)
    ensures |r| <= |s|
  {
    if s != "" && s[|s| - 1] == '0' then TrimZeros(s[..|s| - 1]) else s
  }

  /** The fractional digits written for an instant: none on a whole second. */
  function FractionDigits(instant: nat): string
  {
    TrimZeros(Pad(instant % SECOND, 9))
  }

  /** time.RFC3339Nano in UTC. */
  function Text(instant: nat): string
  {
    var digits := FractionDigits(instant);
    SecondText(instant / SECOND) + ((if digits == "" then "" else "." + digits) + "Z")
  }

  // ----- Seconds compare correctly -----

  lemma {:induction false} PairOrder(a: nat, b: nat, w: nat, x: string, y: string)
    requires a < Power10(w) && b < Power10(w)
    ensures a < b ==> LexLess(Pad(a, w) + x, Pad(b, w) + y)
    ensures a == b ==> (LexLess(Pad(a, w) + x, Pad(b, w) + y) <==> LexLess(x, y))
  {
    if a < b {
      PadOrder(a, b, w);
      LexAsymmetric(Pad(a, w), Pad(b, w));
      SameLengthDecides(Pad(a, w), Pad(b, w), x, y);
    } else if a == b {
      LexCommonPrefix(Pad(a, w), x, y);
    }
  }

  lemma {:induction false} DateTextOrder(a: Date, b: Date)
    requires ValidDate(a) && ValidDate(b) && 0 <= a.year && 0 <= b.year && YearWidth(a.year) == YearWidth(b.year)
    requires Before(a, b)
    ensures LexLess(DateText(a), DateText(b))
  {
    var dayA, dayB := Pad(a.day, 2), Pad(b.day, 2);
    var monthA, monthB := Pad(a.month, 2) + ("-" + dayA), Pad(b.month, 2) + ("-" + dayB);
    assert Power10(2) == 100;
    assert dayA + "" == dayA && dayB + "" == dayB;
    PairOrder(a.day, b.day, 2, "", "");
    LexCommonPrefix("-", dayA, dayB);
    PairOrder(a.month, b.month, 2, "-" + dayA, "-" + dayB);
    LexCommonPrefix("-", monthA, monthB);
    YearFits(a.year);
    YearFits(b.year);
    PairOrder(a.year, b.year, YearWidth(a.year), "-" + monthA, "-" + monthB);
  }

  // ----- Years of different widths need not -----

  /** n without its last k digits. */
  function Leading(n: nat, k: nat): nat { Quotient(n, Power10(k)) }

  function Quotient(n: nat, d: nat): nat
    requires d > 0
  {
    n / d
  }

  lemma {:induction false} YearFits(year: nat)
    ensures year < Power10(YearWidth(year))
  {
    if year <= LAST_YEAR {
      assert Power10(4) == 10000;
    } else {
      YearFits(year / 10);
    }
  }

  lemma {:induction false} WidthsGrow(y: nat, z: nat)
    requires y <= z
    ensures YearWidth(y) <= YearWidth(z)
  {
    if y > LAST_YEAR { WidthsGrow(y / 10, z / 10); }
  }

  lemma {:induction false} MultiplyGrows(a: nat, b: nat, p: nat)
    requires a <= b
    ensures a * p <= b * p
  {
    assert b * p == a * p + (b - a) * p;
  }

  lemma {:induction false} DivideUnique(n: nat, p: nat, q: nat, r: nat)
    requires n == q * p + r && r < p
    ensures n / p == q
  {
    var d := n / p;
    assert n == d * p + n % p;
    if d < q { MultiplyGrows(d + 1, q, p); }
    if q < d { MultiplyGrows(q + 1, d, p); }
  }

  lemma {:induction false} DivideTwice(n: nat, p: nat)
    requires p > 0
    ensures n / 10 / p == n / (10 * p)
  {
    var m, q := n / 10, n / 10 / p;
    assert m == q * p + m % p;
    assert n == 10 * (q * p) + (10 * (m % p) + n % 10);
    assert 10 * (q * p) == q * (10 * p);
    DivideUnique(n, 10 * p, q, 10 * (m % p) + n % 10);
  }

  lemma {:induction false} NextPower(n: nat, k: nat)
    requires k > 0
    ensures Leading(n / 10, k - 1) == Leading(n, k)
  {
    DivideTwice(n, Power10(k - 1));
  }

  lemma {:induction false} DigitsJoin(front: string, d: nat)
    requires AllDigits(front) && d < 10
    ensures AllDigits(front + [Digit(d)])
  {
  }

  lemma {:induction false} PadStep(n: nat, w: nat)
    requires w > 0
    ensures Pad(n, w) == Pad(n / 10, w - 1) + [Digit(n % 10)]
  {
  }

  lemma {:induction false} NoDigitsDropped(n: nat)
    ensures Leading(n, 0) == n
  {
  }

  /** A longer numeral begins with the numeral of its leading digits. */
  lemma {:induction false} LeadingDigits(n: nat, w: nat, more: nat) returns (rest: string)
    ensures Pad(n, w + more) == Pad(Leading(n, more), w) + rest && |rest| == more && AllDigits(rest)
  {
    hide Pad, Digit, Leading;
    if more == 0 {
      rest := "";
      NoDigitsDropped(n);
    } else {
      hide AllDigits;
      var front := LeadingDigits(n / 10, w, more - 1);
      PadStep(n, w + more);
      NextPower(n, more);
      DigitsJoin(front, n % 10);
      rest := front + [Digit(n % 10)];
      var lead := Pad(Leading(n, more), w);
      assert lead + front + [Digit(n % 10)] == lead + rest;
    }
  }

  /** The later year z has more digits, and its first ones make a smaller number than y. */
  predicate YearsInvert(y: nat, z: nat)
  {
    YearWidth(y) < YearWidth(z) && Leading(z, YearWidth(z) - YearWidth(y)) < y
  }

  lemma {:induction false} PowersMultiply(a: nat, b: nat)
    ensures Power10(a + b) == Power10(a) * Power10(b)
  {
    if b > 0 {
      PowersMultiply(a, b - 1);
      assert Power10(a + b) == 10 * Power10(a + b - 1);
    }
  }

  lemma {:induction false} LeadFits(z: nat, w: nat, more: nat)
    requires z < Power10(w + more)
    ensures Leading(z, more) < Power10(w)
  {
    PowersMultiply(w, more);
    var d, p := Leading(z, more), Power10(more);
    assert z == d * p + z % p;
    if Power10(w) <= d { MultiplyGrows(Power10(w), d, p); }
  }

  /** A numeral of w digits followed by a hyphen, and a longer one that begins with the digits of lead. */
  lemma {:induction false} LongerNumeral(y: nat, lead: nat, w: nat, x: string, rest: string)
    requires y < Power10(w) && lead < Power10(w) && rest != "" && '0' <= rest[0]
    ensures var (p, q) := (Pad(y, w) + ("-" + x), Pad(lead, w) + rest);
      if lead < y then Ahead(q, p) else Ahead(p, q)
  {
    hide Power10, Pad, LexLess;
    var a, b := Pad(y, w), Pad(lead, w);
    if y < lead {
      PadOrder(y, lead, w);
      SameLengthAhead(a, b);
      AheadDecides(a, b, "-" + x, rest);
    } else if lead < y {
      PadOrder(lead, y, w);
      SameLengthAhead(b, a);
      AheadDecides(b, a, rest, "-" + x);
    } else {
      HyphenFirst(x, rest);
      AheadAfter(a, "-" + x, rest);
    }
  }

  lemma {:induction false} HyphenFirst(x: string, rest: string)
    requires rest != "" && '0' <= rest[0]
    ensures Ahead("-" + x, rest)
  {
  }

  lemma {:induction false} WiderYears(y: nat, z: nat, x: string, t: string)
    requires YearWidth(y) < YearWidth(z)
    ensures var (p, q) := (Pad(y, YearWidth(y)) + ("-" + x), Pad(z, YearWidth(z)) + ("-" + t));
      if YearsInvert(y, z) then Ahead(q, p) else Ahead(p, q)
  {
    hide Pad, YearWidth, LexLess, Ahead, Leading;
    var w, more := YearWidth(y), YearWidth(z) - YearWidth(y);
    var rest := LeadingDigits(z, w, more);
    YearFits(y);
    YearFits(z);
    LeadFits(z, w, more);
    LongerNumeral(y, Leading(z, more), w, x, rest + ("-" + t));
    assert Pad(z, YearWidth(z)) + ("-" + t) == Pad(Leading(z, more), w) + (rest + ("-" + t));
  }

  lemma {:induction false} ClockTextOrder(a: nat, b: nat)
    requires a < b < DAY_SECONDS
    ensures LexLess(ClockText(a), ClockText(b))
  {
    var secA, secB := Pad(a % 60, 2), Pad(b % 60, 2);
    var minA, minB := Pad(a / 60 % 60, 2) + (":" + secA), Pad(b / 60 % 60, 2) + (":" + secB);
    assert Power10(2) == 100;
    assert secA + "" == secA && secB + "" == secB;
    assert a / 60 / 60 == a / 3600 && b / 60 / 60 == b / 3600;
    PairOrder(a % 60, b % 60, 2, "", "");
    LexCommonPrefix(":", secA, secB);
    PairOrder(a / 60 % 60, b / 60 % 60, 2, ":" + secA, ":" + secB);
    LexCommonPrefix(":", minA, minB);
    PairOrder(a / 3600, b / 3600, 2, ":" + minA, ":" + minB);
  }

  lemma {:induction false} DaysInOrder(a: nat, b: nat)
    requires a < b
    ensures if YearsInvert(YearOf(a), YearOf(b)) then Ahead(DayText(b), DayText(a)) else Ahead(DayText(a), DayText(b))
  {
    DateOfDay(a);
    DateOfDay(b);
    DateYear(a);
    DateYear(b);
    if Before(DateOf(b), DateOf(a)) {
      DayNumberOrder(DateOf(b), DateOf(a));
    }
    assert Before(DateOf(a), DateOf(b));
    WidthsGrow(YearOf(a), YearOf(b));
    hide YearOf, YearWidth, DateOf, Pad, LexLess;
    if YearWidth(YearOf(a)) == YearWidth(YearOf(b)) {
      DateTextOrder(DateOf(a), DateOf(b));
      SameLengthAhead(DayText(a), DayText(b));
    } else {
      var (d, e) := (DateOf(a), DateOf(b));
      WiderYears(d.year, e.year, Pad(d.month, 2) + ("-" + Pad(d.day, 2)), Pad(e.month, 2) + ("-" + Pad(e.day, 2)));
    }
  }

  /** The years of two seconds, of which the later has so many more digits that its text sorts first. */
  predicate SecondsInvert(a: nat, b: nat)
  {
    YearOfPositive(a / DAY_SECONDS);
    YearOfPositive(b / DAY_SECONDS);
    YearsInvert(YearOf(a / DAY_SECONDS), YearOf(b / DAY_SECONDS))
  }

  lemma {:induction false} SecondTextOrder(a: nat, b: nat)
    requires a < b
    ensures if SecondsInvert(a, b) then Ahead(SecondText(b), SecondText(a)) else Ahead(SecondText(a), SecondText(b))
  {
    hide DayText, ClockText, Ahead, YearWidth, YearOf;
    var x, y := "T" + ClockText(a % DAY_SECONDS), "T" + ClockText(b % DAY_SECONDS);
    var p, q := DayText(a / DAY_SECONDS), DayText(b / DAY_SECONDS);
    if a / DAY_SECONDS < b / DAY_SECONDS {
      DaysInOrder(a / DAY_SECONDS, b / DAY_SECONDS);
      if SecondsInvert(a, b) { AheadDecides(q, p, y, x); } else { AheadDecides(p, q, x, y); }
    } else {
      ClockTextOrder(a % DAY_SECONDS, b % DAY_SECONDS);
      SameLengthAhead(ClockText(a % DAY_SECONDS), ClockText(b % DAY_SECONDS));
      AheadAfter("T", ClockText(a % DAY_SECONDS), ClockText(b % DAY_SECONDS));
      AheadAfter(p, x, y);
    }
  }

  // ----- Fractions do not always -----

  predicate AllDigits(s: string)
  {
    forall i :: 0 <= i < |s| ==> '0' <= s[i] <= '9'
  }

  predicate Zeros(s: string)
  {
    forall i :: 0 <= i < |s| ==> s[i] == '0'
  }

  lemma {:induction false} PadIsDigits(n: nat, w: nat)
    ensures AllDigits(Pad(n, w))
  {
    if w > 0 { PadIsDigits(n / 10, w - 1); }
  }

  lemma {:induction false} TrimmedTail(s: string) returns (tail: string)
    ensures s == TrimZeros(s) + tail && Zeros(tail)
  {
    if s != "" && s[|s| - 1] == '0' {
      var shorter := TrimmedTail(s[..|s| - 1]);
      tail := shorter + "0";
    } else {
      tail := "";
    }
  }

  lemma {:induction false} NothingBelowZeros(s: string, z: string)
    requires |s| == |z| && AllDigits(s) && Zeros(z)
    ensures !LexLess(s, z)
  {
    if s != "" { NothingBelowZeros(s[1..], z[1..]); }
  }

  predicate PrefixRelated(p: string, q: string) { p < q || q < p }

  function Ending(digits: string): string { (if digits == "" then "" else "." + digits) + "Z" }

  lemma {:induction false} EndingOrderPrefix(p: string, q: string)
    requires p < q && AllDigits(q)
    ensures LexLess(Ending(q), Ending(p))
  {
    if p != "" {
      var rest := q[|p|..];
      assert Ending(p) == ("." + p) + "Z" && Ending(q) == ("." + p) + (rest + "Z");
      LexCommonPrefix("." + p, rest + "Z", "Z");
      assert rest[0] == q[|p|];
    }
  }

  lemma {:induction false} TrimIsPrefix(s: string)
    ensures TrimZeros(s) <= s
  {
    if s != "" && s[|s| - 1] == '0' { TrimIsPrefix(s[..|s| - 1]); }
  }

  /** Of two equally long digit texts, dropping the trailing zeros keeps their order unless one
      becomes a prefix of the other; then the smaller one is the shorter and sorts last. */
  lemma {:induction false} TrimmedOrder(s: string, t: string)
    requires |s| == |t| && AllDigits(s) && AllDigits(t) && LexLess(s, t)
    ensures var (p, q) := (TrimZeros(s), TrimZeros(t));
      if PrefixRelated(p, q) then LexLess(Ending(q), Ending(p)) else LexLess(Ending(p), Ending(q))
  {
    hide TrimZeros, LexLess;
    var p, q := TrimZeros(s), TrimZeros(t);
    var zs := TrimmedTail(s);
    var zt := TrimmedTail(t);
    TrimIsPrefix(t);
    if q <= p {
      LongerNotLess(s, t, q, zt);
      assert false;
    } else if p < q {
      EndingOrderPrefix(p, q);
    } else {
      LexDecided(p, q, zs, zt);
      LexDecided(p, q, "Z", "Z");
      DotOrder(p, q);
    }
  }

  /** A text beginning with q is not below q followed by zeros only. */
  lemma {:induction false} LongerNotLess(s: string, t: string, q: string, zeros: string)
    requires |s| == |t| && AllDigits(s) && t == q + zeros && Zeros(zeros) && q <= s
    ensures !LexLess(s, t)
  {
    hide LexLess;
    var rest := s[|q|..];
    assert s == q + rest;
    assert forall i :: 0 <= i < |rest| ==> rest[i] == s[|q| + i];
    LexCommonPrefix(q, rest, zeros);
    NothingBelowZeros(rest, zeros);
  }

  lemma {:induction false} DotOrder(p: string, q: string)
    requires p != "" && q != ""
    ensures LexLess(Ending(p), Ending(q)) <==> LexLess(p + "Z", q + "Z")
  {
    assert Ending(p) == "." + (p + "Z") && Ending(q) == "." + (q + "Z");
    LexCommonPrefix(".", p + "Z", q + "Z");
  }

  lemma {:induction false} FractionOrder(a: nat, b: nat)
    requires a % SECOND < b % SECOND
    ensures var (p, q) := (FractionDigits(a), FractionDigits(b));
      if PrefixRelated(p, q) then LexLess(Ending(q), Ending(p)) else LexLess(Ending(p), Ending(q))
  {
    hide Pad, TrimZeros;
    assert Power10(9) == SECOND;
    PadOrder(a % SECOND, b % SECOND, 9);
    PadIsDigits(a % SECOND, 9);
    PadIsDigits(b % SECOND, 9);
    TrimmedOrder(Pad(a % SECOND, 9), Pad(b % SECOND, 9));
  }

  /** The texts of these two instants, the first one earlier, sort the wrong way round. */
  predicate Inverted(a: nat, b: nat)
  {
    if Second(a) == Second(b) then PrefixRelated(FractionDigits(a), FractionDigits(b))
    else SecondsInvert(Second(a), Second(b))
  }

  /** Text order is time order, except that it is exactly reversed for two different instants of
      one second when the fractional digits of one are a proper prefix of the other's, and for instants
      of two years when the later has more digits and the first of them make a smaller number. */
  lemma {:induction false} TextOrderIff(a: nat, b: nat)
    requires a < b
    ensures LexLess(Text(a), Text(b)) <==> !Inverted(a, b)
    ensures LexLess(Text(b), Text(a)) <==> Inverted(a, b)
  {
    hide SecondText, FractionDigits, PrefixRelated, SecondsInvert, Ahead;
    var p, q := SecondText(a / SECOND), SecondText(b / SECOND);
    var x, y := Ending(FractionDigits(a)), Ending(FractionDigits(b));
    assert Text(a) == p + x && Text(b) == q + y;
    if a / SECOND < b / SECOND {
      SecondTextOrder(a / SECOND, b / SECOND);
      if Inverted(a, b) { AheadOrders(q, p, y, x); } else { AheadOrders(p, q, x, y); }
    } else {
      FractionOrder(a, b);
      LexCommonPrefix(p, x, y);
      LexCommonPrefix(p, y, x);
      if LexLess(x, y) { LexAsymmetric(x, y); } else { LexAsymmetric(y, x); }
    }
  }

  lemma {:induction false} AheadOrders(p: string, q: string, x: string, y: string)
    requires Ahead(p, q)
    ensures LexLess(p + x, q + y) && !LexLess(q + y, p + x)
  {
    AheadDecides(p, q, x, y);
  }

  /** Through year 9999 only fractions of one second invert the order. */
  lemma {:induction false} OrderInRange(a: nat, b: nat)
    requires InRange(a) && InRange(b) && a != b
    ensures LexLess(Text(a), Text(b)) <==>
      (a < b) != (Second(a) == Second(b) && PrefixRelated(FractionDigits(a), FractionDigits(b)))
  {
    hide Text, FractionDigits, LexLess, YearOf;
    if a < b { TextOrderIff(a, b); } else { TextOrderIff(b, a); }
  }

  /** The comparison the SQL statements make: a stored text at or before another. */
  predicate StoredAtOrBefore(a: nat, b: nat) { !LexLess(Text(b), Text(a)) }

  lemma {:induction false} NoDigitsOfZero(w: nat)
    ensures TrimZeros(Pad(0, w)) == ""
  {
    if w > 0 {
      NoDigitsOfZero(w - 1);
      assert Pad(0, w)[..w - 1] == Pad(0, w - 1);
    }
  }

  /** A whole second sorts after every later instant of that second. */
  lemma {:induction false} WholeSecondSortsLast(a: nat, b: nat)
    requires a % SECOND == 0 && a < b && Second(a) == Second(b)
    ensures LexLess(Text(b), Text(a))
  {
    hide Text, Pad, TrimZeros, LexLess, SecondsInvert, Ending;
    LaterInSecond(a, b);
    NoDigitsOfZero(9);
    FractionOrder(a, b);
    NotAheadOfItself("");
    TextOrderIff(a, b);
  }

  lemma {:induction false} LaterInSecond(a: nat, b: nat)
    requires a < b && Second(a) == Second(b)
    ensures a % SECOND < b % SECOND
  {
    assert a == SECOND * Second(a) + a % SECOND && b == SECOND * Second(b) + b % SECOND;
  }

  lemma {:induction false} NotAheadOfItself(digits: string)
    ensures !LexLess(Ending(digits), Ending(digits))
  {
    if LexLess(Ending(digits), Ending(digits)) { LexAsymmetric(Ending(digits), Ending(digits)); }
  }

  /** The first year of five digits sorts before every year from 1001 on. */
  lemma {:induction false} FiveDigitYearsInvert(year: nat)
    requires 1001 <= year <= LAST_YEAR
    ensures YearsInvert(year, 10000)
  {
    assert YearWidth(10000) == YearWidth(1000) + 1 == 5;
    assert Power10(1) == 10;
  }

  lemma {:induction false} EarlierInRange(a: nat, b: nat)
    requires a <= b && InRange(b)
    ensures InRange(a)
  {
    YearsGrow(Second(a) / DAY_SECONDS, Second(b) / DAY_SECONDS);
  }

  /** Stored instants of different seconds compare as they should, through year 9999. */
  lemma {:induction false} EarlierSecondFirst(a: nat, b: nat)
    requires InRange(b) && Second(a) < Second(b)
    ensures StoredAtOrBefore(a, b) && !StoredAtOrBefore(b, a)
  {
    EarlierInRange(a, b);
    OrderInRange(a, b);
    OrderInRange(b, a);
    hide Text, LexLess, InRange, FractionDigits;
  }
}
