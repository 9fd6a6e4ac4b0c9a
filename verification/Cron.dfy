/** Five-field cron schedules and the search for the next run (internal/scheduler/scheduler.go).

    Times are whole numbers of nanoseconds, minutes or days since the first midnight of year 1.  A zone
    says which minute its clocks show at every minute of absolute time, so it may skip and repeat some. */
module Cron {
  import opened Wrappers
  import opened Text
  import opened Calendar

  const MINUTE: int := 60_000_000_000
  const MINUTES_PER_DAY: int := 1440
  const HORIZON: int := 8 * 366 * 24 * 60
  const RECURRENCE: int := 2921 * 24 * 60
  const MAX_INT: int := 0x7fff_ffff_ffff_ffff
  const TWO_64: int := 0x1_0000_0000_0000_0000

  datatype Field = Field(values: set<int>, any: bool)

  datatype Schedule = Schedule(minute: Field, hour: Field, dayOfMonth: Field, month: Field, dayOfWeek: Field)

  // ----- Parsing one field -----

  /** Addition of a positive number to a signed 64-bit integer. */
  function Add64(a: int, b: int): int { if a + b > MAX_INT then a + b - TWO_64 else a + b }

  /** The values start, start + step, ... up to end. */
  datatype Progression = Progression(start: int, end: int, step: int)
  {
    function Nth(k: nat): int { start + k * step }

    /** What the loop variable holds after k additions. */
    function At(k: nat): int { if k == 0 then start else Add64(At(k - 1), step) }
  }

  function Digits(s: string): Option<nat>
  {
    if s == "" then None
    else
      var c := s[|s| - 1];
      if !('0' <= c <= '9') then None
      else
        var digit := c as int - '0' as int;
        if |s| == 1 then Some(digit)
        else
          match Digits(s[..|s| - 1])
          case None => None
          case Some(n) => Some(10 * n + digit)
  }

  /** strconv.Atoi on a 64-bit platform. */
  function Atoi(s: string): Option<int>
  {
    var signed := s != "" && (s[0] == '+' || s[0] == '-');
    match Digits(if signed then s[1..] else s)
    case None => None
    case Some(n) =>
      var v := if signed && s[0] == '-' then 0 - n as int else n as int;
      if -MAX_INT - 1 <= v <= MAX_INT then Some(v) else None
  }

  function ParseNumber(s: string, min: int, max: int): Option<int>
  {
    match Atoi(s)
    case Some(n) => if min <= n <= max then Some(n) else None
    case None => None
  }

  function SplitStep(element: string): Option<(string, int)>
  {
    var parts := Split(element, '/');
    if |parts| > 2 || parts[0] == "" then None
    else if |parts| == 1 then Some((parts[0], 1))
    else
      match Atoi(parts[1])
      case Some(step) => if step > 0 then Some((parts[0], step)) else None
      case None => None
  }

  function ParseRange(base: string, stepped: bool, min: int, max: int): Option<(int, int)>
  {
    if base == "*" then Some((min, max))
    else if '-' in base then
      var bounds := Split(base, '-');
      if |bounds| != 2 then None
      else
        match (ParseNumber(bounds[0], min, max), ParseNumber(bounds[1], min, max))
        case (Some(start), Some(end)) => if start <= end then Some((start, end)) else None
        case _ => None
    else
      match ParseNumber(base, min, max)
      case Some(start) => Some((start, if stepped then max else start))
      case None => None
  }

  function ParseElement(element: string, min: int, max: int): (r: Option<Progression>)
    requires min <= max
    ensures r.Some? ==> 0 < r.value.step <= MAX_INT && min <= r.value.start <= r.value.end <= max
  {
    match SplitStep(element)
    case None => None
    case Some((base, step)) =>
      match ParseRange(base, '/' in element, min, max)
      case Some((start, end)) => Some(Progression(start, end, step))
      case None => None
  }

  /** 7 is another name for Sunday. */
  function FoldSunday(sunday: bool, v: int): int { if sunday && v == 7 then 0 else v }

  /** The loop makes its k-th pass: no earlier value was past the end or Sunday's second name. */
  ghost predicate Visits(p: Progression, sunday: bool, k: nat)
  {
    forall j: nat :: j <= k ==> p.At(j) <= p.end && (j < k && sunday ==> p.At(j) != 7)
  }

  ghost predicate Hits(p: Progression, sunday: bool, v: int)
  {
    exists k: nat :: Visits(p, sunday, k) && v == FoldSunday(sunday, p.At(k))
  }

  ghost predicate InProgression(p: Progression, sunday: bool, v: int)
  {
    exists k: nat :: p.Nth(k) <= p.end && v == FoldSunday(sunday, p.Nth(k))
  }

  /** The values a field of this element can match. */
  predicate InField(p: Progression, min: int, max: int, sunday: bool)
  {
    0 <= min <= 1 && min <= p.start <= p.end <= max <= 59 && 0 < p.step <= MAX_INT && (sunday ==> max <= 7)
  }

  /** Two additions of the step bring the 64-bit loop variable back into the field. */
  predicate WrapsAround(p: Progression, min: int, sunday: bool)
  {
    p.start + 2 * p.step - TWO_64 >= min && !(sunday && p.start == 7)
  }

  function Elements(t: Chars, text: string): seq<string>
  {
    var parts := Split(text, ',');
    seq(|parts|, i requires 0 <= i < |parts| => Trim(parts[i], t.space))
  }

  ghost predicate WellFormed(t: Chars, text: string, min: int, max: int)
    requires min <= max
  {
    forall e <- Elements(t, text) :: ParseElement(e, min, max).Some?
  }

  /** What parsing makes of a field: the union of what its elements hit, with 7 read as 0 in the
      day-of-week field; only a bare star makes it unrestricted. */
  ghost predicate Denotes(t: Chars, text: string, min: int, max: int, sunday: bool, f: Field)
    requires min <= max
  {
    && (f.any <==> "*" in Elements(t, text))
    && forall v :: v in f.values <==>
         exists e <- Elements(t, text) :: ParseElement(e, min, max).Some? && Hits(ParseElement(e, min, max).value, sunday, v)
  }

  lemma {:induction false} NthGrows(p: Progression, j: nat, k: nat)
    requires p.step > 0 && j < k
    ensures p.Nth(j) + p.step <= p.Nth(k)
    decreases k
  {
    if j + 1 < k { NthGrows(p, j, k - 1); }
  }

  /** Below the wrap the loop variable runs through the progression. */
  lemma {:induction false} AtIsNth(p: Progression, k: nat)
    requires p.Nth(k) <= MAX_INT && p.step > 0
    ensures p.At(k) == p.Nth(k)
  {
    if k > 0 {
      assert p.Nth(k) == p.Nth(k - 1) + p.step;
      AtIsNth(p, k - 1);
    }
  }

  /** A progression whose second value does not overflow never does before it has passed the end. */
  lemma {:induction false} VisitsProgression(p: Progression, sunday: bool, k: nat)
    requires 0 <= p.start <= p.end <= 59 && 0 < p.step && p.start + p.step <= MAX_INT && (sunday ==> p.end <= 7)
    ensures Visits(p, sunday, k) ==> p.At(k) == p.Nth(k)
    ensures Visits(p, sunday, k) <==> p.Nth(k) <= p.end
  {
    if p.Nth(k) <= p.end {
      forall j: nat | j <= k
        ensures p.At(j) == p.Nth(j) <= p.end && (j < k && sunday ==> p.At(j) != 7)
      {
        if j < k { NthGrows(p, j, k); }
        AtIsNth(p, j);
      }
    } else if Visits(p, sunday, k) && k > 0 {
      assert Visits(p, sunday, k - 1);
      VisitsProgression(p, sunday, k - 1);
      assert p.Nth(k) == p.Nth(k - 1) + p.step;
      if k > 1 { NthGrows(p, 0, k - 1); }
      AtIsNth(p, k);
      assert false;
    }
  }

  /** When the second value overflows, the third is below the first by twice what the step lacks. */
  lemma {:induction false} FirstValues(p: Progression)
    requires 0 <= p.start <= 59 && p.step <= MAX_INT && p.start + p.step > MAX_INT
    ensures p.At(1) == p.start + p.step - TWO_64 < 0
    ensures p.At(2) == p.start + 2 * p.step - TWO_64 < p.start
    ensures p.At(3) == Add64(p.At(2), p.step)
  {
    assert p.At(1) == Add64(p.At(0), p.step);
    assert p.At(2) == Add64(p.At(1), p.step);
  }

  /** A field means its progression, whatever wraps, exactly when no third value wraps into it. */
  lemma {:induction false} MeansProgressionIff(p: Progression, min: int, max: int, sunday: bool)
    requires InField(p, min, max, sunday)
    ensures (forall v :: min <= v ==> (Hits(p, sunday, v) <==> InProgression(p, sunday, v))) <==> !WrapsAround(p, min, sunday)
  {
    if p.start + p.step <= MAX_INT {
      forall v
        ensures Hits(p, sunday, v) <==> InProgression(p, sunday, v)
      {
        NarrowHits(p, sunday, v);
      }
    } else {
      FirstValues(p);
      OnlyStart(p, sunday);
      if WrapsAround(p, min, sunday) {
        assert Visits(p, sunday, 2) && !(sunday && p.At(2) == 7);
        assert Hits(p, sunday, p.At(2)) && !InProgression(p, sunday, p.At(2)) by {
          if sunday && p.start == 7 { assert false; }
        }
      } else {
        forall v | min <= v
          ensures Hits(p, sunday, v) <==> InProgression(p, sunday, v)
        {
          WideHits(p, min, max, sunday, v);
        }
      }
    }
  }

  lemma {:induction false} NarrowHits(p: Progression, sunday: bool, v: int)
    requires 0 <= p.start <= p.end <= 59 && 0 < p.step && p.start + p.step <= MAX_INT && (sunday ==> p.end <= 7)
    ensures Hits(p, sunday, v) <==> InProgression(p, sunday, v)
  {
    hide Visits;
    if Hits(p, sunday, v) {
      var k: nat :| Visits(p, sunday, k) && v == FoldSunday(sunday, p.At(k));
      VisitsProgression(p, sunday, k);
      assert p.Nth(k) <= p.end && v == FoldSunday(sunday, p.Nth(k));
    }
    if InProgression(p, sunday, v) {
      var k: nat :| p.Nth(k) <= p.end && v == FoldSunday(sunday, p.Nth(k));
      VisitsProgression(p, sunday, k);
      assert Visits(p, sunday, k) && v == FoldSunday(sunday, p.At(k));
    }
  }

  lemma {:induction false} OnlyStart(p: Progression, sunday: bool)
    requires 0 <= p.start <= p.end <= 59 && p.start + p.step > MAX_INT
    ensures forall v :: InProgression(p, sunday, v) <==> v == FoldSunday(sunday, p.start)
  {
    assert p.Nth(0) == p.start;
    forall k: nat | k > 0
      ensures p.Nth(k) > p.end
    {
      if k > 1 { NthGrows(p, 1, k); }
    }
  }

  lemma {:induction false} WideHits(p: Progression, min: int, max: int, sunday: bool, v: int)
    requires InField(p, min, max, sunday) && p.start + p.step > MAX_INT && !WrapsAround(p, min, sunday) && min <= v
    ensures Hits(p, sunday, v) <==> v == FoldSunday(sunday, p.start)
  {
    FirstValues(p);
    assert Visits(p, sunday, 0) && p.At(0) == p.start;
    if Hits(p, sunday, v) {
      var k: nat :| Visits(p, sunday, k) && v == FoldSunday(sunday, p.At(k));
      if sunday && p.start == 7 {
        assert k == 0;
      } else {
        assert k < 3 by { assert p.At(3) > p.end; }
      }
    }
  }

  /** The decimal numeral of a number. */
  function Numeral(n: nat): (s: string)
    ensures s != "" && forall c <- s :: '0' <= c <= '9'
  {
    if n < 10 then ['0' + n as char] else Numeral(n / 10) + ['0' + (n % 10) as char]
  }

  lemma {:induction false} NumeralReads(n: nat)
    ensures Digits(Numeral(n)) == Some(n)
  {
    if n >= 10 {
      NumeralReads(n / 10);
      assert Numeral(n)[..|Numeral(n)| - 1] == Numeral(n / 10);
    }
  }

  lemma {:induction false} NumeralIsStep(n: nat)
    requires n <= MAX_INT
    ensures Atoi(Numeral(n)) == Some(n) && '/' !in Numeral(n)
  {
    NumeralReads(n);
    hide Digits;
    assert Numeral(n)[0] in Numeral(n);
  }

  lemma {:induction false} FiftyNine()
    ensures Atoi("59") == Some(59)
  {
    assert "59"[..1] == "5" && Digits("5") == Some(5);
  }

  lemma {:induction false} StepParses(numeral: string, step: nat)
    requires '/' !in numeral && Atoi(numeral) == Some(step) && step > 0
    ensures ParseElement("59/" + numeral, 0, 59) == Some(Progression(59, 59, step))
  {
    hide Atoi;
    FiftyNine();
    SplitOnce("59", numeral, '/');
    assert "59/" + numeral == "59" + ['/'] + numeral;
  }

  /** Steps just below 2^63 make an element match a minute its text does not name. */
  lemma {:induction false} WideStepHitsMore(step: nat)
    requires step <= MAX_INT && 59 + 2 * step >= TWO_64
    ensures var e := ParseElement("59/" + Numeral(step), 0, 59);
      && e == Some(Progression(59, 59, step))
      && Hits(e.value, false, 59 + 2 * step - TWO_64) && !InProgression(e.value, false, 59 + 2 * step - TWO_64)
  {
    var p := Progression(59, 59, step);
    hide Numeral, Digits, Atoi, ParseElement;
    NumeralIsStep(step);
    StepParses(Numeral(step), step);
    FirstValues(p);
    OnlyStart(p, false);
    assert Visits(p, false, 2);
  }

  /** Where the loop variable can be: on its way up through the field or, when the step is so wide
      that the second value overflows, falling back by the same amount on every pass. */
  predicate OnTheWay(p: Progression, number: int)
  {
    if p.start + p.step <= MAX_INT then number == p.start || p.start + p.step <= number
    else -59 <= number || 0 <= Height(number) <= p.end
  }

  function Height(number: int): int { if number < -TWO_64 / 4 then number + TWO_64 / 2 else number }

  function TurnsLeft(p: Progression, number: int): int
  {
    if number > p.end then -1
    else if p.start + p.step <= MAX_INT then p.end - number
    else Height(number) + 59
  }

  lemma {:induction false} TurnsShrink(p: Progression, min: int, max: int, sunday: bool, number: int)
    requires InField(p, min, max, sunday) && OnTheWay(p, number) && number <= p.end
    ensures OnTheWay(p, Add64(number, p.step)) && TurnsLeft(p, Add64(number, p.step)) < TurnsLeft(p, number) && TurnsLeft(p, number) >= 0
  {
  }

  lemma {:induction false} OnTheWayAtStart(p: Progression, min: int, max: int, sunday: bool)
    requires InField(p, min, max, sunday)
    ensures OnTheWay(p, p.start)
  {
  }

  ghost predicate HitBefore(p: Progression, sunday: bool, k: nat, v: int)
  {
    exists j: nat :: j < k && v == FoldSunday(sunday, p.At(j))
  }

  lemma {:induction false} OnePassMore(p: Progression, sunday: bool, k: nat)
    ensures forall v :: HitBefore(p, sunday, k + 1, v) <==> HitBefore(p, sunday, k, v) || v == FoldSunday(sunday, p.At(k))
  {
    forall v
      ensures HitBefore(p, sunday, k + 1, v) <==> HitBefore(p, sunday, k, v) || v == FoldSunday(sunday, p.At(k))
    {
      if HitBefore(p, sunday, k + 1, v) {
        var j: nat :| j < k + 1 && v == FoldSunday(sunday, p.At(j));
        assert j == k || HitBefore(p, sunday, k, v);
      }
      if HitBefore(p, sunday, k, v) {
        var j: nat :| j < k && v == FoldSunday(sunday, p.At(j));
        assert HitBefore(p, sunday, k + 1, v);
      }
    }
  }

  /** A loop that ended after k passes has hit the values of those passes. */
  lemma {:induction false} PassesMade(p: Progression, sunday: bool, k: nat)
    requires forall j: nat :: j < k ==> p.At(j) <= p.end && (j + 1 < k ==> !(sunday && p.At(j) == 7))
    requires p.At(k) > p.end || (k > 0 && sunday && p.At(k - 1) == 7)
    ensures forall v :: Hits(p, sunday, v) <==> HitBefore(p, sunday, k, v)
  {
    assert forall j: nat :: Visits(p, sunday, j) <==> j < k;
  }

  /** The inner loop: marks one element's values, stopping after Sunday's second name. */
  method AddProgression(values: set<int>, p: Progression, min: int, max: int, sunday: bool) returns (r: set<int>)
    requires InField(p, min, max, sunday)
    ensures forall v :: v in r <==> v in values || Hits(p, sunday, v)
  {
    r := values;
    var number := p.start;
    ghost var k: nat := 0;
    assert forall v :: !HitBefore(p, sunday, k, v);
    hide Visits, Hits, HitBefore, OnTheWay, TurnsLeft;
    OnTheWayAtStart(p, min, max, sunday);
    while number <= p.end
      invariant number == p.At(k) && OnTheWay(p, number)
      invariant forall j: nat :: j < k ==> p.At(j) <= p.end && !(sunday && p.At(j) == 7)
      invariant forall v :: v in r <==> v in values || HitBefore(p, sunday, k, v)
      decreases TurnsLeft(p, number)
    {
      OnePassMore(p, sunday, k);
      if sunday && number == 7 {
        r := r + {0};
        k := k + 1;
        break;
      }
      TurnsShrink(p, min, max, sunday, number);
      r := r + {number};
      number := Add64(number, p.step);
      k := k + 1;
    }
    PassesMade(p, sunday, k);
  }

  method ParseField(t: Chars, text: string, min: int, max: int, sunday: bool) returns (r: Option<Field>)
    requires 0 <= min <= 1 && min <= max <= 59 && (sunday ==> max <= 7)
    ensures r.Some? <==> WellFormed(t, text, min, max)
    ensures r.Some? ==> Denotes(t, text, min, max, sunday, r.value)
  {
    var parts := Split(text, ',');
    ghost var elements := Elements(t, text);
    var values: set<int> := {};
    var any := false;
    for i := 0 to |parts|
      invariant forall e <- elements[..i] :: ParseElement(e, min, max).Some?
      invariant any <==> "*" in elements[..i]
      invariant forall v :: v in values <==>
        exists e <- elements[..i] :: ParseElement(e, min, max).Some? && Hits(ParseElement(e, min, max).value, sunday, v)
    {
      var element := Trim(parts[i], t.space);
      assert elements[i] == element && elements[..i + 1] == elements[..i] + [element];
      var parsed := ParseElement(element, min, max);
      if parsed.None? {
        return None;
      }
      if element == "*" {
        any := true;
      }
      values := AddProgression(values, parsed.value, min, max, sunday);
    }
    assert elements[..|parts|] == elements;
    r := Some(Field(values, any));
  }

  /** Unless a step wraps, the field matches exactly the values its text names. */
  lemma {:induction false} FieldMeansText(t: Chars, text: string, min: int, max: int, sunday: bool, f: Field, v: int)
    requires 0 <= min <= 1 && min <= max <= 59 && (sunday ==> max <= 7) && min <= v
    requires WellFormed(t, text, min, max) && Denotes(t, text, min, max, sunday, f)
    requires forall e <- Elements(t, text) :: !WrapsAround(ParseElement(e, min, max).value, min, sunday)
    ensures v in f.values <==> exists e <- Elements(t, text) :: InProgression(ParseElement(e, min, max).value, sunday, v)
  {
    hide Hits, InProgression, Elements, ParseElement, WrapsAround;
    forall e <- Elements(t, text)
      ensures Hits(ParseElement(e, min, max).value, sunday, v) <==> InProgression(ParseElement(e, min, max).value, sunday, v)
    {
      MeansProgressionIff(ParseElement(e, min, max).value, min, max, sunday);
    }
  }

  ghost predicate ScheduleDenotes(t: Chars, text: string, c: Schedule)
  {
    var parts := Fields(text, ch => !t.space(ch));
    && |parts| == 5
    && Denotes(t, parts[0], 0, 59, false, c.minute)
    && Denotes(t, parts[1], 0, 23, false, c.hour)
    && Denotes(t, parts[2], 1, 31, false, c.dayOfMonth)
    && Denotes(t, parts[3], 1, 12, false, c.month)
    && Denotes(t, parts[4], 0, 7, true, c.dayOfWeek)
  }

  ghost predicate ScheduleWellFormed(t: Chars, text: string)
  {
    var parts := Fields(text, ch => !t.space(ch));
    && |parts| == 5
    && WellFormed(t, parts[0], 0, 59) && WellFormed(t, parts[1], 0, 23) && WellFormed(t, parts[2], 1, 31)
    && WellFormed(t, parts[3], 1, 12) && WellFormed(t, parts[4], 0, 7)
  }

  method Parse(t: Chars, text: string) returns (r: Option<Schedule>)
    ensures r.Some? <==> ScheduleWellFormed(t, text)
    ensures r.Some? ==> ScheduleDenotes(t, text, r.value)
  {
    var parts := Fields(text, ch => !t.space(ch));
    if |parts| != 5 { return None; }
    var minute := ParseField(t, parts[0], 0, 59, false);
    if minute.None? { return None; }
    var hour := ParseField(t, parts[1], 0, 23, false);
    if hour.None? { return None; }
    var dayOfMonth := ParseField(t, parts[2], 1, 31, false);
    if dayOfMonth.None? { return None; }
    var month := ParseField(t, parts[3], 1, 12, false);
    if month.None? { return None; }
    var dayOfWeek := ParseField(t, parts[4], 0, 7, true);
    if dayOfWeek.None? { return None; }
    r := Some(Schedule(minute.value, hour.value, dayOfMonth.value, month.value, dayOfWeek.value));
  }

  // ----- Matching and searching -----

  /** The day part of a match.  When both day fields are restricted either one may match. */
  predicate DayMatches(c: Schedule, day: int)
  {
    var d := DateOf(day);
    var dayOfMonth := d.day in c.dayOfMonth.values;
    var dayOfWeek := Weekday(day) in c.dayOfWeek.values;
    d.month in c.month.values &&
    if c.dayOfMonth.any && c.dayOfWeek.any then true
    else if c.dayOfMonth.any then dayOfWeek
    else if c.dayOfWeek.any then dayOfMonth
    else dayOfMonth || dayOfWeek
  }

  predicate Matches(c: Schedule, minute: int)
  {
    var ofDay := minute % MINUTES_PER_DAY;
    ofDay % 60 in c.minute.values && ofDay / 60 in c.hour.values && DayMatches(c, minute / MINUTES_PER_DAY)
  }

  /** Any day match recurs within 2921 days of every start. */
  lemma {:induction false} DayMatchRecurs(c: Schedule, day: int, start: int) returns (n: int)
    requires DayMatches(c, day)
    ensures start <= n < start + 2921 && DayMatches(c, n)
  {
    hide DateOf;
    var d := DateOf(day);
    DateOfDay(day);
    if !c.dayOfMonth.any && d.day in c.dayOfMonth.values {
      if d.month == 2 && d.day == 29 {
        n := LeapDayWithinEightYears(start);
      } else {
        n := OrdinaryDayWithinTwoYears(d.month, d.day, start);
      }
    } else {
      n := WeekdayWithinTwoYears(d.month, Weekday(day), start);
    }
  }

  /** If a schedule ever matches, it matches inside every window of 2921 days. */
  lemma {:induction false} MatchRecurs(c: Schedule, minute: int, first: int) returns (m: int)
    requires Matches(c, minute)
    ensures first <= m < first + RECURRENCE && Matches(c, m)
  {
    var ofDay := minute % MINUTES_PER_DAY;
    var start := first / MINUTES_PER_DAY + if first % MINUTES_PER_DAY > ofDay then 1 else 0;
    var day := DayMatchRecurs(c, minute / MINUTES_PER_DAY, start);
    m := day * MINUTES_PER_DAY + ofDay;
    assert m / MINUTES_PER_DAY == day && m % MINUTES_PER_DAY == ofDay;
  }

  // ----- Zones -----

  /** The minute that the zone's clocks show at each minute of absolute time. */
  type Zone = int -> int

  /** At some minute of the search the clocks are moved ahead over wall-clock minute w. */
  ghost predicate SkipsOver(zone: Zone, first: int, w: int)
  {
    exists m :: first <= m < first + HORIZON - 1 && zone(m) < w < zone(m + 1)
  }

  /** Over the search the clocks lose less than seven days. */
  ghost predicate KeepsPace(zone: Zone, first: int)
  {
    zone(first + HORIZON - 1) >= zone(first) + RECURRENCE - 1
  }

  /** Between two readings of the clocks every wall-clock minute is shown or skipped. */
  lemma {:induction false} ShownOrSkipped(zone: Zone, first: int, n: nat, w: int)
    requires zone(first) <= w <= zone(first + n)
    ensures (exists m :: first <= m <= first + n && zone(m) == w) || (exists m :: first <= m < first + n && zone(m) < w < zone(m + 1))
  {
    if n == 0 || zone(first + n) == w {
      assert zone(first + n) == w;
    } else if zone(first + n - 1) < w {
      assert zone(first + n - 1) < w < zone(first + n - 1 + 1);
    } else {
      ShownOrSkipped(zone, first, n - 1, w);
    }
  }

  /** If the search finds nothing, then every match of the next 2921 days falls into a gap of the clocks. */
  lemma {:induction false} MatchesAreSkipped(c: Schedule, zone: Zone, first: int, w: int)
    requires forall m :: first <= m < first + HORIZON ==> !Matches(c, zone(m))
    requires KeepsPace(zone, first) && zone(first) <= w < zone(first) + RECURRENCE && Matches(c, w)
    ensures SkipsOver(zone, first, w)
  {
    hide Matches;
    ShownOrSkipped(zone, first, HORIZON - 1, w);
  }

  /** Returns the first whole minute strictly after the given instant at which the zone's clocks show a
      match, if there is one within the horizon.  When there is none but the schedule does match some
      minute of a Gregorian date, then the clocks skipped a match; a zone without gaps skips none. */
  method Next(c: Schedule, zone: Zone, after: int) returns (r: Option<int>)
    ensures var first := after / MINUTE + 1;
      && (r.Some? ==> first <= r.value < first + HORIZON && Matches(c, zone(r.value)))
      && (r.Some? ==> after < r.value * MINUTE && forall m :: after < m * MINUTE && m < r.value ==> !Matches(c, zone(m)))
      && (r.None? ==> forall m :: first <= m < first + HORIZON ==> !Matches(c, zone(m)))
      && (r.None? && KeepsPace(zone, first) && (exists w :: Matches(c, w)) ==> exists w :: Matches(c, w) && SkipsOver(zone, first, w))
      && (KeepsPace(zone, first) && (forall w :: !SkipsOver(zone, first, w)) ==> (r.None? <==> forall w :: !Matches(c, w)))
  {
    var first := after / MINUTE + 1;
    var candidate := first;
    for checked := 0 to HORIZON
      invariant candidate == first + checked
      invariant forall m :: first <= m < candidate ==> !Matches(c, zone(m))
    {
      if Matches(c, zone(candidate)) {
        return Some(candidate);
      }
      candidate := candidate + 1;
    }
    if w :| Matches(c, w) && KeepsPace(zone, first) {
      var inside := MatchRecurs(c, w, zone(first));
      MatchesAreSkipped(c, zone, first, inside);
    }
    r := None;
  }

  /** A zone at a fixed offset keeps pace and skips nothing. */
  lemma {:induction false} FixedZonesSkipNothing(zone: Zone, shift: int, first: int)
    requires forall m :: zone(m) == m + shift
    ensures KeepsPace(zone, first) && forall w :: !SkipsOver(zone, first, w)
  {
  }

  /** In a zone at a fixed offset: the first match strictly after the given instant; none exactly when
      the schedule matches no minute of any Gregorian date. */
  method NextAtOffset(c: Schedule, shift: int, after: int) returns (r: Option<int>)
    ensures r.Some? ==> after < r.value * MINUTE && Matches(c, r.value + shift)
    ensures r.Some? ==> forall m :: after < m * MINUTE && m < r.value ==> !Matches(c, m + shift)
    ensures r.None? <==> forall w :: !Matches(c, w)
  {
    hide Matches, KeepsPace, SkipsOver;
    var zone: Zone := m => m + shift;
    FixedZonesSkipNothing(zone, shift, after / MINUTE + 1);
    r := Next(c, zone, after);
    if r.Some? {
      forall m | after < m * MINUTE && m < r.value
        ensures !Matches(c, m + shift)
      {
        assert zone(m) == m + shift;
      }
    }
  }
}
