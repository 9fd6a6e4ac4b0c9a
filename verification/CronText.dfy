/** What a cron schedule means, read off its text and the civil calendar
    (internal/scheduler/scheduler.go). */
module CronText {
  import opened Wrappers
  import opened Text
  import opened Calendar
  import opened Cron

  // ----- Elements -----

  datatype Base = Star | One(n: nat) | Span(low: nat, high: nat)

  function BaseText(b: Base): string
  {
    match b
    case Star => "*"
    case One(n) => Numeral(n)
    case Span(low, high) => Numeral(low) + ['-'] + Numeral(high)
  }

  function ElementText(b: Base, step: Option<nat>): string
  {
    BaseText(b) + if step.Some? then ['/'] + Numeral(step.value) else ""
  }

  predicate Small(b: Base, step: Option<nat>)
  {
    && (b.One? ==> b.n <= MAX_INT) && (b.Span? ==> b.low <= MAX_INT && b.high <= MAX_INT)
    && (step.Some? ==> step.value <= MAX_INT)
  }

  /** The first, last and step of what an element names: a star names the whole field, a number itself or,
      with a step, everything from it on, and a range what lies between. */
  function Meant(b: Base, step: Option<nat>, min: int, max: int): Option<Progression>
  {
    var every := if step.Some? then step.value else 1;
    if every == 0 then None
    else
      match b
      case Star => Some(Progression(min, max, every))
      case One(n) => if min <= n <= max then Some(Progression(n, if step.Some? then max else n, every)) else None
      case Span(low, high) => if min <= low <= high <= max then Some(Progression(low, high, every)) else None
  }

  lemma {:induction false} NumeralIsPlain(n: nat)
    ensures '/' !in Numeral(n) && '-' !in Numeral(n) && Numeral(n) != "*" && Numeral(n) != ""
  {
    assert Numeral(n)[0] in Numeral(n);
  }

  lemma {:induction false} BaseReads(b: Base, stepped: bool, min: int, max: int)
    requires Small(b, None)
    ensures ParseRange(BaseText(b), stepped, min, max) ==
      match Meant(b, if stepped then Some(1) else None, min, max)
      case Some(p) => Some((p.start, p.end))
      case None => None
  {
    hide Numeral, Split, Atoi;
    match b
    case Star =>
    case One(n) =>
      NumeralIsPlain(n);
      NumeralIsStep(n);
    case Span(low, high) =>
      NumeralIsPlain(low);
      NumeralIsPlain(high);
      NumeralIsStep(low);
      NumeralIsStep(high);
      assert BaseText(b)[|Numeral(low)|] == '-';
      SplitOnce(Numeral(low), Numeral(high), '-');
  }

  lemma {:induction false} BaseIsPlain(b: Base)
    ensures '/' !in BaseText(b) && BaseText(b) != ""
  {
    hide Numeral;
    match b
    case Star =>
    case One(n) => NumeralIsPlain(n);
    case Span(low, high) =>
      NumeralIsPlain(low);
      NumeralIsPlain(high);
  }

  lemma {:induction false} StepReads(b: Base, step: Option<nat>)
    requires Small(b, step)
    ensures var text := ElementText(b, step);
      && ('/' in text <==> step.Some?)
      && SplitStep(text) == (if step == Some(0) then None else Some((BaseText(b), if step.Some? then step.value else 1)))
  {
    hide Numeral, Split, Atoi, BaseText;
    BaseIsPlain(b);
    var text := ElementText(b, step);
    if step.Some? {
      NumeralIsStep(step.value);
      SplitOnce(BaseText(b), Numeral(step.value), '/');
      assert text == BaseText(b) + ['/'] + Numeral(step.value);
      assert text[|BaseText(b)|] == '/';
    } else {
      assert text == BaseText(b);
      SplitNone(text, '/');
    }
  }

  /** Writing an element and parsing it gives what it means. */
  lemma {:induction false} ElementReads(b: Base, step: Option<nat>, min: int, max: int)
    requires Small(b, step) && min <= max
    ensures ParseElement(ElementText(b, step), min, max) == Meant(b, step, min, max)
  {
    hide ElementText, BaseText, SplitStep, ParseRange;
    StepReads(b, step);
    BaseReads(b, step.Some?, min, max);
  }

  function Power10(n: nat): nat { if n == 0 then 1 else 10 * Power10(n - 1) }

  predicate AllDigits(s: string) { forall i :: 0 <= i < |s| ==> '0' <= s[i] <= '9' }

  /** What a row of digits is worth: each counts by its place. */
  function Worth(s: string): nat
    requires AllDigits(s)
  {
    if s == "" then 0 else (s[0] as int - '0' as int) * Power10(|s| - 1) + Worth(s[1..])
  }

  lemma {:induction false} TenTimes(digit: nat, place: nat)
    ensures digit * (10 * place) == 10 * (digit * place)
  {
  }

  lemma {:induction false} WorthAppends(s: string, c: char)
    requires AllDigits(s + [c])
    ensures AllDigits(s) && Worth(s + [c]) == 10 * Worth(s) + (c as int - '0' as int)
  {
    assert forall i :: 0 <= i < |s| ==> (s + [c])[i] == s[i];
    assert '0' <= (s + [c])[|s|] <= '9';
    if s == "" {
      assert s + [c] == [c] && [c][1..] == "" && Power10(0) == 1;
    } else {
      var digit, place := s[0] as int - '0' as int, Power10(|s| - 1);
      assert (s + [c])[1..] == s[1..] + [c];
      assert forall i :: 0 <= i < |s| ==> (s[1..] + [c])[i] == (s + [c])[i + 1];
      assert Worth(s) == digit * place + Worth(s[1..]);
      assert Worth(s + [c]) == digit * (10 * place) + Worth(s[1..] + [c]);
      hide Worth, Power10;
      TenTimes(digit, place);
      WorthAppends(s[1..], c);
    }
  }

  lemma {:induction false} DigitsIff(s: string)
    ensures Digits(s).Some? <==> s != "" && AllDigits(s)
    ensures Digits(s).Some? ==> Digits(s).value == Worth(s)
  {
    if s != "" {
      var n := |s| - 1;
      assert s == s[..n] + [s[n]];
      DigitsIff(s[..n]);
      assert AllDigits(s) <==> AllDigits(s[..n]) && '0' <= s[n] <= '9';
      if AllDigits(s) { WorthAppends(s[..n], s[n]); }
      assert n == 0 ==> s[..n] == "" && Worth("") == 0;
    }
  }

  /** A number is written with digits and perhaps a sign. */
  ghost predicate Number(s: string, n: int)
  {
    exists digits :: digits != "" && AllDigits(digits) && Signed(s, digits, n)
  }

  predicate Signed(s: string, digits: string, n: int)
    requires AllDigits(digits)
  {
    (s == digits && n == Worth(digits)) || (s == ['+'] + digits && n == Worth(digits)) || (s == ['-'] + digits && n == 0 - Worth(digits))
  }

  lemma {:induction false} AtoiIff(s: string, n: int)
    ensures Atoi(s) == Some(n) <==> Number(s, n) && -MAX_INT - 1 <= n <= MAX_INT
  {
    hide Digits, Worth;
    if s != "" {
      var signed := s[0] == '+' || s[0] == '-';
      var digits := if signed then s[1..] else s;
      DigitsIff(digits);
      assert s == [s[0]] + s[1..];
      if Number(s, n) {
        var written :| written != "" && AllDigits(written) && Signed(s, written, n);
        assert written[0] in written;
        assert written == digits;
      }
      if digits != "" && AllDigits(digits) && Signed(s, digits, n) {
        assert Number(s, n);
      }
    } else {
      DigitsIff(s);
    }
  }

  /** A base, and perhaps a step behind a slash. */
  predicate Spelled(element: string, base: string, step: Option<string>)
  {
    && base != "" && '/' !in base
    && element == base + (if step.Some? then ['/'] + step.value else "")
    && (step.Some? ==> '/' !in step.value)
  }

  ghost predicate NumberWithin(s: string, n: int, min: int, max: int)
  {
    Number(s, n) && -MAX_INT - 1 <= n <= MAX_INT && min <= n <= max
  }

  ghost predicate StepMeans(step: Option<string>, every: int)
  {
    if step.None? then every == 1 else NumberWithin(step.value, every, 1, MAX_INT)
  }

  ghost predicate IsSpan(base: string, min: int, max: int, start: int, end: int)
  {
    exists low, high :: '-' !in low && '-' !in high && base == low + ['-'] + high
      && NumberWithin(low, start, min, max) && NumberWithin(high, end, min, max)
  }

  ghost predicate BaseMeans(base: string, stepped: bool, min: int, max: int, start: int, end: int)
  {
    || (base == "*" && start == min && end == max)
    || (IsSpan(base, min, max, start, end) && start <= end)
    || (base != "*" && '-' !in base && NumberWithin(base, start, min, max) && end == if stepped then max else start)
  }

  lemma {:induction false} ParseNumberIff(s: string, min: int, max: int, n: int)
    ensures ParseNumber(s, min, max) == Some(n) <==> NumberWithin(s, n, min, max)
  {
    hide Atoi;
    AtoiIff(s, n);
  }

  lemma {:induction false} SpanHasDash(base: string, min: int, max: int, start: int, end: int)
    requires IsSpan(base, min, max, start, end)
    ensures '-' in base
  {
    hide NumberWithin;
    var low, high :| '-' !in low && '-' !in high && base == low + ['-'] + high
      && NumberWithin(low, start, min, max) && NumberWithin(high, end, min, max);
    assert base[|low|] == '-';
  }

  lemma {:induction false} RangeIff(base: string, stepped: bool, min: int, max: int, start: int, end: int)
    ensures ParseRange(base, stepped, min, max) == Some((start, end)) <==> BaseMeans(base, stepped, min, max, start, end)
  {
    hide Split, ParseNumber, NumberWithin;
    ParseNumberIff(base, min, max, start);
    if IsSpan(base, min, max, start, end) { SpanHasDash(base, min, max, start, end); }
    if base != "*" && '-' in base {
      var bounds := Split(base, '-');
      SplitParts(base, '-');
      if |bounds| == 2 {
        ParseNumberIff(bounds[0], min, max, start);
        ParseNumberIff(bounds[1], min, max, end);
        if ParseRange(base, stepped, min, max) == Some((start, end)) {
          assert base == bounds[0] + ['-'] + bounds[1] && IsSpan(base, min, max, start, end);
        }
      }
      if IsSpan(base, min, max, start, end) {
        var low, high :| '-' !in low && '-' !in high && base == low + ['-'] + high
          && NumberWithin(low, start, min, max) && NumberWithin(high, end, min, max);
        SplitOnce(low, high, '-');
      }
    }
  }

  lemma {:induction false} StepIff(element: string, base: string, every: int)
    ensures SplitStep(element) == Some((base, every)) <==>
      exists step :: Spelled(element, base, step) && StepMeans(step, every)
  {
    hide Split, Atoi, Number;
    var parts := Split(element, '/');
    SplitParts(element, '/');
    if |parts| == 2 { AtoiIff(parts[1], every); }
    if SplitStep(element) == Some((base, every)) {
      var step := if |parts| == 1 then None else Some(parts[1]);
      assert Spelled(element, base, step) && StepMeans(step, every);
    }
    if step :| Spelled(element, base, step) && StepMeans(step, every) {
      if step.Some? {
        SplitOnce(base, step.value, '/');
        assert element == base + ['/'] + step.value;
      } else {
        assert element == base;
      }
    }
  }

  /** An element is accepted exactly when it is a star, a number or a range within the field, with or
      without a positive step, and nothing else. */
  lemma {:induction false} ElementIff(element: string, min: int, max: int, p: Progression)
    requires min <= max
    ensures ParseElement(element, min, max) == Some(p) <==>
      exists base, step :: Spelled(element, base, step) && StepMeans(step, p.step)
        && BaseMeans(base, step.Some?, min, max, p.start, p.end)
  {
    hide SplitStep, ParseRange, StepMeans, BaseMeans;
    if ParseElement(element, min, max) == Some(p) {
      var base := SplitStep(element).value.0;
      StepIff(element, base, p.step);
      RangeIff(base, '/' in element, min, max, p.start, p.end);
      var step :| Spelled(element, base, step) && StepMeans(step, p.step);
      SlashIff(element, base, step);
    }
    if base, step :| Spelled(element, base, step) && StepMeans(step, p.step)
                     && BaseMeans(base, step.Some?, min, max, p.start, p.end) {
      StepIff(element, base, p.step);
      SlashIff(element, base, step);
      RangeIff(base, '/' in element, min, max, p.start, p.end);
    }
  }

  lemma {:induction false} SlashIff(element: string, base: string, step: Option<string>)
    requires Spelled(element, base, step)
    ensures '/' in element <==> step.Some?
  {
    if step.Some? { assert element[|base|] == '/'; } else { assert element == base; }
  }

  // ----- Schedules -----

  /** The civil time a clock shows. */
  datatype Civil = Civil(date: Date, hour: int, minute: int)

  const MONDAY := Date(2024, 1, 8)

  predicate IsCivil(x: Civil) { ValidDate(x.date) && 0 <= x.hour < 24 && 0 <= x.minute < 60 }

  predicate Reads(wall: int, x: Civil)
  {
    IsCivil(x) && wall == DayNumber(x.date) * 1440 + x.hour * 60 + x.minute
  }

  /** Counted from a Monday, which is 1; Sunday is 0. */
  function DayOfWeek(d: Date): int
    requires ValidDate(d)
  {
    assert ValidDate(MONDAY);
    (DayNumber(d) - DayNumber(MONDAY) + 1) % 7
  }

  ghost predicate Names(t: Chars, text: string, min: int, max: int, sunday: bool, v: int)
    requires min <= max
  {
    exists e <- Elements(t, text) :: ParseElement(e, min, max).Some? && InProgression(ParseElement(e, min, max).value, sunday, v)
  }

  predicate HasStar(t: Chars, text: string) { "*" in Elements(t, text) }

  /** The schedule names the civil time: minute, hour and month, and, of the day of the month and the day
      of the week, both if one is a star and at least one if neither is. */
  ghost predicate Fires(t: Chars, text: string, x: Civil)
    requires IsCivil(x)
  {
    var parts := Fields(text, ch => !t.space(ch));
    && |parts| == 5
    && Names(t, parts[0], 0, 59, false, x.minute) && Names(t, parts[1], 0, 23, false, x.hour)
    && Names(t, parts[3], 1, 12, false, x.date.month)
    && var ofMonth := Names(t, parts[2], 1, 31, false, x.date.day);
       var ofWeek := Names(t, parts[4], 0, 7, true, DayOfWeek(x.date));
       if HasStar(t, parts[2]) || HasStar(t, parts[4]) then ofMonth && ofWeek else ofMonth || ofWeek
  }

  ghost predicate FieldIsNarrow(t: Chars, text: string, min: int, max: int, sunday: bool)
    requires min <= max
  {
    forall e <- Elements(t, text) :: ParseElement(e, min, max).Some? ==> !WrapsAround(ParseElement(e, min, max).value, min, sunday)
  }

  /** No step is so wide that the counter wraps back into its field. */
  ghost predicate Narrow(t: Chars, text: string)
  {
    var parts := Fields(text, ch => !t.space(ch));
    |parts| == 5 ==>
      && FieldIsNarrow(t, parts[0], 0, 59, false) && FieldIsNarrow(t, parts[1], 0, 23, false)
      && FieldIsNarrow(t, parts[2], 1, 31, false) && FieldIsNarrow(t, parts[3], 1, 12, false)
      && FieldIsNarrow(t, parts[4], 0, 7, true)
  }

  lemma {:induction false} FieldNames(t: Chars, text: string, min: int, max: int, sunday: bool, f: Field, v: int)
    requires 0 <= min <= 1 && min <= max <= 59 && (sunday ==> max <= 7) && min <= v
    requires WellFormed(t, text, min, max) && Denotes(t, text, min, max, sunday, f) && FieldIsNarrow(t, text, min, max, sunday)
    ensures v in f.values <==> Names(t, text, min, max, sunday, v)
    ensures f.any <==> HasStar(t, text)
  {
    hide InProgression, Hits, Elements, ParseElement, WrapsAround;
    FieldMeansText(t, text, min, max, sunday, f, v);
  }

  lemma {:induction false} StarIsAll(min: int, max: int)
    requires min <= max
    ensures ParseElement("*", min, max) == Some(Progression(min, max, 1))
  {
    hide ParseElement, ElementText, BaseText;
    StarText();
    ElementReads(Star, None, min, max);
  }

  lemma {:induction false} StarText()
    ensures ElementText(Star, None) == "*"
  {
  }

  /** A star names every value of its field. */
  lemma {:induction false} StarNames(t: Chars, text: string, min: int, max: int, sunday: bool, v: int)
    requires min <= v <= max && HasStar(t, text) && !(sunday && v == 7)
    ensures Names(t, text, min, max, sunday, v)
  {
    hide Elements, ParseElement;
    StarIsAll(min, max);
    var p := Progression(min, max, 1);
    assert p.Nth(v - min) == v;
    assert InProgression(p, sunday, v);
  }

  lemma {:induction false} MondayIsCounted()
    ensures ValidDate(MONDAY) && DayNumber(MONDAY) == 738892
  {
    MonthsFillYear(2024, 1);
  }

  lemma {:induction false} WeekdayCounts(d: Date)
    requires ValidDate(d)
    ensures Weekday(DayNumber(d)) == DayOfWeek(d)
  {
    hide DayNumber;
    MondayIsCounted();
    SevenApart(DayNumber(d));
  }

  lemma {:induction false} SevenApart(n: int)
    ensures (n - 738892 + 1) % 7 == (n + 1) % 7
  {
    assert n + 1 == (n - 738892 + 1) + 7 * 105556;
  }

  lemma {:induction false} ReadsAs(wall: int, x: Civil)
    requires Reads(wall, x)
    ensures wall / 1440 == DayNumber(x.date) && DateOf(wall / 1440) == x.date
    ensures wall % 1440 % 60 == x.minute && wall % 1440 / 60 == x.hour
  {
    hide DayNumber, DateOf;
    DayOfDate(x.date);
    ClockReads(DayNumber(x.date), x.hour, x.minute);
  }

  lemma {:induction false} ClockReads(day: int, hour: int, minute: int)
    requires 0 <= hour < 24 && 0 <= minute < 60
    ensures var wall := day * 1440 + hour * 60 + minute;
      wall / 1440 == day && wall % 1440 / 60 == hour && wall % 1440 % 60 == minute
  {
    var rest := hour * 60 + minute;
    assert (day * 1440 + rest) / 1440 == day && (day * 1440 + rest) % 1440 == rest;
  }

  /** Every minute of the wall clock reads as exactly one civil time. */
  lemma {:induction false} ReadsOnce(wall: int) returns (x: Civil)
    ensures Reads(wall, x) && forall y :: Reads(wall, y) ==> y == x
  {
    DateOfDay(wall / 1440);
    x := Civil(DateOf(wall / 1440), wall % 1440 / 60, wall % 1440 % 60);
    hide DayNumber, DateOf;
    assert Reads(wall, x);
    forall y | Reads(wall, y)
      ensures y == x
    {
      ReadsAs(wall, y);
    }
  }

  lemma {:induction false} DayFires(t: Chars, ofMonthText: string, ofWeekText: string, ofMonth: Field, ofWeek: Field, d: Date)
    requires ValidDate(d)
    requires WellFormed(t, ofMonthText, 1, 31) && Denotes(t, ofMonthText, 1, 31, false, ofMonth) && FieldIsNarrow(t, ofMonthText, 1, 31, false)
    requires WellFormed(t, ofWeekText, 0, 7) && Denotes(t, ofWeekText, 0, 7, true, ofWeek) && FieldIsNarrow(t, ofWeekText, 0, 7, true)
    ensures var (m, w) := (Names(t, ofMonthText, 1, 31, false, d.day), Names(t, ofWeekText, 0, 7, true, DayOfWeek(d)));
      (if ofMonth.any && ofWeek.any then true
       else if ofMonth.any then DayOfWeek(d) in ofWeek.values
       else if ofWeek.any then d.day in ofMonth.values
       else d.day in ofMonth.values || DayOfWeek(d) in ofWeek.values)
      <==> if HasStar(t, ofMonthText) || HasStar(t, ofWeekText) then m && w else m || w
  {
    hide WellFormed, Denotes, FieldIsNarrow, Names, HasStar, DayOfWeek;
    DayOfWeekBounds(d);
    FieldNames(t, ofMonthText, 1, 31, false, ofMonth, d.day);
    FieldNames(t, ofWeekText, 0, 7, true, ofWeek, DayOfWeek(d));
    if HasStar(t, ofMonthText) { StarNames(t, ofMonthText, 1, 31, false, d.day); }
    if HasStar(t, ofWeekText) { StarNames(t, ofWeekText, 0, 7, true, DayOfWeek(d)); }
  }

  lemma {:induction false} DayOfWeekBounds(d: Date)
    requires ValidDate(d)
    ensures 0 <= DayOfWeek(d) <= 6 && 1 <= d.day <= 31 && 1 <= d.month <= 12
  {
  }

  /** A parsed schedule matches a minute exactly when its text names the civil time of that minute. */
  lemma {:induction false} MatchesIffFires(t: Chars, text: string, c: Schedule, wall: int, x: Civil)
    requires ScheduleWellFormed(t, text) && ScheduleDenotes(t, text, c) && Narrow(t, text) && Reads(wall, x)
    ensures Matches(c, wall) <==> Fires(t, text, x)
  {
    hide WellFormed, Denotes, FieldIsNarrow, Names, HasStar, DayOfWeek, DateOf, DayNumber, Weekday;
    var parts := Fields(text, ch => !t.space(ch));
    DayOfWeekBounds(x.date);
    ReadsAs(wall, x);
    WeekdayCounts(x.date);
    FieldNames(t, parts[0], 0, 59, false, c.minute, x.minute);
    FieldNames(t, parts[1], 0, 23, false, c.hour, x.hour);
    FieldNames(t, parts[3], 1, 12, false, c.month, x.date.month);
    DayFires(t, parts[2], parts[4], c.dayOfMonth, c.dayOfWeek, x.date);
  }

  /** Some civil time shown at minute m is one the schedule names. */
  ghost predicate FiresAt(t: Chars, text: string, wall: int)
  {
    exists x :: Reads(wall, x) && Fires(t, text, x)
  }

  lemma {:induction false} MatchesIffFiresAt(t: Chars, text: string, c: Schedule, wall: int)
    requires ScheduleWellFormed(t, text) && ScheduleDenotes(t, text, c) && Narrow(t, text)
    ensures Matches(c, wall) <==> FiresAt(t, text, wall)
  {
    hide Matches, Fires, Narrow, ScheduleWellFormed, ScheduleDenotes, Reads;
    var x := ReadsOnce(wall);
    MatchesIffFires(t, text, c, wall, x);
  }

  /** Parsing a schedule and searching for its next run, on clocks at a fixed offset.  The answer is the
      first later minute whose civil time the text names; there is none exactly when it names no civil
      time at all. */
  method NextRun(t: Chars, text: string, shift: int, after: int) returns (ok: bool, r: Option<int>)
    ensures ok <==> ScheduleWellFormed(t, text)
    ensures ok && Narrow(t, text) && r.Some? ==>
      after < r.value * MINUTE && FiresAt(t, text, r.value + shift)
      && forall m :: after < m * MINUTE && m < r.value ==> !FiresAt(t, text, m + shift)
    ensures ok && Narrow(t, text) ==> (r.None? <==> forall x :: IsCivil(x) ==> !Fires(t, text, x))
  {
    hide Matches, Fires, FiresAt, Narrow, ScheduleWellFormed, ScheduleDenotes;
    var c := Parse(t, text);
    if c.None? { return false, None; }
    ok := true;
    r := NextAtOffset(c.value, shift, after);
    if Narrow(t, text) { SearchMeans(t, text, c.value, shift, after, r); }
  }

  lemma {:induction false} SearchMeans(t: Chars, text: string, c: Schedule, shift: int, after: int, r: Option<int>)
    requires ScheduleWellFormed(t, text) && ScheduleDenotes(t, text, c) && Narrow(t, text)
    requires r.Some? ==> Matches(c, r.value + shift)
    requires r.Some? ==> forall m :: after < m * MINUTE && m < r.value ==> !Matches(c, m + shift)
    requires r.None? <==> forall w :: !Matches(c, w)
    ensures r.Some? ==> FiresAt(t, text, r.value + shift)
    ensures r.Some? ==> forall m :: after < m * MINUTE && m < r.value ==> !FiresAt(t, text, m + shift)
    ensures r.None? <==> forall x :: IsCivil(x) ==> !Fires(t, text, x)
  {
    hide Matches, Fires, Narrow, ScheduleWellFormed, ScheduleDenotes;
    forall w
      ensures Matches(c, w) <==> FiresAt(t, text, w)
    {
      MatchesIffFiresAt(t, text, c, w);
    }
    forall x | IsCivil(x)
      ensures Reads(DayNumber(x.date) * 1440 + x.hour * 60 + x.minute, x)
    {
    }
    if r.None? {
      forall x | IsCivil(x)
        ensures !Fires(t, text, x)
      {
        assert !Matches(c, DayNumber(x.date) * 1440 + x.hour * 60 + x.minute);
      }
    } else {
      assert FiresAt(t, text, r.value + shift);
    }
  }
}
