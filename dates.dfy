/** The calendar helpers of the leave workflow
    (src/controllers/leaveController.js:10-38): `parseYMD`, `formatYMD`,
    `eachDateInclusive` and `isValidYMD`.

    A JavaScript `Date` built with `Date.UTC(y, m, d)` stands for a UTC
    midnight; it is modelled as the proleptic Gregorian calendar date it
    denotes, and its time value (what `<`, `<=` and `>` compare) as
    `DayIndex`, the number of days since 1 January of year 0. */
module Dates {
  import opened Common
  import opened Text

  datatype CivilDate = CivilDate(year: nat, month: nat, day: nat)

  predicate IsLeapYear(y: nat)
  {
    y % 4 == 0 && (y % 100 != 0 || y % 400 == 0)
  }

  function DaysInYear(y: nat): nat
  {
    if IsLeapYear(y) then 366 else 365
  }

  function DaysInMonth(y: nat, m: nat): nat
  {
    if m == 2 then (if IsLeapYear(y) then 29 else 28)
    else if m == 4 || m == 6 || m == 9 || m == 11 then 30
    else 31
  }

  predicate ValidDate(t: CivilDate)
  {
    1 <= t.month <= 12 && 1 <= t.day <= DaysInMonth(t.year, t.month)
  }

  /** Days from 1 January of year 0 to 1 January of year `y`. */
  function DaysBeforeYear(y: nat): nat
  {
    if y == 0 then 0 else DaysBeforeYear(y - 1) + DaysInYear(y - 1)
  }

  /** Days from 1 January to the first day of month `m` (13 stands for the
      end of the year). */
  function DaysBeforeMonth(y: nat, m: nat): nat
    requires 1 <= m <= 13
  {
    if m == 1 then 0 else DaysBeforeMonth(y, m - 1) + DaysInMonth(y, m - 1)
  }

  /** The time value of a UTC midnight, counted in days. */
  function DayIndex(t: CivilDate): nat
    requires 1 <= t.month <= 12 && t.day >= 1
  {
    DaysBeforeYear(t.year) + DaysBeforeMonth(t.year, t.month) + t.day - 1
  }

  /** The twelve months fill the year exactly. */
  lemma MonthsFillYear(y: nat)
    ensures DaysBeforeMonth(y, 13) == DaysInYear(y)
  {
    var feb := DaysInMonth(y, 2);
    assert DaysBeforeMonth(y, 2) == 31;
    assert DaysBeforeMonth(y, 3) == 31 + feb;
    assert DaysBeforeMonth(y, 4) == 62 + feb;
    assert DaysBeforeMonth(y, 5) == 92 + feb;
    assert DaysBeforeMonth(y, 6) == 123 + feb;
    assert DaysBeforeMonth(y, 7) == 153 + feb;
    assert DaysBeforeMonth(y, 8) == 184 + feb;
    assert DaysBeforeMonth(y, 9) == 215 + feb;
    assert DaysBeforeMonth(y, 10) == 245 + feb;
    assert DaysBeforeMonth(y, 11) == 276 + feb;
    assert DaysBeforeMonth(y, 12) == 306 + feb;
  }

  lemma {:induction false} DaysBeforeMonthGrows(y: nat, m: nat, n: nat)
    requires 1 <= m <= n <= 13
    ensures DaysBeforeMonth(y, m) <= DaysBeforeMonth(y, n)
    decreases n - m
  {
    if m < n {
      DaysBeforeMonthGrows(y, m, n - 1);
    }
  }

  lemma {:induction false} DaysBeforeYearGrows(a: nat, b: nat)
    requires a < b
    ensures DaysBeforeYear(a) + DaysInYear(a) <= DaysBeforeYear(b)
    decreases b - a
  {
    if a + 1 < b {
      DaysBeforeYearGrows(a, b - 1);
    }
  }

  /** A valid date lies inside its year. */
  lemma DayIndexWithinYear(t: CivilDate)
    requires ValidDate(t)
    ensures DaysBeforeYear(t.year) <= DayIndex(t) < DaysBeforeYear(t.year) + DaysInYear(t.year)
  {
    DaysBeforeMonthGrows(t.year, t.month + 1, 13);
    MonthsFillYear(t.year);
  }

  /** Calendar order: year, then month, then day. */
  predicate Before(a: CivilDate, b: CivilDate)
  {
    a.year < b.year ||
    (a.year == b.year && (a.month < b.month || (a.month == b.month && a.day < b.day)))
  }

  /** The time value grows strictly with the calendar order. */
  lemma DayIndexMonotone(a: CivilDate, b: CivilDate)
    requires ValidDate(a) && ValidDate(b) && Before(a, b)
    ensures DayIndex(a) < DayIndex(b)
  {
    if a.year < b.year {
      DayIndexWithinYear(a);
      DayIndexWithinYear(b);
      DaysBeforeYearGrows(a.year, b.year);
    } else if a.month < b.month {
      DaysBeforeMonthGrows(a.year, a.month + 1, b.month);
    }
  }

  /** Distinct valid dates have distinct time values. */
  lemma DayIndexInjective(a: CivilDate, b: CivilDate)
    requires ValidDate(a) && ValidDate(b) && DayIndex(a) == DayIndex(b)
    ensures a == b
  {
    if Before(a, b) {
      DayIndexMonotone(a, b);
    } else if Before(b, a) {
      DayIndexMonotone(b, a);
    }
  }

  /** The next calendar day (`setUTCDate(getUTCDate() + 1)`). */
  function Succ(t: CivilDate): (r: CivilDate)
    requires ValidDate(t)
    ensures ValidDate(r)
  {
    if t.day < DaysInMonth(t.year, t.month) then CivilDate(t.year, t.month, t.day + 1)
    else if t.month < 12 then CivilDate(t.year, t.month + 1, 1)
    else CivilDate(t.year + 1, 1, 1)
  }

  /** The next day's time value is one day later. */
  lemma SuccIndex(t: CivilDate)
    requires ValidDate(t)
    ensures DayIndex(Succ(t)) == DayIndex(t) + 1
  {
    if t.day == DaysInMonth(t.year, t.month) {
      if t.month < 12 {
        assert DaysBeforeMonth(t.year, t.month + 1) == DaysBeforeMonth(t.year, t.month) + DaysInMonth(t.year, t.month);
      } else {
        MonthsFillYear(t.year);
        assert DaysBeforeMonth(t.year, 13) == DaysBeforeMonth(t.year, 12) + 31;
        assert DaysBeforeYear(t.year + 1) == DaysBeforeYear(t.year) + DaysInYear(t.year);
      }
    }
  }

  /** The date `n` days after `t`. */
  function Nth(t: CivilDate, n: nat): (r: CivilDate)
    requires ValidDate(t)
    ensures ValidDate(r)
  {
    if n == 0 then t else Succ(Nth(t, n - 1))
  }

  lemma {:induction false} NthIndex(t: CivilDate, n: nat)
    requires ValidDate(t)
    ensures DayIndex(Nth(t, n)) == DayIndex(t) + n
  {
    if n > 0 {
      var p := Nth(t, n - 1);
      NthIndex(t, n - 1);
      SuccIndex(p);
      assert Nth(t, n) == Succ(p);
    }
  }

  /** `Date.UTC(y, month0, day)` for `day >= 1`: a month index past December
      carries into the year, and a day past the end of its month carries
      into the following months. */
  function MakeDate(y: nat, month0: nat, day: nat): (r: CivilDate)
    requires day >= 1
    ensures ValidDate(r)
    ensures DayIndex(r) == DaysBeforeYear(y + month0 / 12) + DaysBeforeMonth(y + month0 / 12, month0 % 12 + 1) + day - 1
  {
    RollDays(y + month0 / 12, month0 % 12 + 1, day)
  }

  /** An in-range month and day need no rolling over. */
  lemma MakeDateInRange(y: nat, m: nat, d: nat)
    requires 1 <= m <= 12 && 1 <= d <= DaysInMonth(y, m)
    ensures MakeDate(y, m - 1, d) == CivilDate(y, m, d)
  {
    assert (m - 1) / 12 == 0 && (m - 1) % 12 == m - 1;
  }

  function RollDays(y: nat, m: nat, d: nat): (r: CivilDate)
    requires 1 <= m <= 12 && d >= 1
    ensures ValidDate(r)
    ensures DayIndex(r) == DaysBeforeYear(y) + DaysBeforeMonth(y, m) + d - 1
    decreases d
  {
    if d <= DaysInMonth(y, m) then CivilDate(y, m, d)
    else if m < 12 then RollDays(y, m + 1, d - DaysInMonth(y, m))
    else
      MonthsFillYear(y);
      RollDays(y + 1, 1, d - DaysInMonth(y, m))
  }

  /** `isValidYMD`: the string has the shape `DDDD-DD-DD`; month and day
      ranges are not checked. */
  predicate IsValidYMD(s: string)
    ensures IsValidYMD(s) <==>
      |s| == 10 && forall i :: 0 <= i < |s| ==> if i == 4 || i == 7 then s[i] == '-' else IsDigit(s[i])
  {
    assert |s| == 10 ==> forall i :: 0 <= i < 4 ==> s[..4][i] == s[i];
    assert |s| == 10 ==> forall i :: 5 <= i < 7 ==> s[5..7][i - 5] == s[i];
    assert |s| == 10 ==> forall i :: 8 <= i < 10 ==> s[8..][i - 8] == s[i];
    |s| == 10 && s[4] == '-' && s[7] == '-' &&
    AllDigits(s[..4]) && AllDigits(s[5..7]) && AllDigits(s[8..])
  }

  /** `Date.UTC` reads a year from 0 to 99 as 1900 to 1999. */
  function FullYear(y: nat): nat
  {
    if y <= 99 then 1900 + y else y
  }

  /** `parseYMD` of a string of the `isValidYMD` shape: a zero month or
      day is read as 1, and the three numbers go through `Date.UTC`.
      Strings of any other shape are not parsed. */
  function ParseYMD(s: string): (r: Option<CivilDate>)
    ensures r.Some? <==> IsValidYMD(s)
    ensures r.Some? ==> ValidDate(r.value)
  {
    if !IsValidYMD(s) then None
    else
      var y := ValueOf(s[..4]);
      var m := ValueOf(s[5..7]);
      var d := ValueOf(s[8..]);
      Some(MakeDate(FullYear(y), (if m == 0 then 1 else m) - 1, if d == 0 then 1 else d))
  }

  /** `formatYMD`: the year as `String` prints it, then the two-digit month
      and day. */
  function FormatYMD(t: CivilDate): (r: string)
    ensures 1000 <= t.year <= 9999 && t.month < 100 && t.day < 100 ==> IsValidYMD(r)
  {
    FourDigits(t.year);
    NatToString(t.year) + "-" + Pad2(t.month) + "-" + Pad2(t.day)
  }

  /** A canonical date string: four-digit year from 1000, a real month and a
      real day of that month. */
  predicate Canonical(s: string)
  {
    IsValidYMD(s) && s[0] != '0' &&
    1 <= ValueOf(s[5..7]) <= 12 && 1 <= ValueOf(s[8..]) <= DaysInMonth(ValueOf(s[..4]), ValueOf(s[5..7]))
  }

  /** Formatting a parsed canonical string gives the string back. */
  lemma FormatParse(s: string)
    requires Canonical(s)
    ensures ParseYMD(s).Some? && FormatYMD(ParseYMD(s).value) == s
  {
    var y := ValueOf(s[..4]);
    var m := ValueOf(s[5..7]);
    var d := ValueOf(s[8..]);
    assert s[..4][0] == s[0];
    ValueOfLeadingNonZero(s[..4]);
    NatToStringOfValue(s[..4]);
    assert |NatToString(y)| == 4;
    assert y >= 100 && FullYear(y) == y;
    MakeDateInRange(y, m, d);
    assert ParseYMD(s).value == CivilDate(y, m, d);
    Pad2OfValue(s[5..7]);
    Pad2OfValue(s[8..]);
    assert s == s[..4] + "-" + s[5..7] + "-" + s[8..];
  }

  lemma Pad2Value(n: nat)
    requires n < 100
    ensures ValueOf(Pad2(n)) == n
  {
    ValueOfNatToString(n);
    if n < 10 {
      assert Pad2(n) == ['0', DigitChar(n)];
      assert Pad2(n)[..1] == ['0'];
    }
  }

  /** Distinct valid dates print differently. */
  lemma FormatInjective(a: CivilDate, b: CivilDate)
    requires ValidDate(a) && ValidDate(b)
    ensures FormatYMD(a) == FormatYMD(b) ==> a == b
  {
    if FormatYMD(a) == FormatYMD(b) {
      var fa := FormatYMD(a);
      var k := |NatToString(a.year)|;
      assert |fa| == k + 6 == |NatToString(b.year)| + 6;
      assert fa[..k] == NatToString(a.year) == NatToString(b.year);
      assert fa[k + 1..k + 3] == Pad2(a.month) == Pad2(b.month);
      assert fa[k + 4..] == Pad2(a.day) == Pad2(b.day);
      ValueOfNatToString(a.year);
      ValueOfNatToString(b.year);
      Pad2Value(a.month);
      Pad2Value(b.month);
      Pad2Value(a.day);
      Pad2Value(b.day);
    }
  }

  /** The first `n` days from `s`, each printed by `show`. */
  function Days(s: CivilDate, n: nat, show: CivilDate -> string): (r: seq<string>)
    requires ValidDate(s)
    ensures |r| == n
  {
    if n == 0 then [] else Days(s, n - 1, show) + [show(Nth(s, n - 1))]
  }

  /** Number of days `eachDateInclusive` lists: none when either end does
      not parse or the range is reversed, else the day difference plus one. */
  function RangeLength(startYmd: string, endYmd: string): nat
  {
    var s := ParseYMD(startYmd);
    var e := ParseYMD(endYmd);
    if s.None? || e.None? || DayIndex(s.value) > DayIndex(e.value) then 0
    else DayIndex(e.value) - DayIndex(s.value) + 1
  }

  /** What `eachDateInclusive` returns, as a specification. */
  function DateRange(startYmd: string, endYmd: string): (r: seq<string>)
    ensures |r| == RangeLength(startYmd, endYmd)
    ensures r == [] <==> ParseYMD(startYmd).None? || ParseYMD(endYmd).None? ||
                         DayIndex(ParseYMD(startYmd).value) > DayIndex(ParseYMD(endYmd).value)
  {
    if RangeLength(startYmd, endYmd) == 0 then []
    else Days(ParseYMD(startYmd).value, RangeLength(startYmd, endYmd), FormatYMD)
  }

  /** `eachDateInclusive`: walk a day at a time from the start while not
      past the end, printing each day. */
  method EachDateInclusive(startYmd: string, endYmd: string) returns (out: seq<string>)
    ensures out == DateRange(startYmd, endYmd)
  {
    var start := ParseYMD(startYmd);
    var end := ParseYMD(endYmd);
    if start.None? || end.None? {
      assert RangeLength(startYmd, endYmd) == 0;
      return [];
    }
    if DayIndex(start.value) > DayIndex(end.value) {
      assert RangeLength(startYmd, endYmd) == 0;
      return [];
    }
    assert RangeLength(startYmd, endYmd) == DayIndex(end.value) - DayIndex(start.value) + 1;
    out := WalkDays(start.value, end.value, FormatYMD);
  }

  /** The loop of `eachDateInclusive`, from a start that is not past the
      end, printing each day with `show`. */
  method WalkDays(s: CivilDate, e: CivilDate, show: CivilDate -> string) returns (out: seq<string>)
    requires ValidDate(s) && ValidDate(e) && DayIndex(s) <= DayIndex(e)
    ensures out == Days(s, DayIndex(e) - DayIndex(s) + 1, show)
  {
    out := [];
    // `time` is the day index of `cur`, the value the source compares
    var cur, time, last := s, DayIndex(s), DayIndex(e);
    while time <= last
      invariant DayIndex(s) <= time <= last + 1
      invariant cur == Nth(s, time - DayIndex(s))
      invariant out == Days(s, time - DayIndex(s), show)
      decreases last + 1 - time
    {
      WalkStep(s, time - DayIndex(s), show);
      out := out + [show(cur)];
      cur, time := Succ(cur), time + 1;
    }
  }

  /** One more day of the walk: the next date, printed at the end. */
  lemma WalkStep(s: CivilDate, n: nat, show: CivilDate -> string)
    requires ValidDate(s)
    ensures Succ(Nth(s, n)) == Nth(s, n + 1)
    ensures Days(s, n + 1, show) == Days(s, n, show) + [show(Nth(s, n))]
  {
  }

  lemma {:induction false} DaysAt(s: CivilDate, n: nat, show: CivilDate -> string)
    requires ValidDate(s)
    ensures |Days(s, n, show)| == n
    ensures forall k :: 0 <= k < n ==> Days(s, n, show)[k] == show(Nth(s, k))
  {
    if n > 0 {
      DaysAt(s, n - 1, show);
      var prev := Days(s, n - 1, show);
      assert Days(s, n, show) == prev + [show(Nth(s, n - 1))];
      forall k | 0 <= k < n
        ensures Days(s, n, show)[k] == show(Nth(s, k))
      {
        if k < n - 1 {
          assert Days(s, n, show)[k] == prev[k];
        }
      }
    }
  }

  /** The range lists strictly consecutive days, from the start date through
      the end date, each once; reversed or unparsable ranges list nothing. */
  lemma DateRangeSpans(startYmd: string, endYmd: string)
    ensures |DateRange(startYmd, endYmd)| == RangeLength(startYmd, endYmd)
    ensures DateRange(startYmd, endYmd) != [] ==>
      var s := ParseYMD(startYmd).value;
      forall k :: 0 <= k < |DateRange(startYmd, endYmd)| ==> DateRange(startYmd, endYmd)[k] == FormatYMD(Nth(s, k))
    ensures DateRange(startYmd, endYmd) != [] ==>
      DateRange(startYmd, endYmd)[0] == FormatYMD(ParseYMD(startYmd).value) &&
      DateRange(startYmd, endYmd)[|DateRange(startYmd, endYmd)| - 1] == FormatYMD(ParseYMD(endYmd).value)
    ensures forall i, j :: 0 <= i < j < |DateRange(startYmd, endYmd)| ==>
      DateRange(startYmd, endYmd)[i] != DateRange(startYmd, endYmd)[j]
  {
    var n := RangeLength(startYmd, endYmd);
    if n > 0 {
      var s, e := ParseYMD(startYmd).value, ParseYMD(endYmd).value;
      DaysAt(s, n, FormatYMD);
      NthIndex(s, n - 1);
      DayIndexInjective(Nth(s, n - 1), e);
      forall i, j | 0 <= i < j < n
        ensures Days(s, n, FormatYMD)[i] != Days(s, n, FormatYMD)[j]
      {
        NthIndex(s, i);
        NthIndex(s, j);
        FormatInjective(Nth(s, i), Nth(s, j));
      }
    }
  }

  /** For canonical strings the range starts and ends with the very strings
      it was given. */
  lemma DateRangeEnds(startYmd: string, endYmd: string)
    requires Canonical(startYmd) && Canonical(endYmd)
    requires DayIndex(ParseYMD(startYmd).value) <= DayIndex(ParseYMD(endYmd).value)
    ensures DateRange(startYmd, endYmd) != []
    ensures DateRange(startYmd, endYmd)[0] == startYmd
    ensures DateRange(startYmd, endYmd)[|DateRange(startYmd, endYmd)| - 1] == endYmd
  {
    DateRangeSpans(startYmd, endYmd);
    FormatParse(startYmd);
    FormatParse(endYmd);
  }

  /** The shape check admits dates that are not real: `2024-13-45` passes it
      and parses to 14 February 2025. */
  lemma ShapeOnlyExample()
    ensures IsValidYMD("2024-13-45")
    ensures ParseYMD("2024-13-45") == Some(CivilDate(2025, 2, 14))
  {
    ExampleShape();
    ExampleFields();
    ExampleRoll();
  }

  lemma ExampleShape()
    ensures IsValidYMD("2024-13-45")
    ensures "2024-13-45"[..4] == "2024" && "2024-13-45"[5..7] == "13" && "2024-13-45"[8..] == "45"
  {
    var s := "2024-13-45";
    assert s[..4] == "2024" && s[5..7] == "13" && s[8..] == "45";
    assert AllDigits("2024") && AllDigits("13") && AllDigits("45");
  }

  lemma ExampleFields()
    ensures ValueOf("2024") == 2024 && ValueOf("13") == 13 && ValueOf("45") == 45
  {
    assert "2024"[..3] == "202" && "202"[..2] == "20" && "20"[..1] == "2" && "2"[..0] == "";
    assert "13"[..1] == "1" && "1"[..0] == "";
    assert "45"[..1] == "4" && "4"[..0] == "";
  }

  lemma ExampleRoll()
    ensures MakeDate(2024, 12, 45) == CivilDate(2025, 2, 14)
  {
    assert MakeDate(2024, 12, 45) == RollDays(2025, 1, 45);
    assert DaysInMonth(2025, 1) == 31;
    assert RollDays(2025, 1, 45) == RollDays(2025, 2, 14);
    assert !IsLeapYear(2025);
  }
}
