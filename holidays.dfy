/**
 * Assembly of the Japanese holiday list for a semester: the nth-weekday rule for
 * movable holidays, fixed dates placed in the academic year (April to March),
 * substitute holidays after Sunday holidays, and the filter / de-duplicate / sort
 * steps that turn one list per year into the list for a date range.
 *
 * Calendar arithmetic done with JavaScript `Date` (weekday of the first of a month,
 * the weekday of a date, rendering the following day, the year of a date string and
 * the floating-point equinox formulas) is supplied as a `Calendar` value.
 */
module Holidays {
  import opened Strings
  import Sorting

  datatype HolidayKind = Fixed | Calculated | Substitute
  datatype Holiday = Holiday(date: string, name: string, kind: HolidayKind)

  datatype Calendar = Calendar(
    firstWeekday: (int, int) -> int,   // weekday (0 = Sunday) of the first day of (year, month)
    isSunday: string -> bool,          // the YYYY-MM-DD date falls on a Sunday
    nextDay: string -> string,         // the YYYY-MM-DD rendering of the following day
    springEquinox: int -> int,         // day of March
    autumnEquinox: int -> int,         // day of September
    yearOf: string -> int)             // the year of a YYYY-MM-DD date

  /** JavaScript's `%`, whose result takes the sign of the dividend. */
  function JsRemainder(a: int, n: int): (r: int)
    requires n > 0
    ensures a >= 0 ==> r == a % n
    ensures -n < r < n
  {
    if a >= 0 then a % n else -((-a) % n)
  }

  /** The weekday of day `d` of a month whose first day has weekday `firstDayOfWeek`. */
  function WeekdayOfDay(firstDayOfWeek: int, d: int): int
  {
    (firstDayOfWeek + d - 1) % 7
  }

  /** getNthWeekday: the day of the month of the `week`-th weekday `dayOfWeek`. */
  function NthWeekday(week: int, dayOfWeek: int, firstDayOfWeek: int): int
  {
    1 + JsRemainder(dayOfWeek - firstDayOfWeek + 7, 7) + (week - 1) * 7
  }

  /** For weekdays in 0 .. 6, NthWeekday is the first day with the wanted weekday, plus whole weeks. */
  lemma NthWeekdayIsNth(week: int, dayOfWeek: int, firstDayOfWeek: int)
    requires 0 <= dayOfWeek < 7 && 0 <= firstDayOfWeek < 7
    ensures var r := NthWeekday(week, dayOfWeek, firstDayOfWeek);
      var first := r - 7 * (week - 1);
      1 <= first <= 7
      && WeekdayOfDay(firstDayOfWeek, first) == dayOfWeek
      && WeekdayOfDay(firstDayOfWeek, r) == dayOfWeek
      && forall d :: 1 <= d < first ==> WeekdayOfDay(firstDayOfWeek, d) != dayOfWeek
  {
    var r := NthWeekday(week, dayOfWeek, firstDayOfWeek);
    var first := r - 7 * (week - 1);
    assert first == 1 + (dayOfWeek - firstDayOfWeek + 7) % 7;
    assert (firstDayOfWeek + r - 1) == (firstDayOfWeek + first - 1) + 7 * (week - 1);
    ModShift(firstDayOfWeek + first - 1, week - 1);
  }

  lemma ModShift(a: int, k: int)
    ensures (a + 7 * k) % 7 == a % 7
  {
  }

  /** `${y}-${MM}-${DD}` with the month and day zero-padded to two digits. */
  function DateString(year: int, month: int, day: int): string
  {
    IntToString(year) + "-" + PadStart2(IntToString(month)) + "-" + PadStart2(IntToString(day))
  }

  datatype FixedHoliday = FixedHoliday(month: int, day: int, name: string)

  const FIXED_HOLIDAYS: seq<FixedHoliday> := [
    FixedHoliday(1, 1, "元日"),
    FixedHoliday(2, 11, "建国記念の日"),
    FixedHoliday(2, 23, "天皇誕生日"),
    FixedHoliday(4, 29, "昭和の日"),
    FixedHoliday(5, 3, "憲法記念日"),
    FixedHoliday(5, 4, "みどりの日"),
    FixedHoliday(5, 5, "こどもの日"),
    FixedHoliday(8, 11, "山の日"),
    FixedHoliday(11, 3, "文化の日"),
    FixedHoliday(11, 23, "勤労感謝の日"),
    FixedHoliday(12, 23, "冬季休暇開始"),
    FixedHoliday(12, 24, "クリスマスイブ"),
    FixedHoliday(12, 25, "クリスマス"),
    FixedHoliday(12, 29, "年末休暇"),
    FixedHoliday(12, 30, "年末休暇"),
    FixedHoliday(12, 31, "大晦日"),
    FixedHoliday(1, 2, "正月休み"),
    FixedHoliday(1, 3, "正月休み")
  ]

  /** The calendar year a fixed holiday of month `month` gets in the list built for `year`. */
  function AssignedYear(year: int, month: int): int
  {
    if month == 12 then year else if month <= 3 then year + 1 else year
  }

  /** The academic year (April to March) a date of (`y`, `month`) belongs to. */
  function AcademicYear(y: int, month: int): int
  {
    if month <= 3 then y - 1 else y
  }

  /** Every fixed holiday lands in the academic year starting in April of `year`. */
  lemma FixedHolidaysInAcademicYear(year: int)
    ensures forall i :: 0 <= i < |FIXED_HOLIDAYS| ==>
      1 <= FIXED_HOLIDAYS[i].month <= 12
      && AcademicYear(AssignedYear(year, FIXED_HOLIDAYS[i].month), FIXED_HOLIDAYS[i].month) == year
    ensures forall i :: 0 <= i < |FIXED_HOLIDAYS| ==>
      (FIXED_HOLIDAYS[i].month <= 3 <==> AssignedYear(year, FIXED_HOLIDAYS[i].month) == year + 1)
  {
  }

  function FixedEntry(year: int, h: FixedHoliday): Holiday
  {
    Holiday(DateString(AssignedYear(year, h.month), h.month, h.day), h.name, Fixed)
  }

  /** The dated entries of `fixed` for the list of `year`, one per entry, in order. */
  function FixedEntriesOf(year: int, fixed: seq<FixedHoliday>): (r: seq<Holiday>)
    ensures |r| == |fixed|
  {
    if fixed == [] then []
    else FixedEntriesOf(year, fixed[..|fixed| - 1]) + [FixedEntry(year, fixed[|fixed| - 1])]
  }

  /** The fixed-date part of the list for `year`. */
  function FixedEntries(year: int): seq<Holiday>
  {
    FixedEntriesOf(year, FIXED_HOLIDAYS)
  }

  /** How a movable holiday's day is found: the n-th Monday of a month, or an equinox. */
  datatype DayRule = NthMonday(month: int, week: int) | SpringEquinox | AutumnEquinox

  /** A movable holiday of the list built for `year`, dated in `year + yearOffset`. */
  datatype CalculatedHoliday = CalculatedHoliday(yearOffset: int, rule: DayRule, name: string)

  /** The movable holidays, in the order calculateYearHolidays pushes them. */
  const CALCULATED_HOLIDAYS: seq<CalculatedHoliday> := [
    CalculatedHoliday(0, NthMonday(1, 2), "成人の日"),
    CalculatedHoliday(1, NthMonday(1, 2), "成人の日"),
    CalculatedHoliday(0, NthMonday(7, 3), "海の日"),
    CalculatedHoliday(0, NthMonday(10, 2), "スポーツの日"),
    CalculatedHoliday(0, NthMonday(9, 3), "敬老の日"),
    CalculatedHoliday(0, SpringEquinox, "春分の日"),
    CalculatedHoliday(1, SpringEquinox, "春分の日"),
    CalculatedHoliday(0, AutumnEquinox, "秋分の日")
  ]

  function RuleMonth(rule: DayRule): int
  {
    match rule
    case NthMonday(month, _) => month
    case SpringEquinox => 3
    case AutumnEquinox => 9
  }

  function RuleDay(y: int, rule: DayRule, cal: Calendar): int
  {
    match rule
    case NthMonday(month, week) => NthWeekday(week, 1, cal.firstWeekday(y, month))
    case SpringEquinox => cal.springEquinox(y)
    case AutumnEquinox => cal.autumnEquinox(y)
  }

  function CalculatedEntry(year: int, c: CalculatedHoliday, cal: Calendar): Holiday
  {
    var y := year + c.yearOffset;
    Holiday(DateString(y, RuleMonth(c.rule), RuleDay(y, c.rule, cal)), c.name, Calculated)
  }

  /** The movable holidays of the list for `year`. */
  function CalculatedEntries(year: int, cal: Calendar): (r: seq<Holiday>)
    ensures |r| == |CALCULATED_HOLIDAYS|
  {
    seq(|CALCULATED_HOLIDAYS|, i requires 0 <= i < |CALCULATED_HOLIDAYS| => CalculatedEntry(year, CALCULATED_HOLIDAYS[i], cal))
  }

  function SubstituteFor(h: Holiday, cal: Calendar): Holiday
  {
    Holiday(cal.nextDay(h.date), "振替休日（" + h.name + "）", Substitute)
  }

  /** One substitute per Sunday holiday, dated the following day, in list order. */
  function Substitutes(hs: seq<Holiday>, cal: Calendar): seq<Holiday>
  {
    if hs == [] then []
    else (if cal.isSunday(hs[0].date) then [SubstituteFor(hs[0], cal)] else []) + Substitutes(hs[1..], cal)
  }

  /** A substitute exists exactly for each Sunday holiday. */
  lemma {:induction false} SubstitutesExactlyForSundays(hs: seq<Holiday>, cal: Calendar)
    ensures forall s :: s in Substitutes(hs, cal) <==> exists h :: h in hs && cal.isSunday(h.date) && s == SubstituteFor(h, cal)
    ensures forall s :: s in Substitutes(hs, cal) ==> s.kind == Substitute
  {
    if hs != [] {
      SubstitutesExactlyForSundays(hs[1..], cal);
      assert hs == [hs[0]] + hs[1..];
    }
  }

  /** calculateSubstituteHolidays. */
  method CalculateSubstituteHolidays(holidays: seq<Holiday>, cal: Calendar) returns (substitutes: seq<Holiday>)
    ensures substitutes == Substitutes(holidays, cal)
  {
    substitutes := [];
    for i := 0 to |holidays|
      invariant substitutes + Substitutes(holidays[i..], cal) == Substitutes(holidays, cal)
    {
      assert holidays[i..] == [holidays[i]] + holidays[i + 1..];
      if cal.isSunday(holidays[i].date) {
        substitutes := substitutes + [SubstituteFor(holidays[i], cal)];
      }
    }
  }

  /** The whole list calculateYearHolidays returns for `year`. */
  function YearHolidays(year: int, cal: Calendar): seq<Holiday>
  {
    var hs := FixedEntries(year) + CalculatedEntries(year, cal);
    hs + Substitutes(hs, cal)
  }

  /** The fixed-date loop of calculateYearHolidays. */
  method FixedYearHolidays(year: int, fixed: seq<FixedHoliday>) returns (holidays: seq<Holiday>)
    ensures holidays == FixedEntriesOf(year, fixed)
  {
    holidays := [];
    for i := 0 to |fixed|
      invariant holidays == FixedEntriesOf(year, fixed[..i])
    {
      var h := fixed[i];
      var y := AssignedYear(year, h.month);
      var entry := Holiday(DateString(y, h.month, h.day), h.name, Fixed);
      assert fixed[..i + 1][..i] == fixed[..i];
      holidays := holidays + [entry];
    }
    assert fixed[..|fixed|] == fixed;
  }

  /** calculateYearHolidays. */
  method CalculateYearHolidays(year: int, cal: Calendar) returns (result: seq<Holiday>)
    ensures result == YearHolidays(year, cal)
  {
    var holidays := FixedYearHolidays(year, FIXED_HOLIDAYS);
    holidays := holidays + CalculatedEntries(year, cal);
    var substitutes := CalculateSubstituteHolidays(holidays, cal);
    result := holidays + substitutes;
  }

  /** The lists of calculateYearHolidays for the years `lo` .. `hi - 1`, in year order. */
  function YearsHolidays(lo: int, hi: int, cal: Calendar): seq<Holiday>
    decreases hi - lo
  {
    if hi <= lo then [] else YearsHolidays(lo, hi - 1, cal) + YearHolidays(hi - 1, cal)
  }

  /** Date-only ISO strings compare chronologically exactly as they compare as text. */
  predicate DateLeq(a: string, b: string)
  {
    LexLeq(a, b)
  }

  /** The holidays with start ≤ date ≤ end, in order. */
  function InPeriod(hs: seq<Holiday>, start: string, end: string): (r: seq<Holiday>)
    ensures forall h :: h in r <==> h in hs && DateLeq(start, h.date) && DateLeq(h.date, end)
  {
    if hs == [] then []
    else
      assert hs == [hs[0]] + hs[1..];
      (if DateLeq(start, hs[0].date) && DateLeq(hs[0].date, end) then [hs[0]] else []) + InPeriod(hs[1..], start, end)
  }

  predicate HasDate(hs: seq<Holiday>, date: string)
  {
    exists h :: h in hs && h.date == date
  }

  /** The `reduce` that keeps the first holiday of each date. */
  function UniqueByDate(hs: seq<Holiday>): seq<Holiday>
    decreases |hs|
  {
    if hs == [] then []
    else
      var acc := UniqueByDate(hs[..|hs| - 1]);
      var current := hs[|hs| - 1];
      if HasDate(acc, current.date) then acc else acc + [current]
  }

  /** The sort with `a.date.localeCompare(b.date)`. */
  function SortByDate(hs: seq<Holiday>): seq<Holiday>
  {
    Sorting.SortBy(hs, (a: Holiday, b: Holiday) => DateLeq(a.date, b.date))
  }

  /** The list getHolidaysInPeriodBase returns. */
  function HolidaysInPeriod(start: string, end: string, cal: Calendar): seq<Holiday>
  {
    PeriodList(YearsHolidays(cal.yearOf(start), cal.yearOf(end) + 1, cal), start, end)
  }

  /** Filter to the period, keep the first holiday of each date, sort by date. */
  function PeriodList(all: seq<Holiday>, start: string, end: string): seq<Holiday>
  {
    SortByDate(UniqueByDate(InPeriod(all, start, end)))
  }

  /** The year loop of getHolidaysInPeriodBase: the lists of the years `startYear` .. `endYear`, concatenated. */
  method CollectYearHolidays(startYear: int, endYear: int, cal: Calendar) returns (all: seq<Holiday>)
    ensures all == YearsHolidays(startYear, endYear + 1, cal)
  {
    all := [];
    var year := startYear;
    while year <= endYear
      invariant year == startYear || startYear < year <= endYear + 1
      invariant all == YearsHolidays(startYear, year, cal)
      decreases endYear - year
    {
      var yearHolidays := CalculateYearHolidays(year, cal);
      assert YearsHolidays(startYear, year + 1, cal) == YearsHolidays(startYear, year, cal) + YearHolidays(year, cal);
      all := all + yearHolidays;
      year := year + 1;
    }
    if startYear > endYear {
      assert YearsHolidays(startYear, endYear + 1, cal) == [];
    }
  }

  /** getHolidaysInPeriodBase. */
  method GetHolidaysInPeriodBase(start: string, end: string, cal: Calendar) returns (result: seq<Holiday>)
    ensures result == HolidaysInPeriod(start, end, cal)
  {
    var all := CollectYearHolidays(cal.yearOf(start), cal.yearOf(end), cal);
    var inPeriod := InPeriod(all, start, end);
    var unique := UniqueByDate(inPeriod);
    result := SortByDate(unique);
  }

  /** getHolidaysInPeriod: the dates of getHolidaysInPeriodBase, in the same order. */
  method GetHolidaysInPeriod(start: string, end: string, cal: Calendar) returns (dates: seq<string>)
    ensures var hs := HolidaysInPeriod(start, end, cal);
      |dates| == |hs| && forall i :: 0 <= i < |hs| ==> dates[i] == hs[i].date
  {
    var holidays := GetHolidaysInPeriodBase(start, end, cal);
    dates := seq(|holidays|, i requires 0 <= i < |holidays| => holidays[i].date);
    assert |dates| == |holidays|;
    assert forall i :: 0 <= i < |holidays| ==> dates[i] == holidays[i].date;
  }

  // ---------- properties of the de-duplication and of the final list ----------

  /** No two holidays of `hs` share a date. */
  predicate DistinctDates(hs: seq<Holiday>)
  {
    forall i, j :: 0 <= i < j < |hs| ==> hs[i].date != hs[j].date
  }

  /** UniqueByDate keeps at most one holiday per date. */
  lemma {:induction false} UniqueByDateDistinct(hs: seq<Holiday>)
    ensures DistinctDates(UniqueByDate(hs))
    decreases |hs|
  {
    if hs != [] {
      var acc := UniqueByDate(hs[..|hs| - 1]);
      var current := hs[|hs| - 1];
      UniqueByDateDistinct(hs[..|hs| - 1]);
      if HasDate(acc, current.date) {
        assert UniqueByDate(hs) == acc;
      } else {
        var u := acc + [current];
        assert UniqueByDate(hs) == u;
        forall i, j | 0 <= i < j < |u| ensures u[i].date != u[j].date {
          if j < |acc| {
            assert u[i] == acc[i] && u[j] == acc[j];
            assert acc[i].date != acc[j].date;
          } else {
            assert u[j] == current && u[i] == acc[i] && acc[i] in acc;
          }
        }
      }
    }
  }

  /** No holiday before index `i` of `hs` has the date of `hs[i]`. */
  predicate FirstOfItsDate(hs: seq<Holiday>, i: int)
    requires 0 <= i < |hs|
  {
    forall j :: 0 <= j < i ==> hs[j].date != hs[i].date
  }

  /** `h` occurs in `hs`, and no holiday listed before that occurrence has its date. */
  predicate ListedFirst(hs: seq<Holiday>, h: Holiday)
  {
    exists i :: 0 <= i < |hs| && hs[i] == h && FirstOfItsDate(hs, i)
  }

  /** Every holiday UniqueByDate keeps is the first one of its date in the input. */
  lemma {:induction false} UniqueByDateFirst(hs: seq<Holiday>)
    ensures forall h :: h in UniqueByDate(hs) ==> ListedFirst(hs, h)
    decreases |hs|
  {
    if hs != [] {
      var init := hs[..|hs| - 1];
      UniqueByDateFirst(init);
      UniqueByDateDates(init);
      var acc := UniqueByDate(init);
      forall h | h in UniqueByDate(hs) ensures ListedFirst(hs, h) {
        if h in acc {
          var i :| 0 <= i < |init| && init[i] == h && FirstOfItsDate(init, i);
          assert hs[i] == h;
          forall j | 0 <= j < i ensures hs[j].date != hs[i].date {
            assert hs[j] == init[j];
          }
        } else {
          var current := hs[|hs| - 1];
          assert h == current && !HasDate(acc, current.date);
          forall j | 0 <= j < |hs| - 1 ensures hs[j].date != h.date {
            assert init[j] in init;
          }
          assert FirstOfItsDate(hs, |hs| - 1);
        }
      }
    }
  }

  /** UniqueByDate drops no date: every input date is still present. */
  lemma {:induction false} UniqueByDateDates(hs: seq<Holiday>)
    ensures forall h :: h in UniqueByDate(hs) ==> h in hs
    ensures forall h :: h in hs ==> HasDate(UniqueByDate(hs), h.date)
    decreases |hs|
  {
    if hs != [] {
      var init := hs[..|hs| - 1];
      UniqueByDateDates(init);
      assert hs == init + [hs[|hs| - 1]];
      forall h | h in hs ensures HasDate(UniqueByDate(hs), h.date) {
        if h in init {
          var g :| g in UniqueByDate(init) && g.date == h.date;
          assert g in UniqueByDate(hs);
        }
      }
    }
  }

  lemma SortByDateFacts(hs: seq<Holiday>)
    ensures multiset(SortByDate(hs)) == multiset(hs)
    ensures forall h :: h in SortByDate(hs) <==> h in hs
    ensures Sorting.SortedBy(SortByDate(hs), (a: Holiday, b: Holiday) => DateLeq(a.date, b.date))
  {
    var le := (a: Holiday, b: Holiday) => DateLeq(a.date, b.date);
    forall a: Holiday, b: Holiday ensures le(a, b) || le(b, a) { LexLeqTotal(a.date, b.date); }
    forall a: Holiday, b: Holiday, c: Holiday | le(a, b) && le(b, c) ensures le(a, c) {
      LexLeqTransitive(a.date, b.date, c.date);
    }
    Sorting.SortBySorted(hs, le);
    var r := SortByDate(hs);
    forall h ensures h in r <==> h in hs {
      assert h in r <==> h in multiset(r);
      assert h in hs <==> h in multiset(hs);
    }
  }

  /** The list of getHolidaysInPeriodBase: inside the period, one holiday per date (the first one listed), sorted by date, and complete. */
  lemma PeriodListCorrect(all: seq<Holiday>, start: string, end: string)
    ensures var r := PeriodList(all, start, end);
      && (forall h :: h in r ==> h in all && DateLeq(start, h.date) && DateLeq(h.date, end))
      && DistinctDates(r)
      && Sorting.SortedBy(r, (a: Holiday, b: Holiday) => DateLeq(a.date, b.date))
      && (forall h :: h in all && DateLeq(start, h.date) && DateLeq(h.date, end) ==> HasDate(r, h.date))
  {
    var p := InPeriod(all, start, end);
    var u := UniqueByDate(p);
    var r := SortByDate(u);
    UniqueByDateDates(p);
    UniqueByDateDistinct(p);
    UniqueByDateFirst(p);
    SortByDateFacts(u);
    SortedDistinctDates(u, r);
    forall h | h in all && DateLeq(start, h.date) && DateLeq(h.date, end) ensures HasDate(r, h.date) {
      assert h in p;
      var g :| g in u && g.date == h.date;
      assert g in r;
    }
  }

  /** Each holiday of the list is the first one of its date among the holidays of the period. */
  lemma PeriodListKeepsFirst(all: seq<Holiday>, start: string, end: string)
    ensures forall h :: h in PeriodList(all, start, end) ==> ListedFirst(InPeriod(all, start, end), h)
  {
    var p := InPeriod(all, start, end);
    var u := UniqueByDate(p);
    UniqueByDateFirst(p);
    SortByDateFacts(u);
    forall h | h in PeriodList(all, start, end) ensures ListedFirst(p, h) {
      assert h in SortByDate(u);
      assert h in u;
    }
  }

  /** The same facts about the list for the years the period touches. */
  lemma HolidaysInPeriodCorrect(start: string, end: string, cal: Calendar)
    ensures var all := YearsHolidays(cal.yearOf(start), cal.yearOf(end) + 1, cal);
      var r := HolidaysInPeriod(start, end, cal);
      && (forall h :: h in r ==> h in all && DateLeq(start, h.date) && DateLeq(h.date, end))
      && DistinctDates(r)
      && (forall h :: h in all && DateLeq(start, h.date) && DateLeq(h.date, end) ==> HasDate(r, h.date))
  {
    PeriodListCorrect(YearsHolidays(cal.yearOf(start), cal.yearOf(end) + 1, cal), start, end);
  }

  /** The sorted list keeps distinct dates when its input had distinct dates. */
  lemma SortedDistinctDates(u: seq<Holiday>, r: seq<Holiday>)
    requires DistinctDates(u)
    requires multiset(r) == multiset(u)
    ensures DistinctDates(r)
  {
    forall i, j | 0 <= i < j < |r| ensures r[i].date != r[j].date {
      DistinctDatesFromMultiset(u, r, i, j);
    }
  }

  lemma DistinctDatesFromMultiset(u: seq<Holiday>, r: seq<Holiday>, i: int, j: int)
    requires DistinctDates(u)
    requires multiset(r) == multiset(u)
    requires 0 <= i < j < |r|
    ensures r[i].date != r[j].date
  {
    MultiplicityOneWhenDistinct(u, r[i]);
    NoSecondCopy(r, i, j);
    assert r[i] in multiset(u) && r[j] in multiset(u);
    var a :| 0 <= a < |u| && u[a] == r[i];
    var b :| 0 <= b < |u| && u[b] == r[j];
    assert a < b || b < a;
  }

  /** An element occurring at most once in `r` is not repeated at a later index. */
  lemma NoSecondCopy<T>(r: seq<T>, i: int, j: int)
    requires 0 <= i < j < |r|
    requires multiset(r)[r[i]] <= 1
    ensures r[j] != r[i]
  {
    assert r == r[..j] + [r[j]] + r[j + 1..];
    assert r[..j][i] == r[i];
    assert multiset(r[..j])[r[i]] >= 1;
    assert multiset(r)[r[i]] == multiset(r[..j])[r[i]] + multiset([r[j]])[r[i]] + multiset(r[j + 1..])[r[i]];
  }

  lemma {:induction false} MultiplicityOneWhenDistinct(u: seq<Holiday>, h: Holiday)
    requires DistinctDates(u)
    ensures multiset(u)[h] <= 1
  {
    if u != [] {
      MultiplicityOneWhenDistinct(u[1..], h);
      assert u == [u[0]] + u[1..];
      if u[0] == h {
        assert h !in u[1..] by {
          forall k | 0 <= k < |u[1..]| ensures u[1..][k] != h {
            assert u[k + 1].date != u[0].date;
          }
        }
      }
    }
  }
}
