/**
 * The priority scheduler: every teacher gets a priority that adds up the severity of the
 * teacher's constraints, together with the lessons the school fixed in advance for a
 * few named teachers, and the teachers are ordered by decreasing priority. Fixed lessons
 * then block the slots they occupy.
 *
 * The date of the Thursday of week `w` (2025-09-29 plus `(w - 1) * 7 + 3` days, rendered by
 * `toISOString`) is the parameter `thursdayOf`.
 */
module PriorityScheduler {
  import opened Wrappers
  import opened Strings
  import opened Types
  import Sorting

  /** A lesson fixed in advance; `period` absent means the whole day. */
  datatype FixedLesson = FixedLesson(week: int, date: string, dayOfWeek: string, period: Option<string>, subject: string)

  /** A teacher with its priority and its fixed lessons (absent when none were collected). */
  datatype TeacherPriority = TeacherPriority(teacher: Teacher, priority: int, fixedSchedule: Option<seq<FixedLesson>>)

  const NO_CHANGE_NOTE: string := "授業変更にほぼ絶対対応できない"

  /** `teacher.constraints?.fixed && Array.isArray(teacher.constraints.fixed)`. */
  predicate HasFixedArray(t: Teacher)
  {
    t.constraints.Some? && t.constraints.value.fixedIsArray
  }

  /** `changeUnavailable`, or special notes saying the teacher can hardly ever change a lesson. */
  predicate ChangeHard(t: Teacher)
  {
    t.constraints.Some?
    && (t.constraints.value.changeUnavailable
        || (t.constraints.value.specialNotes.Some? && Contains(t.constraints.value.specialNotes.value, NO_CHANGE_NOTE)))
  }

  /** `list?.length || 0`. */
  function LengthOrZero(list: Option<seq<string>>): nat
  {
    if list.Some? then |list.value| else 0
  }

  function NgInfoOf(t: Teacher): Option<NgInfo>
  {
    if t.constraints.Some? then t.constraints.value.ng else None
  }

  function NgDays(t: Teacher): nat
  {
    if NgInfoOf(t).Some? then LengthOrZero(NgInfoOf(t).value.days) else 0
  }

  function NgPeriods(t: Teacher): nat
  {
    if NgInfoOf(t).Some? then LengthOrZero(NgInfoOf(t).value.periods) else 0
  }

  function NgDates(t: Teacher): nat
  {
    if NgInfoOf(t).Some? then LengthOrZero(NgInfoOf(t).value.dates) else 0
  }

  /** `availableDays?.length || 5`: a missing list, and an empty one, count as five days. */
  function AvailableDayCount(t: Teacher): nat
  {
    if t.constraints.Some? && t.constraints.value.availableDays.Some? && |t.constraints.value.availableDays.value| != 0
    then |t.constraints.value.availableDays.value|
    else 5
  }

  predicate Biweekly(t: Teacher)
  {
    t.constraints.Some? && t.constraints.value.wish.Some? && Truthy(t.constraints.value.wish.value.biweekly)
  }

  /** The extra weight three teachers get by name. */
  function NameWeight(name: string): int
  {
    (if name == "孫寧平" then 750 else 0) + (if name == "Fiona" then 800 else 0) + (if name == "Lee" then 700 else 0)
  }

  function AvailabilityWeight(days: nat): int
  {
    if days <= 2 then 200 else if days <= 3 then 100 else 0
  }

  /** The priority sortTeachersByPriority computes for a teacher. */
  function Priority(t: Teacher): int
  {
    (if t.requireConfirmed then 1000 else 0)
    + (if HasFixedArray(t) then 500 else 0)
    + NameWeight(t.name)
    + (if ChangeHard(t) then 600 else 0)
    + 50 * NgDays(t) + 30 * NgPeriods(t) + 20 * NgDates(t)
    + AvailabilityWeight(AvailableDayCount(t))
    + (if Biweekly(t) then 150 else 0)
  }

  /** 鈴木俊良's sixteen lessons of デザインとプレゼンテーション (week, date, day, period). */
  const SUZUKI_TABLE: seq<(int, string, string, string)> := [
    (3, "2025-10-15", "水", "3限"), (4, "2025-10-22", "水", "1限"), (5, "2025-10-29", "水", "3限"),
    (6, "2025-11-05", "水", "3限"), (7, "2025-11-12", "水", "3限"), (8, "2025-11-19", "水", "3限"),
    (9, "2025-11-26", "水", "3限"), (10, "2025-12-03", "水", "3限"), (11, "2025-12-10", "水", "3限"),
    (12, "2025-12-17", "水", "3限"), (13, "2025-12-24", "水", "3限"), (15, "2026-01-07", "水", "3限"),
    (16, "2026-01-14", "水", "3限"), (17, "2026-01-19", "月", "3限"), (17, "2026-01-19", "月", "4限"),
    (17, "2026-01-21", "水", "3限")]

  function SuzukiLesson(row: (int, string, string, string)): FixedLesson
  {
    FixedLesson(row.0, row.1, row.2, Some(row.3), "デザインとプレゼンテーション")
  }

  /** The 3限 and 4限 lessons of a subject on the Thursday of a week. */
  function ThursdayPair(week: int, thursdayOf: int -> string, subject: string): seq<FixedLesson>
  {
    [FixedLesson(week, thursdayOf(week), "木", Some("3限"), subject), FixedLesson(week, thursdayOf(week), "木", Some("4限"), subject)]
  }

  /**
   * The Thursday pairs of weeks lo..hi; with `skipNewYear` a week whose Thursday is
   * 2026-01-01 is left out.
   */
  function ThursdayPairs(lo: int, hi: int, thursdayOf: int -> string, subject: string, skipNewYear: bool): seq<FixedLesson>
    decreases hi - lo
  {
    if hi < lo then []
    else
      ThursdayPairs(lo, hi - 1, thursdayOf, subject, skipNewYear)
      + (if skipNewYear && thursdayOf(hi) == "2026-01-01" then [] else ThursdayPair(hi, thursdayOf, subject))
  }

  /** 孫寧平's lessons: データベース概論 in weeks 1-8, データベース設計 in week 9 and weeks 10-17 but New Year's Day. */
  function SunLessons(thursdayOf: int -> string): seq<FixedLesson>
  {
    ThursdayPairs(1, 8, thursdayOf, "データベース概論", false)
    + ThursdayPair(9, thursdayOf, "データベース設計")
    + ThursdayPairs(10, 17, thursdayOf, "データベース設計", true)
  }

  function SuzukiPart(name: string): seq<FixedLesson>
  {
    if name == "鈴木俊良" then seq(|SUZUKI_TABLE|, i requires 0 <= i < |SUZUKI_TABLE| => SuzukiLesson(SUZUKI_TABLE[i])) else []
  }

  /** 田上寛美's キャリア実践I on 2025-10-22, 3限 and 4限. */
  function TagamiPart(name: string): seq<FixedLesson>
  {
    if name == "田上寛美" then
      [FixedLesson(4, "2025-10-22", "水", Some("3限"), "キャリア実践I"), FixedLesson(4, "2025-10-22", "水", Some("4限"), "キャリア実践I")]
    else []
  }

  function SunPart(name: string, thursdayOf: int -> string): seq<FixedLesson>
  {
    if name == "孫寧平" then SunLessons(thursdayOf) else []
  }

  /** The fixed lessons collected for a teacher: only for a fixed array, and only for the three named teachers. */
  function FixedLessons(t: Teacher, thursdayOf: int -> string): seq<FixedLesson>
  {
    if !HasFixedArray(t) then [] else SuzukiPart(t.name) + TagamiPart(t.name) + SunPart(t.name, thursdayOf)
  }

  /** The record sortTeachersByPriority pushes for a teacher. */
  function Record(t: Teacher, thursdayOf: int -> string): TeacherPriority
  {
    var lessons := FixedLessons(t, thursdayOf);
    TeacherPriority(t, Priority(t), if |lessons| > 0 then Some(lessons) else None)
  }

  function Records(ts: seq<Teacher>, thursdayOf: int -> string): (r: seq<TeacherPriority>)
    ensures |r| == |ts| && forall i :: 0 <= i < |ts| ==> r[i] == Record(ts[i], thursdayOf)
  {
    seq(|ts|, i requires 0 <= i < |ts| => Record(ts[i], thursdayOf))
  }

  /** The comparator `b.priority - a.priority` as "a may come before b". */
  function ByPriority(): (TeacherPriority, TeacherPriority) -> bool
  {
    (a: TeacherPriority, b: TeacherPriority) => a.priority >= b.priority
  }

  /** What sortTeachersByPriority returns: the records, stably sorted by decreasing priority. */
  function PriorityOrder(ts: seq<Teacher>, thursdayOf: int -> string): seq<TeacherPriority>
  {
    Sorting.SortBy(Records(ts, thursdayOf), ByPriority())
  }

  /** The Thursday loops of 孫寧平's schedule, pushing two lessons per week. */
  method PushThursdayPairs(lessons0: seq<FixedLesson>, lo: int, hi: int, thursdayOf: int -> string, subject: string, skipNewYear: bool)
    returns (lessons: seq<FixedLesson>)
    requires lo <= hi + 1
    ensures lessons == lessons0 + ThursdayPairs(lo, hi, thursdayOf, subject, skipNewYear)
  {
    lessons := lessons0;
    var week := lo;
    while week <= hi
      invariant lo <= week <= hi + 1
      invariant lessons == lessons0 + ThursdayPairs(lo, week - 1, thursdayOf, subject, skipNewYear)
    {
      var date := thursdayOf(week);
      if skipNewYear && date == "2026-01-01" {
        week := week + 1;
        continue;
      }
      lessons := lessons + ThursdayPair(week, thursdayOf, subject);
      week := week + 1;
    }
  }

  /** `schedules.forEach(lesson => fixedSchedule.push(...))` over 鈴木俊良's table. */
  method SuzukiLessons() returns (fixed: seq<FixedLesson>)
    ensures fixed == seq(|SUZUKI_TABLE|, i requires 0 <= i < |SUZUKI_TABLE| => SuzukiLesson(SUZUKI_TABLE[i]))
  {
    fixed := [];
    var k := 0;
    while k < |SUZUKI_TABLE|
      invariant 0 <= k <= |SUZUKI_TABLE|
      invariant fixed == seq(k, i requires 0 <= i < k => SuzukiLesson(SUZUKI_TABLE[i]))
    {
      fixed := fixed + [SuzukiLesson(SUZUKI_TABLE[k])];
      k := k + 1;
    }
  }

  /** The fixed lessons sortTeachersByPriority pushes for a teacher with a fixed array. */
  method CollectFixedLessons(t: Teacher, thursdayOf: int -> string) returns (fixed: seq<FixedLesson>)
    requires HasFixedArray(t)
    ensures fixed == FixedLessons(t, thursdayOf)
  {
    fixed := [];
    if t.name == "鈴木俊良" {
      fixed := SuzukiLessons();
    }
    assert fixed == SuzukiPart(t.name);
    if t.name == "田上寛美" {
      fixed := fixed + [FixedLesson(4, "2025-10-22", "水", Some("3限"), "キャリア実践I"), FixedLesson(4, "2025-10-22", "水", Some("4限"), "キャリア実践I")];
    }
    assert fixed == SuzukiPart(t.name) + TagamiPart(t.name);
    if t.name == "孫寧平" {
      fixed := PushThursdayPairs(fixed, 1, 8, thursdayOf, "データベース概論", false);
      fixed := fixed + ThursdayPair(9, thursdayOf, "データベース設計");
      fixed := PushThursdayPairs(fixed, 10, 17, thursdayOf, "データベース設計", true);
    }
  }

  /** The priority of sortTeachersByPriority's loop body, added up step by step. */
  method AddUpPriority(t: Teacher) returns (priority: int)
    ensures priority == Priority(t)
  {
    priority := 0;
    if t.requireConfirmed {
      priority := priority + 1000;
    }
    if HasFixedArray(t) {
      priority := priority + 500;
    }
    if t.name == "孫寧平" {
      priority := priority + 750;
    }
    if t.name == "Fiona" {
      priority := priority + 800;
    }
    if t.name == "Lee" {
      priority := priority + 700;
    }
    assert priority == (if t.requireConfirmed then 1000 else 0) + (if HasFixedArray(t) then 500 else 0) + NameWeight(t.name);
    if ChangeHard(t) {
      priority := priority + 600;
    }
    priority := priority + NgDays(t) * 50 + NgPeriods(t) * 30 + NgDates(t) * 20;
    var availableDays := AvailableDayCount(t);
    if availableDays <= 2 {
      priority := priority + 200;
    } else if availableDays <= 3 {
      priority := priority + 100;
    }
    if Biweekly(t) {
      priority := priority + 150;
    }
  }

  /** The body of sortTeachersByPriority's loop: the priority, the fixed lessons, and the record pushed. */
  method TeacherRecord(t: Teacher, thursdayOf: int -> string) returns (tp: TeacherPriority)
    ensures tp == Record(t, thursdayOf)
  {
    var priority := AddUpPriority(t);
    var fixed: seq<FixedLesson> := [];
    if HasFixedArray(t) {
      fixed := CollectFixedLessons(t, thursdayOf);
    }
    tp := TeacherPriority(t, priority, if |fixed| > 0 then Some(fixed) else None);
  }

  /** sortTeachersByPriority: one record per teacher, then the stable sort by decreasing priority. */
  method SortTeachersByPriority(teachers: seq<Teacher>, thursdayOf: int -> string) returns (r: seq<TeacherPriority>)
    ensures r == PriorityOrder(teachers, thursdayOf)
  {
    var priorityList: seq<TeacherPriority> := [];
    var i := 0;
    while i < |teachers|
      invariant 0 <= i <= |teachers|
      invariant priorityList == Records(teachers[..i], thursdayOf)
    {
      var tp := TeacherRecord(teachers[i], thursdayOf);
      priorityList := priorityList + [tp];
      i := i + 1;
      assert teachers[..i] == teachers[..i - 1] + [teachers[i - 1]];
    }
    assert teachers[..|teachers|] == teachers;
    r := Sorting.SortBy(priorityList, ByPriority());
  }

  /** `tp.fixedSchedule && tp.fixedSchedule.length > 0`. */
  predicate HasFixedLessons(tp: TeacherPriority)
  {
    tp.fixedSchedule.Some? && |tp.fixedSchedule.value| > 0
  }

  /** getFixedScheduleTeachers: the sorted records that carry fixed lessons, in sorted order. */
  method GetFixedScheduleTeachers(teachers: seq<Teacher>, thursdayOf: int -> string) returns (r: seq<TeacherPriority>)
    ensures r == Sorting.Filter(PriorityOrder(teachers, thursdayOf), HasFixedLessons)
  {
    var sorted := SortTeachersByPriority(teachers, thursdayOf);
    r := Sorting.Filter(sorted, HasFixedLessons);
  }

  /** `period.replace('限', '')` followed by `trim()` for each comma-separated part. */
  function PeriodNumbers(parts: seq<string>): (r: seq<string>)
    ensures |r| == |parts| && forall i :: 0 <= i < |parts| ==> r[i] == Trim(ReplaceFirst(parts[i], "限", ""))
  {
    seq(|parts|, i requires 0 <= i < |parts| => Trim(ReplaceFirst(parts[i], "限", "")))
  }

  /** A fixed lesson blocks the slot: same week and day, and either no period or the period's number listed. */
  predicate Blocks(l: FixedLesson, week: int, dayOfWeek: string, period: string)
  {
    l.week == week && l.dayOfWeek == dayOfWeek
    && (TruthyString(l.period) ==> ReplaceFirst(period, "限", "") in PeriodNumbers(Split(l.period.value, ',')))
  }

  /** What isSlotConflictWithFixed decides: some fixed lesson of some record blocks the slot. */
  predicate SlotConflict(week: int, dayOfWeek: string, period: string, fixedTeachers: seq<TeacherPriority>)
  {
    exists i, j :: 0 <= i < |fixedTeachers| && fixedTeachers[i].fixedSchedule.Some?
      && 0 <= j < |fixedTeachers[i].fixedSchedule.value| && Blocks(fixedTeachers[i].fixedSchedule.value[j], week, dayOfWeek, period)
  }

  /** The inner loop of isSlotConflictWithFixed over one record's fixed lessons. */
  method LessonsConflict(lessons: seq<FixedLesson>, week: int, dayOfWeek: string, period: string) returns (found: bool)
    ensures found <==> exists j :: 0 <= j < |lessons| && Blocks(lessons[j], week, dayOfWeek, period)
  {
    var j := 0;
    while j < |lessons|
      invariant 0 <= j <= |lessons|
      invariant forall k :: 0 <= k < j ==> !Blocks(lessons[k], week, dayOfWeek, period)
    {
      var l := lessons[j];
      if l.week == week && l.dayOfWeek == dayOfWeek {
        if TruthyString(l.period) {
          var periods := PeriodNumbers(Split(l.period.value, ','));
          var checkPeriod := ReplaceFirst(period, "限", "");
          if checkPeriod in periods {
            return true;
          }
        } else {
          return true;
        }
      }
      j := j + 1;
    }
    return false;
  }

  /** isSlotConflictWithFixed: the nested loops with their early return. */
  method IsSlotConflictWithFixed(week: int, dayOfWeek: string, period: string, fixedTeachers: seq<TeacherPriority>) returns (conflict: bool)
    ensures conflict <==> SlotConflict(week, dayOfWeek, period, fixedTeachers)
  {
    var i := 0;
    while i < |fixedTeachers|
      invariant 0 <= i <= |fixedTeachers|
      invariant forall k, j :: (0 <= k < i && fixedTeachers[k].fixedSchedule.Some? && 0 <= j < |fixedTeachers[k].fixedSchedule.value|
        ==> !Blocks(fixedTeachers[k].fixedSchedule.value[j], week, dayOfWeek, period))
    {
      if fixedTeachers[i].fixedSchedule.None? {
        i := i + 1;
        continue;
      }
      var found := LessonsConflict(fixedTeachers[i].fixedSchedule.value, week, dayOfWeek, period);
      if found {
        return true;
      }
      i := i + 1;
    }
    return false;
  }

  /** The parts getTeacherConstraintSummary pushes, in order. */
  function SummaryParts(t: Teacher): seq<string>
  {
    var c := t.constraints;
    (if t.requireConfirmed then ["【完全固定】"] else [])
    + (if c.Some? && c.value.confirmed.Some? && c.value.confirmed.value.count.Some? && c.value.confirmed.value.count.value > 0
       then ["確定: " + IntToString(c.value.confirmed.value.count.value) + "件"] else [])
    + (if c.Some? && c.value.ng.Some? && c.value.ng.value.days.Some? then ["NG曜日: " + Join(c.value.ng.value.days.value, ",")] else [])
    + (if c.Some? && c.value.ng.Some? && c.value.ng.value.periods.Some? then ["NG時限: " + Join(c.value.ng.value.periods.value, ",")] else [])
    + (if Biweekly(t) then ["隔週: " + IntToString(c.value.wish.value.biweekly.value) + "週"] else [])
    + (if c.Some? && c.value.changeUnavailable then ["変更不可"] else [])
  }

  /** getTeacherConstraintSummary: the parts joined by " / ", or 制約なし when there are none. */
  function GetTeacherConstraintSummary(t: Teacher): string
  {
    var parts := SummaryParts(t);
    if |parts| > 0 then Join(parts, " / ") else "制約なし"
  }

  /** The comparator is a total preorder, so the sort orders by decreasing priority. */
  lemma ByPriorityTotal()
    ensures Sorting.TotalPreorder(ByPriority())
  {
  }

  /** sortTeachersByPriority returns exactly the teachers' records, rearranged, by non-increasing priority. */
  lemma PriorityOrderSorted(ts: seq<Teacher>, thursdayOf: int -> string)
    ensures |PriorityOrder(ts, thursdayOf)| == |ts|
    ensures multiset(PriorityOrder(ts, thursdayOf)) == multiset(Records(ts, thursdayOf))
    ensures forall i, j :: 0 <= i < j < |ts| ==> PriorityOrder(ts, thursdayOf)[i].priority >= PriorityOrder(ts, thursdayOf)[j].priority
  {
    ByPriorityTotal();
    Sorting.SortBySorted(Records(ts, thursdayOf), ByPriority());
    var r := PriorityOrder(ts, thursdayOf);
    forall i, j | 0 <= i < j < |ts| ensures r[i].priority >= r[j].priority {
      assert ByPriority()(r[i], r[j]);
    }
  }

  /** Every record of the order is the record of one of the teachers, with its priority and fixed lessons. */
  lemma PriorityOrderRecords(ts: seq<Teacher>, thursdayOf: int -> string, tp: TeacherPriority)
    requires tp in PriorityOrder(ts, thursdayOf)
    ensures tp.teacher in ts && tp == Record(tp.teacher, thursdayOf)
  {
    PriorityOrderSorted(ts, thursdayOf);
    assert tp in multiset(Records(ts, thursdayOf));
    var i :| 0 <= i < |ts| && Records(ts, thursdayOf)[i] == tp;
  }

  /** The fixed lessons a getFixedScheduleTeachers record carries, in the same non-increasing priority order. */
  lemma FixedScheduleTeachersOrder(ts: seq<Teacher>, thursdayOf: int -> string)
    ensures forall i, j :: 0 <= i < j < |Sorting.Filter(PriorityOrder(ts, thursdayOf), HasFixedLessons)| ==>
      Sorting.Filter(PriorityOrder(ts, thursdayOf), HasFixedLessons)[i].priority >= Sorting.Filter(PriorityOrder(ts, thursdayOf), HasFixedLessons)[j].priority
    ensures forall tp :: tp in PriorityOrder(ts, thursdayOf) ==> (tp in Sorting.Filter(PriorityOrder(ts, thursdayOf), HasFixedLessons) <==> HasFixedLessons(tp))
  {
    ByPriorityTotal();
    Sorting.SortBySorted(Records(ts, thursdayOf), ByPriority());
    Sorting.FilterSorted(PriorityOrder(ts, thursdayOf), HasFixedLessons, ByPriority());
    var r := Sorting.Filter(PriorityOrder(ts, thursdayOf), HasFixedLessons);
    forall i, j | 0 <= i < j < |r| ensures r[i].priority >= r[j].priority {
      assert ByPriority()(r[i], r[j]);
    }
  }

  /** requireConfirmed adds exactly 1000. */
  lemma PriorityRequireConfirmed(t: Teacher)
    ensures Priority(t.(requireConfirmed := true)) == Priority(t.(requireConfirmed := false)) + 1000
  {
  }

  /** Each NG day adds 50. */
  lemma PriorityNgDay(t: Teacher, day: string)
    requires t.constraints.Some? && t.constraints.value.ng.Some? && t.constraints.value.ng.value.days.Some?
    ensures var c := t.constraints.value; var ng := c.ng.value;
      Priority(t.(constraints := Some(c.(ng := Some(ng.(days := Some(ng.days.value + [day]))))))) == Priority(t) + 50
  {
  }

  /** Each NG period adds 30. */
  lemma PriorityNgPeriod(t: Teacher, period: string)
    requires t.constraints.Some? && t.constraints.value.ng.Some? && t.constraints.value.ng.value.periods.Some?
    ensures var c := t.constraints.value; var ng := c.ng.value;
      Priority(t.(constraints := Some(c.(ng := Some(ng.(periods := Some(ng.periods.value + [period]))))))) == Priority(t) + 30
  {
  }

  /** Each NG date adds 20. */
  lemma PriorityNgDate(t: Teacher, date: string)
    requires t.constraints.Some? && t.constraints.value.ng.Some? && t.constraints.value.ng.value.dates.Some?
    ensures var c := t.constraints.value; var ng := c.ng.value;
      Priority(t.(constraints := Some(c.(ng := Some(ng.(dates := Some(ng.dates.value + [date]))))))) == Priority(t) + 20
  {
  }

  /**
   * Against the same teacher without an available-days list, a list of one or two days adds
   * 200 and one of three days 100; an empty list adds nothing, as `length || 5` reads it as five.
   */
  lemma PriorityAvailableDays(t: Teacher, days: seq<string>)
    requires t.constraints.Some?
    ensures var c := t.constraints.value;
      Priority(t.(constraints := Some(c.(availableDays := Some(days)))))
      == Priority(t.(constraints := Some(c.(availableDays := None)))) + (if 1 <= |days| <= 2 then 200 else if |days| == 3 then 100 else 0)
  {
    var c := t.constraints.value;
    var listed := t.(constraints := Some(c.(availableDays := Some(days))));
    var unlisted := t.(constraints := Some(c.(availableDays := None)));
    assert AvailableDayCount(unlisted) == 5;
    assert AvailableDayCount(listed) == if |days| == 0 then 5 else |days|;
    assert NgInfoOf(listed) == NgInfoOf(unlisted) && ChangeHard(listed) == ChangeHard(unlisted);
    assert HasFixedArray(listed) == HasFixedArray(unlisted) && Biweekly(listed) == Biweekly(unlisted);
  }

  /** Without constraints and without any of the special names, only requireConfirmed counts. */
  lemma PriorityUnconstrained(t: Teacher)
    requires t.constraints.None? && t.name != "孫寧平" && t.name != "Fiona" && t.name != "Lee"
    ensures Priority(t) == if t.requireConfirmed then 1000 else 0
  {
  }

  /** The pairs of weeks lo..hi are the 3限 and 4限 lessons of exactly the weeks not skipped for New Year's Day. */
  lemma {:induction false} ThursdayPairsContent(lo: int, hi: int, thursdayOf: int -> string, subject: string, skipNewYear: bool, l: FixedLesson)
    ensures l in ThursdayPairs(lo, hi, thursdayOf, subject, skipNewYear) <==>
      (lo <= l.week <= hi && !(skipNewYear && thursdayOf(l.week) == "2026-01-01") && l in ThursdayPair(l.week, thursdayOf, subject))
    decreases hi - lo
  {
    if hi >= lo {
      ThursdayPairsContent(lo, hi - 1, thursdayOf, subject, skipNewYear, l);
    }
  }

  /** Fixed lessons are collected exactly for a fixed array and one of the three named teachers. */
  lemma FixedLessonsPresent(t: Teacher, thursdayOf: int -> string)
    ensures Record(t, thursdayOf).fixedSchedule.Some? <==> HasFixedArray(t) && (t.name == "鈴木俊良" || t.name == "田上寛美" || t.name == "孫寧平")
  {
    if HasFixedArray(t) && t.name == "孫寧平" {
      assert |ThursdayPair(9, thursdayOf, "データベース設計")| == 2;
    }
  }

  /** A lesson fixed at a period blocks that very period of its week and day. */
  lemma LessonBlocksOwnPeriod(l: FixedLesson, p: Period)
    requires l.period == Some(PeriodName(p))
    ensures Blocks(l, l.week, l.dayOfWeek, PeriodName(p))
  {
    var parts := Split(PeriodName(p), ',');
    assert parts == [PeriodName(p)];
    var n := ReplaceFirst(PeriodName(p), "限", "");
    assert OccursAt(PeriodName(p), "限", 1);
    assert IndexOf(PeriodName(p), "限") == Some(1) by {
      assert !OccursAt(PeriodName(p), "限", 0);
    }
    assert n == [PeriodName(p)[0]];
    assert Trim(n) == n;
    assert PeriodNumbers(parts) == [n];
  }

  /** 鈴木俊良's lessons are at 1限, 3限 or 4限. */
  lemma SuzukiPeriods(k: nat)
    requires k < |SUZUKI_TABLE|
    ensures SUZUKI_TABLE[k].3 == "1限" || SUZUKI_TABLE[k].3 == "3限" || SUZUKI_TABLE[k].3 == "4限"
  {
  }

  /** 孫寧平's lessons are at 3限 or 4限. */
  lemma SunPeriods(thursdayOf: int -> string, l: FixedLesson)
    requires l in SunLessons(thursdayOf)
    ensures l.period == Some("3限") || l.period == Some("4限")
  {
    ThursdayPairsContent(1, 8, thursdayOf, "データベース概論", false, l);
    ThursdayPairsContent(10, 17, thursdayOf, "データベース設計", true, l);
  }

  /** Every collected fixed lesson is fixed at 1限, 3限 or 4限. */
  lemma FixedLessonPeriods(t: Teacher, thursdayOf: int -> string, l: FixedLesson)
    requires l in FixedLessons(t, thursdayOf)
    ensures l.period == Some("1限") || l.period == Some("3限") || l.period == Some("4限")
  {
    var suzuki := SuzukiPart(t.name);
    if l in suzuki {
      var i :| 0 <= i < |SUZUKI_TABLE| && suzuki[i] == l;
      SuzukiPeriods(i);
    } else if l in SunPart(t.name, thursdayOf) {
      SunPeriods(thursdayOf, l);
    }
  }

  /** Every collected fixed lesson blocks its own slot. */
  lemma FixedLessonBlocksOwnSlot(t: Teacher, thursdayOf: int -> string, l: FixedLesson)
    requires l in FixedLessons(t, thursdayOf)
    ensures exists p :: l.period == Some(PeriodName(p)) && Blocks(l, l.week, l.dayOfWeek, PeriodName(p))
  {
    FixedLessonPeriods(t, thursdayOf, l);
    var p := if l.period == Some("1限") then P1 else if l.period == Some("4限") then P4 else P3;
    LessonBlocksOwnPeriod(l, p);
  }

  /** A slot a fixed lesson of one of the records occupies is a conflict. */
  lemma OwnSlotConflicts(fixedTeachers: seq<TeacherPriority>, i: nat, j: nat, p: Period)
    requires i < |fixedTeachers| && fixedTeachers[i].fixedSchedule.Some? && j < |fixedTeachers[i].fixedSchedule.value|
    requires fixedTeachers[i].fixedSchedule.value[j].period == Some(PeriodName(p))
    ensures SlotConflict(fixedTeachers[i].fixedSchedule.value[j].week, fixedTeachers[i].fixedSchedule.value[j].dayOfWeek, PeriodName(p), fixedTeachers)
  {
    LessonBlocksOwnPeriod(fixedTeachers[i].fixedSchedule.value[j], p);
  }

  /** A lesson without a period, or with an empty one, blocks every period of its day. */
  lemma WholeDayBlocks(l: FixedLesson, period: string)
    requires !TruthyString(l.period)
    ensures Blocks(l, l.week, l.dayOfWeek, period)
  {
  }

  /** Each summary part starts with a character other than the first one of 制約なし. */
  lemma SummaryPartsHeads(t: Teacher)
    ensures forall k :: 0 <= k < |SummaryParts(t)| ==> |SummaryParts(t)[k]| > 0 && SummaryParts(t)[k][0] != '制'
  {
  }

  lemma {:induction false} JoinStartsWithFirst(parts: seq<string>, sep: string)
    requires |parts| > 0
    ensures parts[0] <= Join(parts, sep)
  {
    if |parts| > 1 {
      assert Join(parts, sep) == parts[0] + (sep + Join(parts[1..], sep));
    }
  }

  /** getTeacherConstraintSummary says 制約なし exactly when no constraint part applies. */
  lemma SummaryNoneIff(t: Teacher)
    ensures GetTeacherConstraintSummary(t) == "制約なし" <==> SummaryParts(t) == []
  {
    var parts := SummaryParts(t);
    if parts != [] {
      SummaryPartsHeads(t);
      JoinStartsWithFirst(parts, " / ");
      assert Join(parts, " / ")[0] == parts[0][0];
    }
  }
}
