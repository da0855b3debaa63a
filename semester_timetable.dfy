/**
 * The semester timetable screen: the validator and update behind dragging an entry to
 * another cell, the placeholder added to an empty cell, and the "(current/total)"
 * progress shown on every entry. The screen's state (the loaded semester, the active
 * group tab and the group statuses) is a class whose methods are the handlers.
 */
module SemesterTimetable {
  import opened Wrappers
  import opened Types
  import Strings
  import Sorting
  import AutoScheduleRules
  import App

  type Entry = AutoScheduleRules.GeneratedEntry
  type Slot = AutoScheduleRules.Slot

  /** One group of the loaded semester. */
  datatype SemesterGroup = SemesterGroup(
    name: string, department: string, grade: string, status: App.GroupStatus, schedule: seq<Entry>)

  /** The loaded semester; `groups` is the groups object in key order. */
  datatype SemesterData = SemesterData(
    groups: seq<(string, SemesterGroup)>, weeks: int, startDate: string, endDate: string)

  predicate DistinctKeys(groups: seq<(string, SemesterGroup)>)
  {
    forall i, j :: 0 <= i < j < |groups| ==> groups[i].0 != groups[j].0
  }

  /** The position of the group stored under `key`. */
  function GroupIndex(groups: seq<(string, SemesterGroup)>, key: string): (r: Option<nat>)
    ensures r.Some? ==> r.value < |groups| && groups[r.value].0 == key
    ensures r.Some? ==> forall j :: 0 <= j < r.value ==> groups[j].0 != key
    ensures r.None? ==> forall j :: 0 <= j < |groups| ==> groups[j].0 != key
  {
    Sorting.FindFirst(groups, (g: (string, SemesterGroup)) => g.0 == key)
  }

  /** `groups[key].schedule`; empty for a missing key (the screen keeps the active key present). */
  function ScheduleOf(groups: seq<(string, SemesterGroup)>, key: string): seq<Entry>
  {
    match GroupIndex(groups, key)
    case None => []
    case Some(i) => groups[i].1.schedule
  }

  /** The groups of the semester, none before it is loaded. */
  function GroupsOf(data: Option<SemesterData>): seq<(string, SemesterGroup)>
  {
    match data
    case None => []
    case Some(d) => d.groups
  }

  /** `{ ...groups, [key]: { ...groups[key], schedule } }`. */
  function WithSchedule(groups: seq<(string, SemesterGroup)>, key: string, schedule: seq<Entry>)
    : seq<(string, SemesterGroup)>
  {
    match GroupIndex(groups, key)
    case None => groups
    case Some(i) => groups[i := (key, groups[i].1.(schedule := schedule))]
  }

  /** Replacing one group's schedule keeps every key, is read back, and leaves every other group alone. */
  lemma WithScheduleSpec(groups: seq<(string, SemesterGroup)>, key: string, schedule: seq<Entry>)
    requires GroupIndex(groups, key).Some?
    ensures var r := WithSchedule(groups, key, schedule);
      && |r| == |groups|
      && (forall j :: 0 <= j < |groups| ==> r[j].0 == groups[j].0)
      && ScheduleOf(r, key) == schedule
      && (forall k :: k != key ==> ScheduleOf(r, k) == ScheduleOf(groups, k))
      && (forall j :: 0 <= j < |groups| && groups[j].0 != key ==> r[j] == groups[j])
      && (DistinctKeys(groups) ==> DistinctKeys(r))
  {
    var r := WithSchedule(groups, key, schedule);
    var i := GroupIndex(groups, key).value;
    assert forall j :: 0 <= j < |groups| ==> r[j].0 == groups[j].0;
    assert GroupIndex(r, key) == Some(i) by {
      GroupIndexSameKeys(groups, r, key);
    }
    forall k | k != key ensures ScheduleOf(r, k) == ScheduleOf(groups, k) {
      GroupIndexSameKeys(groups, r, k);
    }
  }

  /** Two group lists with the same keys in the same order find every key at the same place. */
  lemma GroupIndexSameKeys(a: seq<(string, SemesterGroup)>, b: seq<(string, SemesterGroup)>, key: string)
    requires |a| == |b| && forall j :: 0 <= j < |a| ==> a[j].0 == b[j].0
    ensures GroupIndex(a, key) == GroupIndex(b, key)
  {
    var ra, rb := GroupIndex(a, key), GroupIndex(b, key);
    if ra.Some? {
      assert b[ra.value].0 == key;
    }
    if rb.Some? {
      assert a[rb.value].0 == key;
    }
  }

  // ---------------------------------------------------------------------------
  // The teacher's constraints
  // ---------------------------------------------------------------------------

  const FIONA := "フィオーナ"
  const MORITA := "森田"
  const KINOSHITA := "木下"
  const RELATED_SUBJECTS: seq<string> := ["卒業制作", "進級制作", "Web基礎"]

  const FIONA_MESSAGE := "❌ フィオーナ先生は3限目のみ利用可能です"
  const MORITA_DAY_MESSAGE := "❌ 森田先生の授業は水曜日・金曜日のみ配置可能です"
  const MORITA_LIMIT_MESSAGE := "❌ 森田先生は週3コマ制限に達しています"
  const KINOSHITA_MESSAGE := "❌ 木下先生は月曜日・金曜日のみ利用可能です"

  /** The day label for an English day name; anything else is `undefined`, which `join` prints as "". */
  function JapaneseDay(english: string): (r: string)
    ensures forall d: Day :: english == EnglishDayName(d) ==> r == DayName(d)
  {
    if english == "monday" then "月"
    else if english == "tuesday" then "火"
    else if english == "wednesday" then "水"
    else if english == "thursday" then "木"
    else if english == "friday" then "金"
    else ""
  }

  /** The allowed days of an `availableDays` list as Japanese labels joined with '・'. */
  function AvailableDaysText(days: seq<string>): string
  {
    Strings.Join(seq(|days|, i requires 0 <= i < |days| => JapaneseDay(days[i])), "・")
  }

  function UnavailableMessage(t: Teacher, day: Day): string
  {
    "❌ " + t.name + "先生は" + DayName(day) + "曜日はNG（利用不可日）のため移動できません"
  }

  function NotAvailableMessage(t: Teacher, day: Day, days: seq<string>): string
  {
    "❌ " + t.name + "先生は" + DayName(day) + "曜日は利用できません（利用可能日: " + AvailableDaysText(days) + "）"
  }

  /** `list?.includes(x)`: the optional list is present and holds `x`. */
  predicate Lists(list: Option<seq<string>>, x: string)
  {
    list.Some? && x in list.value
  }

  /** The element of `all` whose id is looked up by `find(t => t.id === id)`. */
  function TeacherById(teachers: seq<Teacher>, id: string): Option<Teacher>
  {
    Sorting.Find(teachers, (t: Teacher) => t.id == id)
  }

  function SubjectById(subjects: seq<Subject>, id: string): Option<Subject>
  {
    Sorting.Find(subjects, (s: Subject) => s.id == id)
  }

  function ClassroomById(classrooms: seq<Classroom>, id: string): Option<Classroom>
  {
    Sorting.Find(classrooms, (c: Classroom) => c.id == id)
  }

  /** The dragged entry's subject is one of the three 森田 teaches as a weekly block. */
  predicate MoritaSubject(subjects: seq<Subject>, entry: Entry)
  {
    var s := SubjectById(subjects, entry.subjectId);
    s.Some? && s.value.name in RELATED_SUBJECTS
  }

  /** The entry sits at `target`'s week and the teacher, but not at `target`'s day and period. */
  function SameWeekElsewhere(teacherId: string, target: Slot): Entry -> bool
  {
    (e: Entry) => e.teacherId == teacherId && e.week == target.week
      && !(e.day == target.day && e.period == target.period)
  }

  function SameWeek(teacherId: string, target: Slot): Entry -> bool
  {
    (e: Entry) => e.teacherId == teacherId && e.week == target.week
  }

  function AtSlotOf(teacherId: string, target: Slot): Entry -> bool
  {
    (e: Entry) => e.teacherId == teacherId && AutoScheduleRules.SlotOf(e) == target
  }

  /**
   * countTeacherWeeklyClasses: the teacher's entries of the active group in the target
   * week, leaving out those at the target day and period.
   */
  function CountTeacherWeeklyClasses(active: seq<Entry>, teacherId: string, target: Slot): (r: nat)
    ensures r <= |active|
  {
    |Sorting.Filter(active, SameWeekElsewhere(teacherId, target))|
  }

  /** The count is the teacher's entries of that week less those already at the target cell. */
  lemma CountExcludesTarget(active: seq<Entry>, teacherId: string, target: Slot)
    ensures CountTeacherWeeklyClasses(active, teacherId, target)
      + |Sorting.Filter(active, AtSlotOf(teacherId, target))|
      == |Sorting.Filter(active, SameWeek(teacherId, target))|
  {
    Sorting.FilterPartition(active, SameWeek(teacherId, target), AtSlotOf(teacherId, target),
      SameWeekElsewhere(teacherId, target));
  }

  /** Moving the teacher's entry within its own cell does not change the count. */
  lemma {:induction false} CountIgnoresTargetCell(active: seq<Entry>, teacherId: string, target: Slot, e: Entry)
    requires AutoScheduleRules.SlotOf(e) == target
    ensures CountTeacherWeeklyClasses(active + [e], teacherId, target)
      == CountTeacherWeeklyClasses(active, teacherId, target)
  {
    Sorting.FilterSnoc(active, e, SameWeekElsewhere(teacherId, target));
  }

  /** The first of the teacher's constraints the move breaks, in the order the handler checks them. */
  function TeacherRejection(t: Teacher, subjects: seq<Subject>, active: seq<Entry>, entry: Entry, target: Slot)
    : Option<string>
  {
    if t.constraints.Some? && Lists(t.constraints.value.unavailableDays, DayName(target.day)) then
      Some(UnavailableMessage(t, target.day))
    else if t.constraints.Some? && t.constraints.value.availableDays.Some?
      && EnglishDayName(target.day) !in t.constraints.value.availableDays.value then
      Some(NotAvailableMessage(t, target.day, t.constraints.value.availableDays.value))
    else if Strings.Contains(t.name, FIONA) && t.constraints.Some? && t.constraints.value.requiredPeriods.Some?
      && PeriodName(target.period) !in t.constraints.value.requiredPeriods.value then
      Some(FIONA_MESSAGE)
    else if Strings.Contains(t.name, MORITA) && t.constraints.Some? && t.constraints.value.weeklyGrouping
      && MoritaSubject(subjects, entry) && target.day != Wed && target.day != Fri then
      Some(MORITA_DAY_MESSAGE)
    else if Strings.Contains(t.name, MORITA) && t.constraints.Some? && t.constraints.value.weeklyGrouping
      && MoritaSubject(subjects, entry) && CountTeacherWeeklyClasses(active, t.id, target) >= 3 then
      Some(MORITA_LIMIT_MESSAGE)
    else if Strings.Contains(t.name, KINOSHITA) && t.constraints.Some? && t.constraints.value.preferConsecutiveClasses
      && target.day != Mon && target.day != Fri then
      Some(KINOSHITA_MESSAGE)
    else None
  }

  /** Every constraint of the teacher holds for the move. */
  ghost predicate TeacherAllows(t: Teacher, subjects: seq<Subject>, active: seq<Entry>, entry: Entry, target: Slot)
  {
    t.constraints.Some? ==>
      var c := t.constraints.value;
      && !Lists(c.unavailableDays, DayName(target.day))
      && (c.availableDays.Some? ==> EnglishDayName(target.day) in c.availableDays.value)
      && (Strings.Contains(t.name, FIONA) && c.requiredPeriods.Some? ==> PeriodName(target.period) in c.requiredPeriods.value)
      && (Strings.Contains(t.name, MORITA) && c.weeklyGrouping && MoritaSubject(subjects, entry) ==>
            (target.day == Wed || target.day == Fri) && CountTeacherWeeklyClasses(active, t.id, target) < 3)
      && (Strings.Contains(t.name, KINOSHITA) && c.preferConsecutiveClasses ==> target.day == Mon || target.day == Fri)
  }

  // ---------------------------------------------------------------------------
  // Classroom and combo conflicts
  // ---------------------------------------------------------------------------

  /** Another entry of the list takes `classroomId` at `target`. */
  function TakesRoom(otherThan: string, classroomId: string, target: Slot): Entry -> bool
  {
    (item: Entry) => item.id != otherThan && AutoScheduleRules.SlotOf(item) == target && item.classroomId == classroomId
  }

  /** The dragged entry's classroom is booked at the target by another entry of the active group. */
  function ClassroomRejection(classrooms: seq<Classroom>, active: seq<Entry>, entry: Entry, target: Slot)
    : Option<string>
  {
    match ClassroomById(classrooms, entry.classroomId)
    case None => None
    case Some(room) =>
      match Sorting.Find(active, TakesRoom(entry.id, entry.classroomId, target))
      case None => None
      case Some(conflict) =>
        Some("❌ " + room.name + "教室は" + DayName(target.day) + "曜日" + PeriodName(target.period)
          + "に「" + conflict.subjectName + "」で使用中です")
  }

  const COMBO_TAG := "[コンビ]"
  const COMBO_SUFFIX := " [コンビ]"

  predicate IsCombo(entry: Entry)
  {
    Strings.Contains(entry.subjectName, COMBO_TAG)
  }

  /** `name.replace(' [コンビ]', '')`. */
  function BaseName(name: string): string
  {
    Strings.ReplaceFirst(name, COMBO_SUFFIX, "")
  }

  /** The same combo lesson, or its Essential English / ビジネス日本語 counterpart. */
  predicate ComboMatch(base: string, item: Entry)
  {
    || BaseName(item.subjectName) == base
    || (Strings.Contains(base, "Essential English") && Strings.Contains(item.subjectName, "ビジネス日本語"))
    || (Strings.Contains(base, "ビジネス日本語") && Strings.Contains(item.subjectName, "Essential English"))
  }

  function ConflictsAt(base: string, target: Slot): Entry -> bool
  {
    (item: Entry) => AutoScheduleRules.SlotOf(item) == target && ComboMatch(base, item)
  }

  /** A group other than the active one holds the combo lesson at the target. */
  predicate GroupConflicts(g: (string, SemesterGroup), activeTab: string, base: string, target: Slot)
  {
    g.0 != activeTab && Sorting.Find(g.1.schedule, ConflictsAt(base, target)).Some?
  }

  /** Group `i` is the first in key order, other than the active one, holding the combo lesson at the target. */
  predicate FirstConflict(groups: seq<(string, SemesterGroup)>, i: int, activeTab: string, base: string, target: Slot)
  {
    && 0 <= i < |groups| && GroupConflicts(groups[i], activeTab, base, target)
    && forall k :: 0 <= k < i ==> !GroupConflicts(groups[k], activeTab, base, target)
  }

  /**
   * checkComboClassConflictAcrossGroups: the name of the first group, in key order and
   * skipping the active one, holding the same combo lesson at the target.
   */
  function ComboConflict(groups: seq<(string, SemesterGroup)>, activeTab: string, base: string, target: Slot)
    : (r: Option<string>)
    ensures r.None? <==> forall i :: 0 <= i < |groups| ==> !GroupConflicts(groups[i], activeTab, base, target)
    ensures r.Some? ==> exists i :: FirstConflict(groups, i, activeTab, base, target) && groups[i].1.name == r.value
  {
    if groups == [] then None
    else if GroupConflicts(groups[0], activeTab, base, target) then
      assert FirstConflict(groups, 0, activeTab, base, target);
      Some(groups[0].1.name)
    else
      var r := ComboConflict(groups[1..], activeTab, base, target);
      assert r.Some? ==> exists i :: FirstConflict(groups, i, activeTab, base, target) && groups[i].1.name == r.value by {
        if r.Some? {
          var i :| FirstConflict(groups[1..], i, activeTab, base, target) && groups[1..][i].1.name == r.value;
          assert groups[i + 1] == groups[1..][i];
          forall k | 0 <= k < i + 1 ensures !GroupConflicts(groups[k], activeTab, base, target) {
            if k > 0 { assert groups[k] == groups[1..][k - 1]; }
          }
          assert FirstConflict(groups, i + 1, activeTab, base, target);
        }
      }
      assert r.None? <==> forall i :: 0 <= i < |groups| ==> !GroupConflicts(groups[i], activeTab, base, target) by {
        forall i | 1 <= i < |groups| ensures groups[i] == groups[1..][i - 1] { }
      }
      r
  }

  /** A group conflicts exactly when it is not the active one and one of its entries is the lesson at the target. */
  lemma GroupConflictsIff(g: (string, SemesterGroup), activeTab: string, base: string, target: Slot)
    ensures GroupConflicts(g, activeTab, base, target)
      <==> g.0 != activeTab && exists x :: x in g.1.schedule && ConflictsAt(base, target)(x)
  {
  }

  /** The loop of checkComboClassConflictAcrossGroups, returning at the first conflicting group. */
  method FindComboConflict(groups: seq<(string, SemesterGroup)>, activeTab: string, base: string, target: Slot)
    returns (r: Option<string>)
    ensures r == ComboConflict(groups, activeTab, base, target)
  {
    var k := 0;
    while k < |groups|
      invariant 0 <= k <= |groups|
      invariant ComboConflict(groups[k..], activeTab, base, target) == ComboConflict(groups, activeTab, base, target)
    {
      assert groups[k..][0] == groups[k] && groups[k..][1..] == groups[k + 1..];
      var (groupKey, groupData) := groups[k];
      if groupKey != activeTab {
        var conflict := Sorting.Find(groupData.schedule, ConflictsAt(base, target));
        if conflict.Some? {
          return Some(groupData.name);
        }
      }
      k := k + 1;
    }
    return None;
  }

  function ComboGroupMessage(groupName: string, target: Slot): string
  {
    "❌ " + groupName + "でも同じコンビ授業が" + DayName(target.day) + "曜日" + PeriodName(target.period) + "に配置されています"
  }

  function PairOf(comboSubjectId: string, from: Slot): Entry -> bool
  {
    (item: Entry) => item.subjectId == comboSubjectId && AutoScheduleRules.SlotOf(item) == from
  }

  /**
   * The combo partner that moves along: the entry of the partner subject at the dragged
   * entry's old cell, looked up only for a combo entry whose subject names a partner.
   */
  function PairEntry(subjects: seq<Subject>, schedule: seq<Entry>, entry: Entry): Option<Entry>
  {
    var subject := SubjectById(subjects, entry.subjectId);
    if IsCombo(entry) && subject.Some? && TruthyString(subject.value.comboSubjectId) then
      Sorting.Find(schedule, PairOf(subject.value.comboSubjectId.value, AutoScheduleRules.SlotOf(entry)))
    else None
  }

  /** The partner's classroom is booked at the target, checked when its subject and classroom are known. */
  function PairRejection(subjects: seq<Subject>, classrooms: seq<Classroom>, active: seq<Entry>, entry: Entry, target: Slot)
    : Option<string>
  {
    match PairEntry(subjects, active, entry)
    case None => None
    case Some(pair) =>
      match ClassroomById(classrooms, pair.classroomId)
      case None => None
      case Some(room) =>
        if SubjectById(subjects, pair.subjectId).None? then None
        else match Sorting.Find(active, TakesRoom(pair.id, pair.classroomId, target))
          case None => None
          case Some(_) => Some("❌ コンビ授業のペア科目「" + pair.subjectName + "」の教室" + room.name + "が使用中です")
  }

  // ---------------------------------------------------------------------------
  // The drop
  // ---------------------------------------------------------------------------

  /**
   * The message handleDrop reports, or None when the move is made: the teacher's
   * constraints, then the classroom, then for a combo entry the other groups and the
   * partner's classroom. Before the semester is loaded `groups` is empty.
   */
  function DropRejection(teachers: seq<Teacher>, subjects: seq<Subject>, classrooms: seq<Classroom>,
                         groups: seq<(string, SemesterGroup)>, activeTab: string, entry: Entry, target: Slot)
    : Option<string>
  {
    var active := ScheduleOf(groups, activeTab);
    var teacher := TeacherById(teachers, entry.teacherId);
    var byTeacher := if teacher.None? then None else TeacherRejection(teacher.value, subjects, active, entry, target);
    if byTeacher.Some? then byTeacher
    else
      var byRoom := ClassroomRejection(classrooms, active, entry, target);
      if byRoom.Some? then byRoom
      else if !IsCombo(entry) then None
      else match ComboConflict(groups, activeTab, BaseName(entry.subjectName), target)
        case Some(groupName) => Some(ComboGroupMessage(groupName, target))
        case None => PairRejection(subjects, classrooms, active, entry, target)
  }

  /** No entry of `active` other than `otherThan` holds `classroomId` at `target`. */
  ghost predicate RoomFree(active: seq<Entry>, otherThan: string, classroomId: string, target: Slot)
  {
    forall j :: 0 <= j < |active| ==>
      !(active[j].id != otherThan && AutoScheduleRules.SlotOf(active[j]) == target && active[j].classroomId == classroomId)
  }

  /** The teacher of the entry, when there is one, allows the move. */
  ghost predicate TeacherOk(teachers: seq<Teacher>, subjects: seq<Subject>, active: seq<Entry>, entry: Entry, target: Slot)
  {
    var t := TeacherById(teachers, entry.teacherId);
    t.Some? ==> TeacherAllows(t.value, subjects, active, entry, target)
  }

  /** A known classroom of the entry is free at the target. */
  ghost predicate RoomOk(classrooms: seq<Classroom>, active: seq<Entry>, entry: Entry, target: Slot)
  {
    (exists c :: c in classrooms && c.id == entry.classroomId) ==> RoomFree(active, entry.id, entry.classroomId, target)
  }

  /** No other group holds the combo lesson at the target. */
  ghost predicate CombosOk(groups: seq<(string, SemesterGroup)>, activeTab: string, base: string, target: Slot)
  {
    forall i, x :: 0 <= i < |groups| && groups[i].0 != activeTab && x in groups[i].1.schedule ==>
      !ConflictsAt(base, target)(x)
  }

  /** The partner moving along, when its subject and classroom are known, finds its classroom free. */
  ghost predicate PairOk(subjects: seq<Subject>, classrooms: seq<Classroom>, active: seq<Entry>, entry: Entry, target: Slot)
  {
    var p := PairEntry(subjects, active, entry);
    (&& p.Some?
     && (exists s :: s in subjects && s.id == p.value.subjectId)
     && (exists c :: c in classrooms && c.id == p.value.classroomId))
    ==> RoomFree(active, p.value.id, p.value.classroomId, target)
  }

  /** What an accepted move satisfies, stated with quantifiers instead of searches. */
  ghost predicate DropAllowed(teachers: seq<Teacher>, subjects: seq<Subject>, classrooms: seq<Classroom>,
                              groups: seq<(string, SemesterGroup)>, activeTab: string, entry: Entry, target: Slot)
  {
    var active := ScheduleOf(groups, activeTab);
    && TeacherOk(teachers, subjects, active, entry, target)
    && RoomOk(classrooms, active, entry, target)
    && (IsCombo(entry) ==>
          CombosOk(groups, activeTab, BaseName(entry.subjectName), target)
          && PairOk(subjects, classrooms, active, entry, target))
  }

  lemma TeacherRejectionNone(t: Teacher, subjects: seq<Subject>, active: seq<Entry>, entry: Entry, target: Slot)
    ensures TeacherRejection(t, subjects, active, entry, target).None? <==> TeacherAllows(t, subjects, active, entry, target)
  {
  }

  lemma RoomRejectionNone(active: seq<Entry>, otherThan: string, classroomId: string, target: Slot)
    ensures Sorting.Find(active, TakesRoom(otherThan, classroomId, target)).None? <==> RoomFree(active, otherThan, classroomId, target)
  {
    var r := Sorting.Find(active, TakesRoom(otherThan, classroomId, target));
    if r.None? {
      forall j | 0 <= j < |active| ensures !TakesRoom(otherThan, classroomId, target)(active[j]) {
        assert active[j] in active;
      }
    }
  }

  lemma ClassroomRejectionNone(classrooms: seq<Classroom>, active: seq<Entry>, entry: Entry, target: Slot)
    ensures ClassroomRejection(classrooms, active, entry, target).None? <==> RoomOk(classrooms, active, entry, target)
  {
    RoomRejectionNone(active, entry.id, entry.classroomId, target);
  }

  lemma ComboConflictNone(groups: seq<(string, SemesterGroup)>, activeTab: string, base: string, target: Slot)
    ensures ComboConflict(groups, activeTab, base, target).None? <==> CombosOk(groups, activeTab, base, target)
  {
    forall i | 0 <= i < |groups| {
      GroupConflictsIff(groups[i], activeTab, base, target);
    }
  }

  lemma PairRejectionNone(subjects: seq<Subject>, classrooms: seq<Classroom>, active: seq<Entry>, entry: Entry, target: Slot)
    ensures PairRejection(subjects, classrooms, active, entry, target).None? <==> PairOk(subjects, classrooms, active, entry, target)
  {
    var p := PairEntry(subjects, active, entry);
    if p.Some? {
      RoomRejectionNone(active, p.value.id, p.value.classroomId, target);
    }
  }

  /** A move is made exactly when every constraint, the classroom and the combo checks allow it. */
  lemma DropAcceptedIff(teachers: seq<Teacher>, subjects: seq<Subject>, classrooms: seq<Classroom>,
                        groups: seq<(string, SemesterGroup)>, activeTab: string, entry: Entry, target: Slot)
    ensures DropRejection(teachers, subjects, classrooms, groups, activeTab, entry, target).None?
      <==> DropAllowed(teachers, subjects, classrooms, groups, activeTab, entry, target)
  {
    var active := ScheduleOf(groups, activeTab);
    var teacher := TeacherById(teachers, entry.teacherId);
    if teacher.Some? {
      TeacherRejectionNone(teacher.value, subjects, active, entry, target);
    }
    ClassroomRejectionNone(classrooms, active, entry, target);
    ComboConflictNone(groups, activeTab, BaseName(entry.subjectName), target);
    PairRejectionNone(subjects, classrooms, active, entry, target);
  }

  /** With a movable teacher, a room booked by another entry at the target is reported with that entry's subject. */
  lemma ClassroomConflictReported(teachers: seq<Teacher>, subjects: seq<Subject>, classrooms: seq<Classroom>,
                                  groups: seq<(string, SemesterGroup)>, activeTab: string, entry: Entry, target: Slot,
                                  room: Classroom, j: nat)
    requires TeacherById(teachers, entry.teacherId).Some? ==>
      TeacherAllows(TeacherById(teachers, entry.teacherId).value, subjects, ScheduleOf(groups, activeTab), entry, target)
    requires ClassroomById(classrooms, entry.classroomId) == Some(room)
    requires j < |ScheduleOf(groups, activeTab)|
    requires TakesRoom(entry.id, entry.classroomId, target)(ScheduleOf(groups, activeTab)[j])
    ensures var r := DropRejection(teachers, subjects, classrooms, groups, activeTab, entry, target);
      exists k :: 0 <= k <= j && r == Some("❌ " + room.name + "教室は" + DayName(target.day) + "曜日"
        + PeriodName(target.period) + "に「" + ScheduleOf(groups, activeTab)[k].subjectName + "」で使用中です")
  {
    var active := ScheduleOf(groups, activeTab);
    var teacher := TeacherById(teachers, entry.teacherId);
    if teacher.Some? {
      TeacherRejectionNone(teacher.value, subjects, active, entry, target);
    }
    assert active[j] in active;
    var k := Sorting.FindFirst(active, TakesRoom(entry.id, entry.classroomId, target)).value;
    assert Sorting.Find(active, TakesRoom(entry.id, entry.classroomId, target)) == Some(active[k]);
  }

  /** Once teacher and room allow the move, the first other group holding the same combo lesson at the target is named. */
  lemma ComboConflictReported(teachers: seq<Teacher>, subjects: seq<Subject>, classrooms: seq<Classroom>,
                              groups: seq<(string, SemesterGroup)>, activeTab: string, entry: Entry, target: Slot, i: nat)
    requires IsCombo(entry)
    requires TeacherOk(teachers, subjects, ScheduleOf(groups, activeTab), entry, target)
    requires RoomOk(classrooms, ScheduleOf(groups, activeTab), entry, target)
    requires FirstConflict(groups, i, activeTab, BaseName(entry.subjectName), target)
    ensures DropRejection(teachers, subjects, classrooms, groups, activeTab, entry, target)
      == Some(ComboGroupMessage(groups[i].1.name, target))
  {
    var active := ScheduleOf(groups, activeTab);
    var base := BaseName(entry.subjectName);
    var teacher := TeacherById(teachers, entry.teacherId);
    if teacher.Some? {
      TeacherRejectionNone(teacher.value, subjects, active, entry, target);
    }
    ClassroomRejectionNone(classrooms, active, entry, target);
    var r := ComboConflict(groups, activeTab, base, target);
    assert r.Some?;
    var i' :| FirstConflict(groups, i', activeTab, base, target) && groups[i'].1.name == r.value;
    assert i' == i;
  }

  // ---------------------------------------------------------------------------
  // The move
  // ---------------------------------------------------------------------------

  /** `{ ...item, timeSlot: { ...item.timeSlot, week, dayOfWeek: day, period } }`: the date stays. */
  function MoveTo(item: Entry, target: Slot): (r: Entry)
    ensures AutoScheduleRules.SlotOf(r) == target
    ensures r.id == item.id && r.date == item.date && r.subjectId == item.subjectId
      && r.teacherId == item.teacherId && r.classroomId == item.classroomId && r.subjectName == item.subjectName
  {
    item.(week := target.week, day := target.day, period := target.period)
  }

  /** `schedule.map(item => item.id === id ? moved : item)`. */
  function MoveId(schedule: seq<Entry>, id: string, target: Slot): (r: seq<Entry>)
    ensures |r| == |schedule|
  {
    seq(|schedule|, i requires 0 <= i < |schedule| => if schedule[i].id == id then MoveTo(schedule[i], target) else schedule[i])
  }

  /** Moving an id a second time to the same cell changes nothing. */
  lemma MoveIdIdempotent(schedule: seq<Entry>, id: string, target: Slot)
    ensures MoveId(MoveId(schedule, id, target), id, target) == MoveId(schedule, id, target)
  {
  }

  /** Moving the entries of an id to another cell and back restores the schedule when they all sat at `from`. */
  lemma MoveIdBack(schedule: seq<Entry>, id: string, from: Slot, target: Slot)
    requires forall i :: 0 <= i < |schedule| && schedule[i].id == id ==> AutoScheduleRules.SlotOf(schedule[i]) == from
    ensures MoveId(MoveId(schedule, id, target), id, from) == schedule
  {
    var r := MoveId(MoveId(schedule, id, target), id, from);
    forall i | 0 <= i < |schedule| ensures r[i] == schedule[i] {
      if schedule[i].id == id {
        assert AutoScheduleRules.SlotOf(schedule[i]) == from;
      }
    }
  }

  /** The active schedule after an accepted drop: the entry, and its combo partner if any, at the new cell. */
  function MovedSchedule(subjects: seq<Subject>, schedule: seq<Entry>, entry: Entry, target: Slot): seq<Entry>
  {
    var moved := MoveId(schedule, entry.id, target);
    match PairEntry(subjects, schedule, entry)
    case None => moved
    case Some(pair) => MoveId(moved, pair.id, target)
  }

  /** The ids a drop moves: the entry's and its partner's. */
  function MovedIds(subjects: seq<Subject>, schedule: seq<Entry>, entry: Entry): set<string>
  {
    match PairEntry(subjects, schedule, entry)
    case None => {entry.id}
    case Some(pair) => {entry.id, pair.id}
  }

  /**
   * After a drop only the entry and its partner change, and they change only their cell:
   * the length, the order, every id and date stay.
   */
  lemma MovedScheduleSpec(subjects: seq<Subject>, schedule: seq<Entry>, entry: Entry, target: Slot)
    ensures var r := MovedSchedule(subjects, schedule, entry, target);
      && |r| == |schedule|
      && (forall i :: 0 <= i < |schedule| && schedule[i].id !in MovedIds(subjects, schedule, entry) ==> r[i] == schedule[i])
      && (forall i :: 0 <= i < |schedule| && schedule[i].id in MovedIds(subjects, schedule, entry) ==> r[i] == MoveTo(schedule[i], target))
  {
  }

  /** The partner that moves along is an entry of the partner subject at the dragged entry's old cell. */
  lemma PairEntrySpec(subjects: seq<Subject>, schedule: seq<Entry>, entry: Entry)
    ensures var p := PairEntry(subjects, schedule, entry);
      p.Some? ==> (&& IsCombo(entry) && p.value in schedule
                   && AutoScheduleRules.SlotOf(p.value) == AutoScheduleRules.SlotOf(entry)
                   && exists s :: s in subjects && s.id == entry.subjectId && s.comboSubjectId == Some(p.value.subjectId))
  {
    var p := PairEntry(subjects, schedule, entry);
    if p.Some? {
      var s := SubjectById(subjects, entry.subjectId).value;
      assert s in subjects && s.id == entry.subjectId;
    }
  }

  // ---------------------------------------------------------------------------
  // Adding an entry
  // ---------------------------------------------------------------------------

  /** The placeholder an empty cell's "+" adds; `now` is `Date.now()`. */
  function Placeholder(now: int, target: Slot): (r: Entry)
    ensures AutoScheduleRules.SlotOf(r) == target
  {
    AutoScheduleRules.GeneratedEntry(
      "new-" + Strings.IntToString(now), target.week, "2025-10-07", target.day, target.period,
      "s1", "新しい授業", "t1", "未指定", "c1", "未指定")
  }

  function AtSlot(target: Slot): Entry -> bool
  {
    (e: Entry) => AutoScheduleRules.SlotOf(e) == target
  }

  /** Adding puts exactly one more entry into the target cell and none into any other. */
  lemma PlaceholderFillsCell(schedule: seq<Entry>, now: int, target: Slot, other: Slot)
    requires other != target
    ensures |Sorting.Filter(schedule + [Placeholder(now, target)], AtSlot(target))| == |Sorting.Filter(schedule, AtSlot(target))| + 1
    ensures Sorting.Filter(schedule + [Placeholder(now, target)], AtSlot(other)) == Sorting.Filter(schedule, AtSlot(other))
  {
    Sorting.FilterSnoc(schedule, Placeholder(now, target), AtSlot(target));
    Sorting.FilterSnoc(schedule, Placeholder(now, target), AtSlot(other));
  }

  // ---------------------------------------------------------------------------
  // Progress
  // ---------------------------------------------------------------------------

  /** The entries of the same subject name and teacher name. */
  function SameCourse(entry: Entry): Entry -> bool
  {
    (e: Entry) => e.subjectName == entry.subjectName && e.teacherName == entry.teacherName
  }

  /** The comparator: by week, then 月 1 … 金 5; `le(a, b)` when it returns at most 0. */
  predicate WeekDayLe(a: Entry, b: Entry)
  {
    a.week < b.week || (a.week == b.week && DayIndex(a.day) + 1 <= DayIndex(b.day) + 1)
  }

  lemma WeekDayTotalPreorder()
    ensures Sorting.TotalPreorder((a: Entry, b: Entry) => WeekDayLe(a, b))
  {
  }

  /** The same subject's entries in week and day order, the list the progress numbers count in. */
  function SameCourseEntries(schedule: seq<Entry>, entry: Entry): seq<Entry>
  {
    Sorting.SortBy(Sorting.Filter(schedule, SameCourse(entry)), (a: Entry, b: Entry) => WeekDayLe(a, b))
  }

  datatype Progress = Progress(current: int, total: int)

  /** The subject whose name is the entry's, with or without the " [コンビ]" suffix. */
  function MatchingSubject(subjects: seq<Subject>, entry: Entry): Option<Subject>
  {
    Sorting.Find(subjects, (s: Subject) => s.name == BaseName(entry.subjectName) || s.name == entry.subjectName)
  }

  function HasId(id: string): Entry -> bool
  {
    (e: Entry) => e.id == id
  }

  /** `{ current: findIndex + 1, total }`, the total taken from the subject when there is one. */
  function ProgressInfo(subjects: seq<Subject>, schedule: seq<Entry>, entry: Entry): Progress
  {
    var same := SameCourseEntries(schedule, entry);
    var current := match Sorting.FindFirst(same, HasId(entry.id)) case None => 0 case Some(i) => i + 1;
    var total := match MatchingSubject(subjects, entry) case None => |same| case Some(s) => s.totalClasses;
    Progress(current, total)
  }

  /**
   * For an entry of the schedule, `current` is the 1-based place of its id among the
   * same subject's entries ordered by week and day: everything before it is no later,
   * everything after it no earlier.
   */
  lemma ProgressCurrent(subjects: seq<Subject>, schedule: seq<Entry>, entry: Entry)
    requires entry in schedule
    ensures var same := SameCourseEntries(schedule, entry);
      var c := ProgressInfo(subjects, schedule, entry).current;
      && 1 <= c <= |same|
      && same[c - 1].id == entry.id
      && (forall j :: 0 <= j < c - 1 ==> same[j].id != entry.id && WeekDayLe(same[j], same[c - 1]))
      && (forall j :: c - 1 < j < |same| ==> WeekDayLe(same[c - 1], same[j]))
  {
    var same := SameCourseEntries(schedule, entry);
    var filtered := Sorting.Filter(schedule, SameCourse(entry));
    assert entry in filtered by {
      var i :| 0 <= i < |schedule| && schedule[i] == entry;
    }
    assert entry in multiset(same);
    var i :| 0 <= i < |same| && same[i] == entry;
    assert HasId(entry.id)(same[i]);
    WeekDayTotalPreorder();
    Sorting.SortBySorted(filtered, (a: Entry, b: Entry) => WeekDayLe(a, b));
  }

  /** A list of the same subject's entries holds only entries of that subject and teacher, and all of them. */
  lemma SameCourseEntriesMembers(schedule: seq<Entry>, entry: Entry, e: Entry)
    ensures e in SameCourseEntries(schedule, entry)
      <==> e in schedule && e.subjectName == entry.subjectName && e.teacherName == entry.teacherName
  {
    var filtered := Sorting.Filter(schedule, SameCourse(entry));
    assert e in SameCourseEntries(schedule, entry) <==> e in multiset(filtered);
    Sorting.FilterMultiset(schedule, SameCourse(entry), e);
  }

  // ---------------------------------------------------------------------------
  // The screen's state
  // ---------------------------------------------------------------------------

  /** The group statuses the screen keeps, one per group key. */
  function StatusMap(groups: seq<(string, SemesterGroup)>): (r: map<string, App.GroupStatus>)
    ensures r.Keys == set j | 0 <= j < |groups| :: groups[j].0
  {
    if groups == [] then map[]
    else StatusMap(groups[..|groups| - 1])[groups[|groups| - 1].0 := groups[|groups| - 1].1.status]
  }

  class Screen {
    var data: Option<SemesterData>
    var activeTab: string
    var groupStatuses: map<string, App.GroupStatus>

    /** Once loaded, the group keys are distinct and the active tab names one of them. */
    ghost predicate Valid()
      reads this
    {
      data.Some? ==> DistinctKeys(data.value.groups) && GroupIndex(data.value.groups, activeTab).Some?
    }

    constructor()
      ensures Valid() && data == None && activeTab == "it-1" && groupStatuses == map[]
    {
      data := None;
      activeTab := "it-1";
      groupStatuses := map[];
    }

    /** Stores a loaded semester and copies every group's status, key by key. */
    method Load(d: SemesterData)
      requires DistinctKeys(d.groups) && GroupIndex(d.groups, activeTab).Some?
      modifies this
      ensures Valid() && data == Some(d) && activeTab == old(activeTab)
      ensures groupStatuses == StatusMap(d.groups)
    {
      data := Some(d);
      var statuses := map[];
      var k := 0;
      while k < |d.groups|
        invariant 0 <= k <= |d.groups|
        invariant statuses == StatusMap(d.groups[..k])
      {
        assert d.groups[..k + 1][..k] == d.groups[..k];
        statuses := statuses[d.groups[k].0 := d.groups[k].1.status];
        k := k + 1;
      }
      assert d.groups[..k] == d.groups;
      groupStatuses := statuses;
    }

    /**
     * handleDrop: reports the first broken rule, or moves the entry (and its combo
     * partner) to the target cell of the active group.
     */
    method HandleDrop(teachers: seq<Teacher>, subjects: seq<Subject>, classrooms: seq<Classroom>, entry: Entry, target: Slot)
      returns (error: Option<string>)
      requires Valid()
      modifies this
      ensures error == DropRejection(teachers, subjects, classrooms, GroupsOf(old(data)), activeTab, entry, target)
      ensures activeTab == old(activeTab) && groupStatuses == old(groupStatuses)
      ensures error.Some? || old(data).None? ==> data == old(data)
      ensures error.None? && old(data).Some? ==>
        var groups := old(data).value.groups;
        data == Some(old(data).value.(groups := WithSchedule(groups, activeTab,
          MovedSchedule(subjects, ScheduleOf(groups, activeTab), entry, target))))
      ensures Valid()
    {
      var groups := GroupsOf(data);
      var active := ScheduleOf(groups, activeTab);
      var teacher := TeacherById(teachers, entry.teacherId);
      if teacher.Some? {
        error := TeacherRejection(teacher.value, subjects, active, entry, target);
        if error.Some? {
          return;
        }
      }
      error := ClassroomRejection(classrooms, active, entry, target);
      if error.Some? {
        return;
      }
      if IsCombo(entry) {
        var conflict := FindComboConflict(groups, activeTab, BaseName(entry.subjectName), target);
        if conflict.Some? {
          error := Some(ComboGroupMessage(conflict.value, target));
          return;
        }
        error := PairRejection(subjects, classrooms, active, entry, target);
        if error.Some? {
          return;
        }
      }
      if data.Some? {
        var updated := WithSchedule(groups, activeTab, MovedSchedule(subjects, active, entry, target));
        WithScheduleSpec(groups, activeTab, MovedSchedule(subjects, active, entry, target));
        data := Some(data.value.(groups := updated));
      }
    }

    /** handleAddEntry: appends the placeholder to the active group and marks that group incomplete. */
    method HandleAddEntry(now: int, target: Slot)
      requires Valid()
      modifies this
      ensures activeTab == old(activeTab) && Valid()
      ensures old(data).None? ==> data == None && groupStatuses == old(groupStatuses)
      ensures old(data).Some? ==>
        var groups := old(data).value.groups;
        && data == Some(old(data).value.(groups := WithSchedule(groups, activeTab,
             ScheduleOf(groups, activeTab) + [Placeholder(now, target)])))
        && groupStatuses == old(groupStatuses)[activeTab := App.Incomplete]
    {
      if data.Some? {
        var groups := data.value.groups;
        var schedule := ScheduleOf(groups, activeTab) + [Placeholder(now, target)];
        WithScheduleSpec(groups, activeTab, schedule);
        data := Some(data.value.(groups := WithSchedule(groups, activeTab, schedule)));
        groupStatuses := groupStatuses[activeTab := App.Incomplete];
      }
    }
  }
}
