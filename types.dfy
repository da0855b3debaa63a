/**
 * The shared vocabulary of the timetable application: departments, grades, lesson
 * kinds, the five teaching days 月–金, the four periods 1限–4限, teachers with their
 * constraint records, subjects, classrooms, timetable entries and the
 * schedule-adjustment requests of the settings screen.
 */
module Types {
  import opened Wrappers

  datatype TeacherType = FullTime | PartTime
  datatype Department = ITSolution | TourismDesign | CommonDepartment
  datatype Grade = FirstYear | SecondYear | AllGrades
  datatype LessonType = Regular | ComboLesson | JointLesson
  datatype Period = P1 | P2 | P3 | P4
  datatype Day = Mon | Tue | Wed | Thu | Fri

  function TeacherTypeName(t: TeacherType): string
  {
    match t
    case FullTime => "常勤"
    case PartTime => "非常勤"
  }

  function DepartmentName(d: Department): string
  {
    match d
    case ITSolution => "ITソリューション"
    case TourismDesign => "地域観光デザイン"
    case CommonDepartment => "共通"
  }

  function GradeName(g: Grade): string
  {
    match g
    case FirstYear => "1年"
    case SecondYear => "2年"
    case AllGrades => "全学年"
  }

  function LessonTypeName(l: LessonType): string
  {
    match l
    case Regular => "通常"
    case ComboLesson => "コンビ授業"
    case JointLesson => "合同"
  }

  /** The period label shown everywhere in the application. */
  function PeriodName(p: Period): string
  {
    match p
    case P1 => "1限"
    case P2 => "2限"
    case P3 => "3限"
    case P4 => "4限"
  }

  /** The Japanese one-character day label. */
  function DayName(d: Day): string
  {
    match d
    case Mon => "月"
    case Tue => "火"
    case Wed => "水"
    case Thu => "木"
    case Fri => "金"
  }

  /** The English day name some constraint checks compare `availableDays` against. */
  function EnglishDayName(d: Day): string
  {
    match d
    case Mon => "monday"
    case Tue => "tuesday"
    case Wed => "wednesday"
    case Thu => "thursday"
    case Fri => "friday"
  }

  const DAYS_OF_WEEK: seq<Day> := [Mon, Tue, Wed, Thu, Fri]
  const PERIODS: seq<Period> := [P1, P2, P3, P4]

  /** The position of `p` in PERIODS (`PERIODS.indexOf(p)`). */
  function PeriodIndex(p: Period): (i: nat)
    ensures i < 4
  {
    match p
    case P1 => 0
    case P2 => 1
    case P3 => 2
    case P4 => 3
  }

  /** The position of `d` in DAYS_OF_WEEK. */
  function DayIndex(d: Day): (i: nat)
    ensures i < 5
  {
    match d
    case Mon => 0
    case Tue => 1
    case Wed => 2
    case Thu => 3
    case Fri => 4
  }

  function DayNames(ds: seq<Day>): (r: seq<string>)
    ensures |r| == |ds| && forall i :: 0 <= i < |ds| ==> r[i] == DayName(ds[i])
  {
    if ds == [] then [] else [DayName(ds[0])] + DayNames(ds[1..])
  }

  function PeriodNames(ps: seq<Period>): (r: seq<string>)
    ensures |r| == |ps| && forall i :: 0 <= i < |ps| ==> r[i] == PeriodName(ps[i])
  {
    if ps == [] then [] else [PeriodName(ps[0])] + PeriodNames(ps[1..])
  }

  /** DAYS_OF_WEEK lists 月, 火, 水, 木, 金 once each, in that order, and nothing else. */
  lemma DaysOfWeekExact()
    ensures DayNames(DAYS_OF_WEEK) == ["月", "火", "水", "木", "金"]
    ensures forall d: Day :: d in DAYS_OF_WEEK
    ensures forall i, j :: 0 <= i < j < |DAYS_OF_WEEK| ==> DAYS_OF_WEEK[i] != DAYS_OF_WEEK[j]
    ensures forall d :: DayName(d) != "土" && DayName(d) != "日"
  {
    forall d: Day ensures d in DAYS_OF_WEEK {
      assert DAYS_OF_WEEK[DayIndex(d)] == d;
    }
  }

  /** PERIODS lists 1限..4限 once each, in order. */
  lemma PeriodsExact()
    ensures PeriodNames(PERIODS) == ["1限", "2限", "3限", "4限"]
    ensures forall p: Period :: p in PERIODS
    ensures forall i, j :: 0 <= i < j < |PERIODS| ==> PERIODS[i] != PERIODS[j]
  {
    forall p: Period ensures p in PERIODS {
      assert PERIODS[PeriodIndex(p)] == p;
    }
  }

  lemma DayNameInjective(a: Day, b: Day)
    ensures DayName(a) == DayName(b) ==> a == b
    ensures EnglishDayName(a) == EnglishDayName(b) ==> a == b
  {
  }

  lemma PeriodNameInjective(a: Period, b: Period)
    ensures PeriodName(a) == PeriodName(b) ==> a == b
  {
  }

  datatype TimeRange = TimeRange(start: string, end: string)

  /** TIME_PERIODS: the clock times of each period. */
  function TimePeriod(p: Period): TimeRange
  {
    match p
    case P1 => TimeRange("09:00", "10:30")
    case P2 => TimeRange("10:40", "12:10")
    case P3 => TimeRange("13:00", "14:30")
    case P4 => TimeRange("14:40", "16:10")
  }

  predicate IsDigit(c: char) { '0' <= c <= '9' }

  function DigitValue(c: char): nat
    requires IsDigit(c)
  {
    (c as int - '0' as int) as nat
  }

  /** Minutes after midnight of an "HH:MM" clock string, or None if it is not one. */
  function ClockMinutes(t: string): (r: Option<nat>)
    ensures r.Some? ==> r.value < 24 * 60
  {
    if |t| == 5 && IsDigit(t[0]) && IsDigit(t[1]) && t[2] == ':' && IsDigit(t[3]) && IsDigit(t[4])
       && DigitValue(t[0]) * 10 + DigitValue(t[1]) < 24 && DigitValue(t[3]) * 10 + DigitValue(t[4]) < 60
    then Some((DigitValue(t[0]) * 10 + DigitValue(t[1])) * 60 + DigitValue(t[3]) * 10 + DigitValue(t[4]))
    else None
  }

  /** Every period starts before it ends, and ends before the next one starts. */
  lemma TimePeriodsOrdered()
    ensures forall p: Period :: ClockMinutes(TimePeriod(p).start).Some? && ClockMinutes(TimePeriod(p).end).Some?
    ensures forall p: Period :: ClockMinutes(TimePeriod(p).start).value < ClockMinutes(TimePeriod(p).end).value
    ensures forall i :: 0 <= i < |PERIODS| - 1 ==>
      ClockMinutes(TimePeriod(PERIODS[i]).end).value < ClockMinutes(TimePeriod(PERIODS[i + 1]).start).value
  {
    assert ClockMinutes("09:00") == Some(540) && ClockMinutes("10:30") == Some(630);
    assert ClockMinutes("10:40") == Some(640) && ClockMinutes("12:10") == Some(730);
    assert ClockMinutes("13:00") == Some(780) && ClockMinutes("14:30") == Some(870);
    assert ClockMinutes("14:40") == Some(880) && ClockMinutes("16:10") == Some(970);
  }

  datatype ScheduleRequestType = PeriodsOnly | StartFrom | EndUntil | ExcludePeriods

  function RequestTypeName(t: ScheduleRequestType): string
  {
    match t
    case PeriodsOnly => "periods-only"
    case StartFrom => "start-from"
    case EndUntil => "end-until"
    case ExcludePeriods => "exclude-periods"
  }

  /** The four request kinds have four distinct wire names. */
  lemma RequestTypeNamesDistinct(a: ScheduleRequestType, b: ScheduleRequestType)
    ensures RequestTypeName(a) == RequestTypeName(b) ==> a == b
  {
  }

  /** A schedule-adjustment request for one date (`date` is YYYY-MM-DD). */
  datatype ScheduleRequest = ScheduleRequest(
    id: string, date: string, kind: ScheduleRequestType, periods: seq<Period>, description: string)

  datatype SequentialSubjects = SequentialSubjects(subjects: seq<string>, mustBeConsecutiveDays: bool)

  /**
   * Fields of a teacher's constraint record that are read through untyped access:
   * `ng`, `wish` and `confirmed` as the newer constraint editor stores them. A `…Set`
   * flag stands for a truthy property (`constraints.confirmed?.day`), and `count` for an
   * array's `length` (absent when the value is not an array).
   */
  datatype NgInfo = NgInfo(days: Option<seq<string>>, periods: Option<seq<string>>, dates: Option<seq<string>>, daySet: bool)
  datatype WishInfo = WishInfo(biweekly: Option<int>, daySet: bool)
  datatype ConfirmedInfo = ConfirmedInfo(daySet: bool, count: Option<int>)

  /** The constraint fields the scheduling code consults. A `bool` is the field's truthiness. */
  datatype TeacherConstraints = TeacherConstraints(
    availableDays: Option<seq<string>>,
    unavailableDays: Option<seq<string>>,
    requiredPeriods: Option<seq<string>>,
    preferConsecutiveClasses: bool,
    maxClassesPerDay: Option<int>,
    maxClassesPerWeek: Option<int>,
    sequentialSubjects: Option<SequentialSubjects>,
    weeklyGrouping: bool,
    flexibleScheduling: bool,
    changeUnavailable: bool,
    specialTimeStart: Option<string>,
    specialNotes: Option<string>,
    fixedIsArray: bool,
    confirmed: Option<ConfirmedInfo>,
    ng: Option<NgInfo>,
    wish: Option<WishInfo>)

  /** A JavaScript number read in `if (x)`: present and not zero. */
  predicate Truthy(n: Option<int>)
  {
    n.Some? && n.value != 0
  }

  /** A string read in `if (s)`: present and not empty. */
  predicate TruthyString(s: Option<string>)
  {
    s.Some? && s.value != ""
  }

  datatype Teacher = Teacher(
    id: string, name: string, kind: TeacherType, constraints: Option<TeacherConstraints>, requireConfirmed: bool)

  datatype ComboRole = RoleA | RoleB

  /**
   * A subject. `comboPairId`, `comboRole`, `isJointAllGrades` and `fixedClassroomId` are
   * the extra fields the combo validators read from the subject records.
   */
  datatype Subject = Subject(
    id: string, name: string, teacherIds: seq<string>, department: Department, grade: Grade,
    totalClasses: int, lessonType: LessonType, availableClassroomIds: seq<string>,
    comboSubjectId: Option<string>, comboPairId: Option<string>, comboRole: Option<ComboRole>,
    isJointAllGrades: bool, fixedClassroomId: Option<string>)

  datatype Classroom = Classroom(id: string, name: string)

  datatype TimeSlot = TimeSlot(date: string, day: Day, period: Period)

  /** An entry of the older generator's flat schedule. */
  datatype ScheduleEntry = ScheduleEntry(
    id: string, timeSlot: TimeSlot, subjectId: string, teacherId: string, classroomId: string,
    department: Department, grade: Grade)
}
