/**
 * The main timetable generator. State: the current group's `usedSlots` (group, slot)
 * set, and the teacher and classroom booking maps shared by all groups. Slot keys
 * `${week}-${day}-${period}` are modelled as `Slot` values; where the code takes a key
 * apart again with `split('-')`, the key text is rebuilt and split as the code does.
 */
module AutoScheduleRules {
  import opened Wrappers
  import opened Strings
  import opened Types
  import Sorting

  // ---------------------------------------------------------------------------
  // Round-robin weekly distribution
  // ---------------------------------------------------------------------------

  function Min(a: int, b: int): int { if a <= b then a else b }

  /** The number of sessions the round-robin fill hands out: all of them, or every week at its maximum. */
  function DistributedTotal(total: int, weeks: nat, maxPerWeek: int): nat
  {
    if total <= 0 || weeks == 0 || maxPerWeek <= 0 then 0 else Min(total, weeks * maxPerWeek)
  }

  /** The round-robin fill in closed form: `n` sessions over `weeks` weeks, the first `n % weeks` weeks one more. */
  function Distribution(total: int, weeks: nat, maxPerWeek: int): (r: seq<int>)
    ensures |r| == weeks
  {
    if weeks == 0 then []
    else
      var n := DistributedTotal(total, weeks, maxPerWeek);
      seq(weeks, i requires 0 <= i < weeks => n / weeks + (if i < n % weeks then 1 else 0))
  }

  function Sum(s: seq<int>): int
  {
    if s == [] then 0 else Sum(s[..|s| - 1]) + s[|s| - 1]
  }

  lemma DivModUnique(a: nat, w: nat, q: int, r: int)
    requires w > 0 && 0 <= r < w && a == q * w + r
    ensures a / w == q && a % w == r
  {
    var q', r' := a / w, a % w;
    assert (q - q') * w == r' - r;
    MulSmall(q - q', w);
  }

  /** A multiple of `w` strictly between `-w` and `w` is zero. */
  lemma MulSmall(k: int, w: int)
    requires w > 0 && -w < k * w < w
    ensures k == 0
  {
    if k > 0 {
      MulAtLeast(k, w);
    } else if k < 0 {
      MulAtLeast(-k, w);
    }
  }

  lemma {:induction false} MulAtLeast(k: int, w: int)
    requires k >= 1 && w > 0
    ensures k * w >= w
    decreases k
  {
    if k > 1 {
      MulAtLeast(k - 1, w);
      assert k * w == (k - 1) * w + w;
    }
  }

  /** Every entry of `s` is at least `m` (`distribution.every(week => week >= maxPerWeek)`). */
  predicate AllAtLeast(s: seq<int>, m: int)
  {
    forall i :: 0 <= i < |s| ==> s[i] >= m
  }

  /** calculateWeeklyDistribution: the while loop over a zero-filled array of `totalWeeks` entries. */
  method CalculateWeeklyDistribution(totalSessions: int, totalWeeks: nat, maxPerWeek: int) returns (distribution: seq<int>)
    ensures distribution == Distribution(totalSessions, totalWeeks, maxPerWeek)
  {
    var d := new int[totalWeeks](_ => 0);
    var remaining := totalSessions;
    var currentWeek := 0;
    // `rounds` full rounds are done and the current round has reached `currentWeek`.
    ghost var rounds := 0;
    ghost var trivial := totalWeeks == 0 || maxPerWeek <= 0;
    while remaining > 0
      invariant 0 <= currentWeek && (totalWeeks > 0 ==> currentWeek < totalWeeks)
      invariant 0 <= rounds && (!trivial ==> rounds <= maxPerWeek)
      invariant totalSessions - remaining == rounds * totalWeeks + currentWeek
      invariant forall i :: 0 <= i < totalWeeks ==> d[i] == rounds + (if i < currentWeek then 1 else 0)
      invariant forall i :: 0 <= i < totalWeeks ==> trivial || d[i] <= maxPerWeek
      invariant trivial ==> rounds == 0 && currentWeek == 0 && forall i :: 0 <= i < totalWeeks ==> d[i] == 0
      invariant remaining > 0 && !trivial ==> rounds < maxPerWeek
      invariant totalSessions > 0 ==> remaining >= 0
      invariant totalSessions <= 0 ==> remaining == totalSessions && rounds == 0 && currentWeek == 0
      invariant !trivial && rounds == maxPerWeek ==> currentWeek == 0
      decreases remaining
    {
      if currentWeek < totalWeeks && d[currentWeek] < maxPerWeek {
        d[currentWeek] := d[currentWeek] + 1;
        remaining := remaining - 1;
      }
      if totalWeeks == 0 {
        currentWeek := 0;
      } else if currentWeek + 1 < totalWeeks {
        currentWeek := currentWeek + 1;
      } else {
        currentWeek := 0;
        rounds := rounds + 1;
      }
      var allMaxed := AllAtLeast(d[..], maxPerWeek);
      if allMaxed && remaining > 0 {
        if !trivial {
          assert d[..][totalWeeks - 1] == d[totalWeeks - 1] && d[..][0] == d[0];
        }
        break;
      }
      if !trivial && remaining > 0 {
        assert d[totalWeeks - 1] == rounds;
      }
    }
    distribution := d[..];
    if !trivial && totalSessions > 0 {
      DistributedCount(totalSessions, remaining, totalWeeks, maxPerWeek, rounds, currentWeek);
      RoundRobinClosedForm(distribution, totalSessions, totalWeeks, maxPerWeek, rounds, currentWeek);
    } else {
      assert forall i :: 0 <= i < totalWeeks ==> distribution[i] == 0;
      ZeroDistribution(distribution, totalSessions, totalWeeks, maxPerWeek);
    }
  }

  /** After `rounds` full rounds and `c` more weeks, the weekly counts are the closed form. */
  lemma RoundRobinClosedForm(ds: seq<int>, total: int, w: nat, m: int, rounds: int, c: int)
    requires w > 0 && 0 <= c < w && |ds| == w
    requires DistributedTotal(total, w, m) == rounds * w + c
    requires forall i :: 0 <= i < w ==> ds[i] == rounds + (if i < c then 1 else 0)
    ensures ds == Distribution(total, w, m)
  {
    var n := DistributedTotal(total, w, m);
    DivModUnique(n, w, rounds, c);
  }

  /** Nothing to hand out: every week gets zero sessions. */
  lemma ZeroDistribution(ds: seq<int>, total: int, w: nat, m: int)
    requires |ds| == w && (total <= 0 || w == 0 || m <= 0)
    requires forall i :: 0 <= i < w ==> ds[i] == 0
    ensures ds == Distribution(total, w, m)
  {
  }

  /** At the end of the loop the round-robin has handed out exactly DistributedTotal sessions. */
  lemma DistributedCount(total: int, remaining: int, w: nat, m: int, rounds: int, c: int)
    requires w > 0 && m > 0 && total > 0 && 0 <= rounds <= m && 0 <= c < w
    requires total - remaining == rounds * w + c
    requires remaining <= 0 ==> remaining == 0
    requires remaining > 0 ==> rounds == m && c == 0
    requires rounds == m ==> c == 0
    ensures DistributedTotal(total, w, m) == rounds * w + c
  {
    if rounds < m {
      MulMono(rounds + 1, m, w);
      assert rounds * w + c < (rounds + 1) * w;
    }
  }

  lemma MulMono(a: int, b: int, w: int)
    requires 0 <= a <= b && w >= 0
    ensures a * w <= b * w
  {
  }

  /** The weekly counts add up to the sessions handed out: all of them when the weeks have room. */
  lemma DistributionSum(total: int, weeks: nat, maxPerWeek: int)
    ensures Sum(Distribution(total, weeks, maxPerWeek)) == DistributedTotal(total, weeks, maxPerWeek)
    ensures 0 < total <= weeks * maxPerWeek ==> Sum(Distribution(total, weeks, maxPerWeek)) == total
  {
    if weeks > 0 {
      var n := DistributedTotal(total, weeks, maxPerWeek);
      SumRoundRobin(weeks, n / weeks, n % weeks);
      assert Distribution(total, weeks, maxPerWeek) == seq(weeks, i => n / weeks + (if i < n % weeks then 1 else 0));
    }
  }

  lemma {:induction false} SumRoundRobin(k: nat, q: int, c: int)
    requires 0 <= c
    ensures Sum(seq(k, i => q + (if i < c then 1 else 0))) == q * k + Min(c, k)
    decreases k
  {
    if k > 0 {
      var s := seq(k, i => q + (if i < c then 1 else 0));
      assert s[..k - 1] == seq(k - 1, i => q + (if i < c then 1 else 0));
      SumRoundRobin(k - 1, q, c);
    }
  }

  /** No week gets more than `maxPerWeek` sessions, and none a negative number. */
  lemma DistributionBounded(total: int, weeks: nat, maxPerWeek: int)
    ensures forall i :: 0 <= i < weeks ==>
      0 <= Distribution(total, weeks, maxPerWeek)[i] && (maxPerWeek > 0 ==> Distribution(total, weeks, maxPerWeek)[i] <= maxPerWeek)
  {
    if weeks > 0 && maxPerWeek > 0 {
      var n := DistributedTotal(total, weeks, maxPerWeek);
      var r := Distribution(total, weeks, maxPerWeek);
      QuotientBound(n, weeks, maxPerWeek);
      RoundRobinEntriesBounded(r, n / weeks, n % weeks, maxPerWeek);
    }
  }

  lemma RoundRobinEntriesBounded(r: seq<int>, q: int, c: int, m: int)
    requires 0 <= q && 0 <= c && (q < m || (q == m && c == 0))
    requires forall i :: 0 <= i < |r| ==> r[i] == q + (if i < c then 1 else 0)
    ensures forall i :: 0 <= i < |r| ==> 0 <= r[i] <= m
  {
  }

  lemma QuotientBound(n: nat, w: nat, m: int)
    requires w > 0 && m > 0 && n <= w * m
    ensures n / w < m || (n / w == m && n % w == 0)
  {
    var q, c := n / w, n % w;
    assert n == q * w + c;
    if q > m {
      MulMono(m + 1, q, w);
      assert false;
    }
  }

  /** The fill is balanced: earlier weeks never get fewer sessions, and any two weeks differ by at most one. */
  lemma DistributionBalanced(total: int, weeks: nat, maxPerWeek: int)
    ensures forall i, j :: 0 <= i <= j < weeks ==>
      Distribution(total, weeks, maxPerWeek)[j] <= Distribution(total, weeks, maxPerWeek)[i] <= Distribution(total, weeks, maxPerWeek)[j] + 1
  {
  }

  // ---------------------------------------------------------------------------
  // Slots, slot keys and booking maps
  // ---------------------------------------------------------------------------

  datatype Slot = Slot(week: int, day: Day, period: Period)
  datatype GroupSlot = GroupSlot(group: string, slot: Slot)

  /** One generated timetable entry (the timeSlot fields are flattened). */
  datatype GeneratedEntry = GeneratedEntry(
    id: string, week: int, date: string, day: Day, period: Period,
    subjectId: string, subjectName: string, teacherId: string, teacherName: string,
    classroomId: string, classroomName: string)

  function SlotOf(e: GeneratedEntry): Slot
  {
    Slot(e.week, e.day, e.period)
  }

  /** `${week}-${day}-${period}`, the key the teacher and classroom booking sets hold. */
  function SlotKey(s: Slot): string
  {
    IntToString(s.week) + "-" + DayName(s.day) + "-" + PeriodName(s.period)
  }

  /** `${groupId}-${week}-${day}-${period}`, the key `usedSlots` holds. */
  function UsedKey(g: GroupSlot): string
  {
    g.group + "-" + SlotKey(g.slot)
  }

  /** A booking map (`Map<string, Set<string>>`) from a teacher or classroom id to its booked slots. */
  type Bookings = map<string, set<Slot>>

  /** `map.get(id) || new Set()`. */
  function Slots(m: Bookings, id: string): set<Slot>
  {
    if id in m then m[id] else {}
  }

  /** addToTeacherSchedule / addToClassroomSchedule: create the set on first use, then add the slot. */
  function AddBooking(m: Bookings, id: string, s: Slot): (r: Bookings)
    ensures Slots(r, id) == Slots(m, id) + {s}
    ensures forall x :: x != id ==> Slots(r, x) == Slots(m, x)
  {
    m[id := Slots(m, id) + {s}]
  }

  /** removeFromClassroomSchedule: delete the slot only when the id already has a set. */
  function RemoveBooking(m: Bookings, id: string, s: Slot): (r: Bookings)
    ensures Slots(r, id) == Slots(m, id) - {s}
    ensures forall x :: x != id ==> Slots(r, x) == Slots(m, x)
    ensures id !in m ==> r == m
  {
    if id in m then m[id := m[id] - {s}] else m
  }

  /** Booking a free slot and removing it again leaves every lookup as it was. */
  lemma RollbackRestores(m: Bookings, id: string, s: Slot)
    requires s !in Slots(m, id)
    ensures forall x :: Slots(RemoveBooking(AddBooking(m, id, s), id, s), x) == Slots(m, x)
  {
    var a := AddBooking(m, id, s);
    forall x ensures Slots(RemoveBooking(a, id, s), x) == Slots(m, x) {
      if x == id {
        assert Slots(a, x) == Slots(m, x) + {s};
      }
    }
  }

  // ---------------------------------------------------------------------------
  // Schedule-adjustment requests
  // ---------------------------------------------------------------------------

  /** Request `i` is the first one for `date` (`scheduleRequests.find(req => req.date === date)`). */
  predicate FirstForDate(reqs: seq<ScheduleRequest>, date: string, i: int)
  {
    0 <= i < |reqs| && reqs[i].date == date && forall j :: 0 <= j < i ==> reqs[j].date != date
  }

  function FirstRequestFor(reqs: seq<ScheduleRequest>, date: string): (r: Option<nat>)
    ensures r.Some? ==> FirstForDate(reqs, date, r.value)
    ensures r.None? <==> forall i :: 0 <= i < |reqs| ==> reqs[i].date != date
  {
    Sorting.FindFirst(reqs, (q: ScheduleRequest) => q.date == date)
  }

  /** `allPeriods.indexOf(request.periods[k])`: -1 when there is no such element. */
  function PeriodIndexAt(ps: seq<Period>, k: int): int
  {
    if 0 <= k < |ps| then PeriodIndex(ps[k]) else -1
  }

  /** Whether one request forbids `p`, by the request's kind. */
  function RequestForbids(req: ScheduleRequest, p: Period): bool
  {
    match req.kind
    case PeriodsOnly => p !in req.periods
    case StartFrom => PeriodIndex(p) < PeriodIndexAt(req.periods, 0)
    case EndUntil => PeriodIndex(p) > PeriodIndexAt(req.periods, |req.periods| - 1)
    case ExcludePeriods => p in req.periods
  }

  /** isScheduleRequestViolated for the date the slot falls on: only the first request for that date counts. */
  function IsScheduleRequestViolated(reqs: seq<ScheduleRequest>, date: string, p: Period): bool
  {
    match FirstRequestFor(reqs, date)
    case None => false
    case Some(i) => RequestForbids(reqs[i], p)
  }

  /** No request for the date: nothing is forbidden; otherwise the first request for the date decides. */
  lemma RequestViolatedByFirst(reqs: seq<ScheduleRequest>, date: string, p: Period)
    ensures (forall i :: 0 <= i < |reqs| ==> reqs[i].date != date) ==> !IsScheduleRequestViolated(reqs, date, p)
    ensures forall i :: FirstForDate(reqs, date, i) ==> (IsScheduleRequestViolated(reqs, date, p) <==> RequestForbids(reqs[i], p))
  {
    forall i | FirstForDate(reqs, date, i)
      ensures IsScheduleRequestViolated(reqs, date, p) <==> RequestForbids(reqs[i], p)
    {
      var r := FirstRequestFor(reqs, date);
      assert r.Some?;
      FirstForDateUnique(reqs, date, i, r.value);
    }
  }

  lemma FirstForDateUnique(reqs: seq<ScheduleRequest>, date: string, i: int, j: int)
    requires FirstForDate(reqs, date, i) && FirstForDate(reqs, date, j)
    ensures i == j
  {
  }

  /** `PERIODS[k..]` holds exactly the periods at index `k` or later. */
  lemma {:induction false} PeriodsFrom(k: nat, p: Period)
    requires k <= |PERIODS|
    ensures p in PERIODS[k..] <==> PeriodIndex(p) >= k
    ensures p in PERIODS[..k] <==> PeriodIndex(p) < k
  {
    var i := PeriodIndex(p);
    if i >= k {
      assert PERIODS[k..][i - k] == p;
    } else {
      assert PERIODS[..k][i] == p;
    }
  }

  /**
   * The periods a request leaves open: those listed (periods-only), the ones from its first listed
   * period on (start-from), up to its last listed period (end-until), the ones not listed
   * (exclude-periods). An empty list leaves every period open under start-from and none under end-until.
   */
  lemma RequestOpenPeriods(req: ScheduleRequest, p: Period)
    ensures req.kind == PeriodsOnly ==> (!RequestForbids(req, p) <==> p in req.periods)
    ensures req.kind == ExcludePeriods ==> (!RequestForbids(req, p) <==> p !in req.periods)
    ensures req.kind == StartFrom && req.periods != [] ==>
      (!RequestForbids(req, p) <==> p in PERIODS[PeriodIndex(req.periods[0])..])
    ensures req.kind == EndUntil && req.periods != [] ==>
      (!RequestForbids(req, p) <==> p in PERIODS[..PeriodIndex(req.periods[|req.periods| - 1]) + 1])
    ensures req.kind == StartFrom && req.periods == [] ==> !RequestForbids(req, p)
    ensures req.kind == EndUntil && req.periods == [] ==> RequestForbids(req, p)
  {
    if req.periods != [] {
      PeriodsFrom(PeriodIndex(req.periods[0]), p);
      PeriodsFrom(PeriodIndex(req.periods[|req.periods| - 1]) + 1, p);
    }
  }

  // ---------------------------------------------------------------------------
  // Teacher bookings: counts, consecutive periods, the prerequisite search
  // ---------------------------------------------------------------------------

  /**
   * getTeacherWeeklySlots: the teacher's booked slots whose key starts with `${week}-`, or with
   * `${week}-${day}-` when a day is given; a key starts so exactly when the slot has that week (and day).
   */
  function WeeklySlots(tmap: Bookings, id: string, week: int, day: Option<Day>): nat
  {
    |set x | x in Slots(tmap, id) && x.week == week && (day.None? || x.day == day.value)|
  }

  /** The `k`-th slot of a run of periods starting at index `start` of PERIODS. */
  function RunSlot(week: int, day: Day, start: nat, k: nat): Slot
    requires start + k < |PERIODS|
  {
    Slot(week, day, PERIODS[start + k])
  }

  /** The `count` periods from `start` on are all free in `slots` (the `for` loop of checkConsecutiveSlots). */
  function NoneBookedFrom(slots: set<Slot>, week: int, day: Day, start: nat, i: nat, count: int): bool
    requires start + count <= |PERIODS|
    decreases count - i
  {
    if i >= count then true
    else RunSlot(week, day, start, i) !in slots && NoneBookedFrom(slots, week, day, start, i + 1, count)
  }

  /** checkConsecutiveSlots: `count` periods from `period` on exist and are all free for the teacher. */
  function CheckConsecutiveSlots(slots: set<Slot>, week: int, day: Day, period: Period, count: int): bool
  {
    var start := PeriodIndex(period);
    if start + count > |PERIODS| then false
    else NoneBookedFrom(slots, week, day, start, 0, count)
  }

  /** The periods `PERIODS[start .. start + count)` as slots of one day. */
  function RunSlots(week: int, day: Day, start: nat, count: nat): set<Slot>
    requires start + count <= |PERIODS|
  {
    set k: nat | k < count :: RunSlot(week, day, start, k)
  }

  lemma {:induction false} NoneBookedFromCorrect(slots: set<Slot>, week: int, day: Day, start: nat, i: nat, count: int)
    requires start + count <= |PERIODS|
    ensures NoneBookedFrom(slots, week, day, start, i, count) <==>
      forall k: nat :: i <= k < count ==> RunSlot(week, day, start, k) !in slots
    decreases count - i
  {
    if i < count {
      NoneBookedFromCorrect(slots, week, day, start, i + 1, count);
    }
  }

  /**
   * checkConsecutiveSlots is false when the run would pass 4限; otherwise it holds exactly when
   * none of the run's slots is booked for the teacher.
   */
  lemma ConsecutiveSlotsCorrect(slots: set<Slot>, week: int, day: Day, period: Period, count: nat)
    ensures PeriodIndex(period) + count > |PERIODS| ==> !CheckConsecutiveSlots(slots, week, day, period, count)
    ensures PeriodIndex(period) + count <= |PERIODS| ==>
      (CheckConsecutiveSlots(slots, week, day, period, count) <==>
        RunSlots(week, day, PeriodIndex(period), count) !! slots)
  {
    var start := PeriodIndex(period);
    if start + count <= |PERIODS| {
      NoneBookedFromCorrect(slots, week, day, start, 0, count);
    }
  }

  /** The subject name checkPrerequisiteCompleted looks for in the slot keys. */
  const PREREQUISITE_SUBJECT: string := "ドローン座学"

  /** checkPrerequisiteCompleted: some earlier week's `usedSlots` key contains `${week}-` and the subject name. */
  function CheckPrerequisiteCompleted(used: set<GroupSlot>, currentWeek: int): bool
  {
    exists week, k :: 1 <= week < currentWeek && k in used &&
      Contains(UsedKey(k), IntToString(week) + "-") && Contains(UsedKey(k), PREREQUISITE_SUBJECT)
  }

  /** A slot key is made of digits, '-', a day label and a period label: it never holds 'ド'. */
  lemma SlotKeyHasNoDo(s: Slot)
    ensures 'ド' !in SlotKey(s)
  {
    var w := IntToString(s.week);
    assert forall k :: 0 <= k < |w| ==> w[k] != 'ド';
    assert 'ド' !in DayName(s.day);
    assert 'ド' !in PeriodName(s.period);
  }

  /**
   * The prerequisite is never found: `usedSlots` keys hold only group ids, weeks, days and periods,
   * so unless a group id contains 'ド' the subject name cannot occur in them.
   */
  lemma PrerequisiteNeverCompleted(used: set<GroupSlot>, currentWeek: int)
    requires forall k :: k in used ==> 'ド' !in k.group
    ensures !CheckPrerequisiteCompleted(used, currentWeek)
  {
    forall k | k in used
      ensures !Contains(UsedKey(k), PREREQUISITE_SUBJECT)
    {
      SlotKeyHasNoDo(k.slot);
      assert 'ド' !in UsedKey(k);
      ContainsChar(UsedKey(k), PREREQUISITE_SUBJECT, 0);
    }
  }

  // ---------------------------------------------------------------------------
  // Teacher constraints
  // ---------------------------------------------------------------------------

  /** The subjects 森田's weekly-grouping rule applies to. */
  const MORITA_SUBJECTS: seq<string> := ["卒業制作", "進級制作", "Web基礎"]

  /** checkSpecialConstraints, the per-teacher rules keyed on the teacher's name. */
  function CheckSpecialConstraints(t: Teacher, c: TeacherConstraints, subject: Subject, s: Slot, tmap: Bookings, used: set<GroupSlot>): bool
  {
    if Contains(t.name, "フィオーナ") && c.requiredPeriods.Some? && PeriodName(s.period) !in c.requiredPeriods.value then false
    else if Contains(t.name, "森田") && c.weeklyGrouping && subject.name in MORITA_SUBJECTS
      && ((s.day != Wed && s.day != Fri) || WeeklySlots(tmap, t.id, s.week, None) >= 3) then false
    else if Contains(t.name, "木下") && c.preferConsecutiveClasses then
      if s.day != Mon && s.day != Fri then false
      else if s.day == Mon && c.flexibleScheduling && WeeklySlots(tmap, t.id, s.week, Some(Fri)) < 4 - 1 then false
      else CheckConsecutiveSlots(Slots(tmap, t.id), s.week, s.day, s.period, 2)
    else if Contains(t.name, "宮嵜") then s.day != Wed
    else if Contains(t.name, "矢板") && c.sequentialSubjects.Some? && subject.name == "ドローンプログラミング"
      && !CheckPrerequisiteCompleted(used, s.week) then false
    else true
  }

  /** checkTeacherConstraints: the day lists, the weekly and daily maxima, then the special rules. */
  function CheckTeacherConstraints(t: Teacher, subject: Subject, s: Slot, tmap: Bookings, used: set<GroupSlot>): bool
  {
    match t.constraints
    case None => true
    case Some(c) =>
      if c.unavailableDays.Some? && DayName(s.day) in c.unavailableDays.value then false
      else if c.availableDays.Some? && EnglishDayName(s.day) !in c.availableDays.value then false
      else if Truthy(c.maxClassesPerWeek) && WeeklySlots(tmap, t.id, s.week, None) >= c.maxClassesPerWeek.value then false
      else if Truthy(c.maxClassesPerDay) && WeeklySlots(tmap, t.id, s.week, Some(s.day)) >= c.maxClassesPerDay.value then false
      else CheckSpecialConstraints(t, c, subject, s, tmap, used)
  }

  /**
   * What an accepted slot satisfies: the day is not unavailable and is available (by its English
   * name) when a list is given, every truthy maximum is not yet reached, 木下 only teaches on
   * 月 or 金 with this and the next period free, 宮嵜 never on 水, and 森田's grouped subjects only
   * on 水 or 金 while fewer than three slots of the week are booked.
   */
  lemma AcceptedSlotRespectsConstraints(t: Teacher, subject: Subject, s: Slot, tmap: Bookings, used: set<GroupSlot>)
    requires t.constraints.Some? && CheckTeacherConstraints(t, subject, s, tmap, used)
    ensures t.constraints.value.unavailableDays.Some? ==> DayName(s.day) !in t.constraints.value.unavailableDays.value
    ensures t.constraints.value.availableDays.Some? ==> EnglishDayName(s.day) in t.constraints.value.availableDays.value
    ensures Truthy(t.constraints.value.maxClassesPerWeek) ==>
      WeeklySlots(tmap, t.id, s.week, None) < t.constraints.value.maxClassesPerWeek.value
    ensures Truthy(t.constraints.value.maxClassesPerDay) ==>
      WeeklySlots(tmap, t.id, s.week, Some(s.day)) < t.constraints.value.maxClassesPerDay.value
    ensures Contains(t.name, "木下") && t.constraints.value.preferConsecutiveClasses ==>
      (s.day == Mon || s.day == Fri) && PeriodIndex(s.period) < 3
      && RunSlots(s.week, s.day, PeriodIndex(s.period), 2) !! Slots(tmap, t.id)
    ensures Contains(t.name, "宮嵜") ==> s.day != Wed
    ensures Contains(t.name, "森田") && t.constraints.value.weeklyGrouping && subject.name in MORITA_SUBJECTS ==>
      (s.day == Wed || s.day == Fri) && WeeklySlots(tmap, t.id, s.week, None) < 3
  {
    ConsecutiveSlotsCorrect(Slots(tmap, t.id), s.week, s.day, s.period, 2);
  }

  // ---------------------------------------------------------------------------
  // Teacher and classroom search
  // ---------------------------------------------------------------------------

  /** The subject's teachers in teacher-list order (`teachers.filter(t => subject.teacherIds.includes(t.id))`). */
  function TeacherCandidates(teachers: seq<Teacher>, subject: Subject): seq<Teacher>
  {
    Sorting.Filter(teachers, (t: Teacher) => t.id in subject.teacherIds)
  }

  /** A teacher getAvailableTeacher accepts: constraints pass and the slot is free in the teacher's bookings. */
  predicate TeacherAcceptable(t: Teacher, subject: Subject, s: Slot, tmap: Bookings, used: set<GroupSlot>)
  {
    CheckTeacherConstraints(t, subject, s, tmap, used) && s !in Slots(tmap, t.id)
  }

  /** getAvailableTeacher: the first of the subject's teachers, in teacher-list order, that is acceptable. */
  function FirstAvailableTeacher(teachers: seq<Teacher>, subject: Subject, s: Slot, tmap: Bookings, used: set<GroupSlot>): Option<Teacher>
  {
    var cands := TeacherCandidates(teachers, subject);
    match Sorting.FindFirst(cands, (t: Teacher) => TeacherAcceptable(t, subject, s, tmap, used))
    case None => None
    case Some(i) => Some(cands[i])
  }

  /**
   * The teacher found is one of the subject's teachers, accepted and free at the slot, and no earlier
   * teacher of the list is; none is found exactly when no teacher of the subject is acceptable.
   */
  lemma FirstAvailableTeacherCorrect(teachers: seq<Teacher>, subject: Subject, s: Slot, tmap: Bookings, used: set<GroupSlot>)
    ensures FirstAvailableTeacher(teachers, subject, s, tmap, used).None? <==>
      forall i :: 0 <= i < |teachers| && teachers[i].id in subject.teacherIds ==> !TeacherAcceptable(teachers[i], subject, s, tmap, used)
    ensures FirstAvailableTeacher(teachers, subject, s, tmap, used).Some? ==>
      exists i :: 0 <= i < |teachers| && teachers[i] == FirstAvailableTeacher(teachers, subject, s, tmap, used).value
        && teachers[i].id in subject.teacherIds && TeacherAcceptable(teachers[i], subject, s, tmap, used)
        && forall j :: 0 <= j < i && teachers[j].id in subject.teacherIds ==> !TeacherAcceptable(teachers[j], subject, s, tmap, used)
  {
    FirstAvailableTeacherNone(teachers, subject, s, tmap, used);
    FirstAvailableTeacherSome(teachers, subject, s, tmap, used);
  }

  lemma FirstAvailableTeacherNone(teachers: seq<Teacher>, subject: Subject, s: Slot, tmap: Bookings, used: set<GroupSlot>)
    ensures FirstAvailableTeacher(teachers, subject, s, tmap, used).None? <==>
      forall i :: 0 <= i < |teachers| && teachers[i].id in subject.teacherIds ==> !TeacherAcceptable(teachers[i], subject, s, tmap, used)
  {
    Sorting.FindFirstFilterFirst(teachers, (t: Teacher) => t.id in subject.teacherIds, (t: Teacher) => TeacherAcceptable(t, subject, s, tmap, used));
  }

  lemma FirstAvailableTeacherSome(teachers: seq<Teacher>, subject: Subject, s: Slot, tmap: Bookings, used: set<GroupSlot>)
    ensures FirstAvailableTeacher(teachers, subject, s, tmap, used).Some? ==>
      exists i :: 0 <= i < |teachers| && teachers[i] == FirstAvailableTeacher(teachers, subject, s, tmap, used).value
        && teachers[i].id in subject.teacherIds && TeacherAcceptable(teachers[i], subject, s, tmap, used)
        && forall j :: 0 <= j < i && teachers[j].id in subject.teacherIds ==> !TeacherAcceptable(teachers[j], subject, s, tmap, used)
  {
    Sorting.FindFirstFilterFirst(teachers, (t: Teacher) => t.id in subject.teacherIds, (t: Teacher) => TeacherAcceptable(t, subject, s, tmap, used));
  }

  /** A classroom the subject may use: listed in its availableClassroomIds, or any when that list is empty. */
  predicate ClassroomAllowed(c: Classroom, subject: Subject)
  {
    c.id in subject.availableClassroomIds || |subject.availableClassroomIds| == 0
  }

  predicate ClassroomFree(c: Classroom, s: Slot, cmap: Bookings)
  {
    s !in Slots(cmap, c.id)
  }

  function ClassroomCandidates(classrooms: seq<Classroom>, subject: Subject): seq<Classroom>
  {
    Sorting.Filter(classrooms, (c: Classroom) => ClassroomAllowed(c, subject))
  }

  /** getAvailableClassroom: the first allowed classroom, in classroom-list order, that is free at the slot. */
  function FirstFreeClassroom(classrooms: seq<Classroom>, subject: Subject, s: Slot, cmap: Bookings): Option<Classroom>
  {
    var cands := ClassroomCandidates(classrooms, subject);
    match Sorting.FindFirst(cands, (c: Classroom) => ClassroomFree(c, s, cmap))
    case None => None
    case Some(i) => Some(cands[i])
  }

  /**
   * The classroom found is allowed and free, and no earlier classroom of the list is both; none is
   * found exactly when every allowed classroom is booked at the slot.
   */
  lemma FirstFreeClassroomCorrect(classrooms: seq<Classroom>, subject: Subject, s: Slot, cmap: Bookings)
    ensures FirstFreeClassroom(classrooms, subject, s, cmap).None? <==>
      forall i :: 0 <= i < |classrooms| && ClassroomAllowed(classrooms[i], subject) ==> !ClassroomFree(classrooms[i], s, cmap)
    ensures FirstFreeClassroom(classrooms, subject, s, cmap).Some? ==>
      exists i :: 0 <= i < |classrooms| && classrooms[i] == FirstFreeClassroom(classrooms, subject, s, cmap).value
        && ClassroomAllowed(classrooms[i], subject) && ClassroomFree(classrooms[i], s, cmap)
        && forall j :: 0 <= j < i && ClassroomAllowed(classrooms[j], subject) ==> !ClassroomFree(classrooms[j], s, cmap)
  {
    FirstFreeClassroomNone(classrooms, subject, s, cmap);
    FirstFreeClassroomSome(classrooms, subject, s, cmap);
  }

  lemma FirstFreeClassroomNone(classrooms: seq<Classroom>, subject: Subject, s: Slot, cmap: Bookings)
    ensures FirstFreeClassroom(classrooms, subject, s, cmap).None? <==>
      forall i :: 0 <= i < |classrooms| && ClassroomAllowed(classrooms[i], subject) ==> !ClassroomFree(classrooms[i], s, cmap)
  {
    Sorting.FindFirstFilterFirst(classrooms, (c: Classroom) => ClassroomAllowed(c, subject), (c: Classroom) => ClassroomFree(c, s, cmap));
  }

  lemma FirstFreeClassroomSome(classrooms: seq<Classroom>, subject: Subject, s: Slot, cmap: Bookings)
    ensures FirstFreeClassroom(classrooms, subject, s, cmap).Some? ==>
      exists i :: 0 <= i < |classrooms| && classrooms[i] == FirstFreeClassroom(classrooms, subject, s, cmap).value
        && ClassroomAllowed(classrooms[i], subject) && ClassroomFree(classrooms[i], s, cmap)
        && forall j :: 0 <= j < i && ClassroomAllowed(classrooms[j], subject) ==> !ClassroomFree(classrooms[j], s, cmap)
  {
    Sorting.FindFirstFilterFirst(classrooms, (c: Classroom) => ClassroomAllowed(c, subject), (c: Classroom) => ClassroomFree(c, s, cmap));
  }

  // ---------------------------------------------------------------------------
  // Group lookups on `usedSlots`
  // ---------------------------------------------------------------------------

  /** The parts of a key that getGroupDayPeriods compares: group, week and day. */
  predicate DayPartsMatch(parts: seq<string>, groupId: string, week: int, day: Day)
  {
    |parts| > 3 && parts[0] == groupId && parts[1] == IntToString(week) && parts[2] == DayName(day)
  }

  /** The parts of a key that getGroupWeeklyLoad compares: group and week. */
  predicate WeekPartsMatch(parts: seq<string>, groupId: string, week: int)
  {
    |parts| > 1 && parts[0] == groupId && parts[1] == IntToString(week)
  }

  /** getGroupDayPeriods: the fourth `-`-separated part of each `usedSlots` key whose first three match. */
  function GroupDayPeriods(used: set<GroupSlot>, groupId: string, week: int, day: Day): set<string>
  {
    set k | k in used && DayPartsMatch(Split(UsedKey(k), '-'), groupId, week, day) :: Split(UsedKey(k), '-')[3]
  }

  /** getGroupWeeklyLoad: the number of `usedSlots` keys whose first two `-`-separated parts match. */
  function GroupWeeklyLoad(used: set<GroupSlot>, groupId: string, week: int): nat
  {
    |set k | k in used && WeekPartsMatch(Split(UsedKey(k), '-'), groupId, week)|
  }

  /** getGroupDaySlots: the number of `usedSlots` keys that start with `${groupId}-${week}-${day}-`. */
  function GroupDaySlots(used: set<GroupSlot>, groupId: string, week: int, day: Day): nat
  {
    |set k | k in used && groupId + "-" + IntToString(week) + "-" + DayName(day) + "-" <= UsedKey(k)|
  }

  /**
   * A group id containing '-' (every generated group: 'it-1', 'design-2', ...) is never the first
   * `-`-separated part of a key, so the split-based lookups find no period and no weekly load.
   */
  lemma SplitLookupsNeverMatch(used: set<GroupSlot>, groupId: string, week: int, day: Day)
    requires '-' in groupId
    ensures GroupDayPeriods(used, groupId, week, day) == {}
    ensures GroupWeeklyLoad(used, groupId, week) == 0
  {
    forall k | k in used ensures Split(UsedKey(k), '-')[0] != groupId {
    }
    assert (set k | k in used && WeekPartsMatch(Split(UsedKey(k), '-'), groupId, week)) == {};
  }

  /** countFourthPeriodDays: the weekdays whose group periods include 4限. */
  function CountFourthPeriodDays(used: set<GroupSlot>, groupId: string, week: int): nat
  {
    |set d | d in DAYS_OF_WEEK && PeriodName(P4) in GroupDayPeriods(used, groupId, week, d)|
  }

  /** shouldPrioritizeEarlyFinish; `draw` is the outcome of `Math.random() < 0.4`, consulted last. */
  function ShouldPrioritizeEarlyFinish(used: set<GroupSlot>, groupId: string, week: int, draw: bool): bool
  {
    GroupWeeklyLoad(used, groupId, week) >= 10 && CountFourthPeriodDays(used, groupId, week) >= 2 && draw
  }

  /** getBalancedPeriodOrder. */
  function BalancedPeriodOrder(load: int): seq<Period>
  {
    if load < 8 then PERIODS else if load < 15 then [P2, P1, P3, P4] else PERIODS
  }

  function Abs(x: int): int { if x < 0 then -x else x }

  /** The score a period earns from one period already in use, by their distance. */
  function Adjacency(index: int, existing: int): int
  {
    var distance := Abs(index - existing);
    if distance == 1 then 100 else if distance == 2 then 50 else if 10 - distance > 0 then 10 - distance else 0
  }

  /** The adjacency scores from the used periods among `PERIODS[j..]`. */
  function AdjacencySum(index: int, existing: set<string>, j: nat): (r: int)
    requires j <= |PERIODS|
    ensures r >= 0
    decreases |PERIODS| - j
  {
    if j == |PERIODS| then 0
    else (if PeriodName(PERIODS[j]) in existing then Adjacency(index, j) else 0) + AdjacencySum(index, existing, j + 1)
  }

  /** The priority score calculatePeriodPriority gives `p` on a day that already has periods in use. */
  function PeriodScore(p: Period, existing: set<string>, early: bool, load: int): int
  {
    if PeriodName(p) in existing then -1000
    else
      (if early && PeriodIndex(p) >= 2 then -200 else 0)
      + AdjacencySum(PeriodIndex(p), existing, 0)
      + (if load > 12 && PeriodIndex(p) >= 3 then -150 else 0)
  }

  /** A period not yet used that day scores above a used one. */
  lemma FreePeriodScore(p: Period, existing: set<string>, early: bool, load: int)
    requires PeriodName(p) !in existing
    ensures PeriodScore(p, existing, early, load) > -1000
  {
    assert AdjacencySum(PeriodIndex(p), existing, 0) >= 0;
  }

  /** calculatePeriodPriority over the four periods; `draw` stands for the random draw. */
  function CalculatePeriodPriority(used: set<GroupSlot>, groupId: string, week: int, day: Day, draw: bool): seq<Period>
  {
    var existing := GroupDayPeriods(used, groupId, week, day);
    var load := GroupWeeklyLoad(used, groupId, week);
    var early := ShouldPrioritizeEarlyFinish(used, groupId, week, draw);
    if existing == {} then
      (if early then PERIODS else BalancedPeriodOrder(load))
    else
      Sorting.SortBy(PERIODS, (a: Period, b: Period) => PeriodScore(a, existing, early, load) >= PeriodScore(b, existing, early, load))
  }

  /** The priority order lists each of the four periods exactly once. */
  lemma PeriodPriorityIsPermutation(used: set<GroupSlot>, groupId: string, week: int, day: Day, draw: bool)
    ensures multiset(CalculatePeriodPriority(used, groupId, week, day, draw)) == multiset(PERIODS)
  {
    var existing := GroupDayPeriods(used, groupId, week, day);
    var early := ShouldPrioritizeEarlyFinish(used, groupId, week, draw);
    if existing == {} && !early {
      BalancedPeriodOrderIsPermutation(GroupWeeklyLoad(used, groupId, week));
    }
  }

  lemma BalancedPeriodOrderIsPermutation(load: int)
    ensures multiset(BalancedPeriodOrder(load)) == multiset(PERIODS)
  {
    assert [P2, P1, P3, P4] == [P2] + [P1] + [P3, P4] && PERIODS == [P1] + [P2] + [P3, P4];
  }

  /** Periods the group already uses that day come after every period it does not. */
  lemma PeriodPriorityUsedLast(used: set<GroupSlot>, groupId: string, week: int, day: Day, draw: bool)
    ensures forall i, j ::
      (0 <= i < j < |CalculatePeriodPriority(used, groupId, week, day, draw)|
       && PeriodName(CalculatePeriodPriority(used, groupId, week, day, draw)[i]) in GroupDayPeriods(used, groupId, week, day))
      ==> PeriodName(CalculatePeriodPriority(used, groupId, week, day, draw)[j]) in GroupDayPeriods(used, groupId, week, day)
  {
    var existing := GroupDayPeriods(used, groupId, week, day);
    var early := ShouldPrioritizeEarlyFinish(used, groupId, week, draw);
    var load := GroupWeeklyLoad(used, groupId, week);
    if existing != {} {
      var le := (a: Period, b: Period) => PeriodScore(a, existing, early, load) >= PeriodScore(b, existing, early, load);
      assert Sorting.TotalPreorder(le);
      Sorting.SortBySorted(PERIODS, le);
      var r := Sorting.SortBy(PERIODS, le);
      forall i, j | 0 <= i < j < |r| && PeriodName(r[i]) in existing ensures PeriodName(r[j]) in existing {
        assert le(r[i], r[j]);
        if PeriodName(r[j]) !in existing {
          FreePeriodScore(r[j], existing, early, load);
        }
      }
    }
  }

  /** For a group id containing '-' the period order is always 1限..4限, whatever the random draw. */
  lemma PeriodPriorityFixedForGeneratedGroups(used: set<GroupSlot>, groupId: string, week: int, day: Day, draw: bool)
    requires '-' in groupId
    ensures CalculatePeriodPriority(used, groupId, week, day, draw) == PERIODS
  {
    SplitLookupsNeverMatch(used, groupId, week, day);
  }

  /** The score getConsecutiveStartPriority gives start index `a`. */
  function StartScore(a: int, maxStart: int, fourthPeriodDays: int, load: int): int
  {
    (maxStart - a) * 10 + (if fourthPeriodDays >= 2 && a + 1 <= 2 then 50 else 0) + (if load > 12 && a == 0 then 30 else 0)
  }

  /** `Array.from({ length: maxStart }, (_, i) => i)`; a negative length gives an empty array. */
  function StartIndexes(maxStart: int): (r: seq<int>)
    ensures |r| == (if maxStart > 0 then maxStart else 0)
    ensures forall i :: 0 <= i < |r| ==> r[i] == i
  {
    seq(if maxStart > 0 then maxStart else 0, i => i)
  }

  /** getConsecutiveStartPriority: the start indexes by descending score. */
  function ConsecutiveStartPriority(load: int, fourthPeriodDays: int, maxStart: int): seq<int>
  {
    Sorting.SortBy(StartIndexes(maxStart), (a: int, b: int) => StartScore(a, maxStart, fourthPeriodDays, load) >= StartScore(b, maxStart, fourthPeriodDays, load))
  }

  /** Earlier starts always score higher, so the priority order is just 0, 1, ..., maxStart - 1. */
  lemma ConsecutiveStartPriorityAscending(load: int, fourthPeriodDays: int, maxStart: int)
    ensures ConsecutiveStartPriority(load, fourthPeriodDays, maxStart) == StartIndexes(maxStart)
  {
    var le := (a: int, b: int) => StartScore(a, maxStart, fourthPeriodDays, load) >= StartScore(b, maxStart, fourthPeriodDays, load);
    var s := StartIndexes(maxStart);
    forall i, j | 0 <= i < j < |s| ensures le(s[i], s[j]) {
      assert (maxStart - i) * 10 >= (maxStart - j) * 10 + 10;
    }
    Sorting.SortBySortedIdentity(s, le);
  }

  /** The record calculateDayPriority sorts. */
  datatype DayScore = DayScore(day: Day, score: nat, hasClasses: bool)

  function DayScoreOf(used: set<GroupSlot>, groupId: string, week: int, day: Day): DayScore
  {
    var count := GroupDaySlots(used, groupId, week, day);
    DayScore(day, count, count > 0)
  }

  /** The comparator of calculateDayPriority: days with classes first, then more classes first. */
  function DayCompare(a: DayScore, b: DayScore): int
  {
    if a.hasClasses && !b.hasClasses then -1
    else if !a.hasClasses && b.hasClasses then 1
    else b.score - a.score
  }

  /** calculateDayPriority: the available days sorted (stably) by the comparator on their scores. */
  function CalculateDayPriority(used: set<GroupSlot>, groupId: string, week: int, days: seq<Day>): seq<Day>
  {
    Sorting.SortBy(days, (a: Day, b: Day) => DayCompare(DayScoreOf(used, groupId, week, a), DayScoreOf(used, groupId, week, b)) <= 0)
  }

  /** On consistent records the comparator orders by the number of the group's classes alone. */
  lemma DayCompareIsByCount(used: set<GroupSlot>, groupId: string, week: int, a: Day, b: Day)
    ensures DayCompare(DayScoreOf(used, groupId, week, a), DayScoreOf(used, groupId, week, b)) <= 0 <==>
      GroupDaySlots(used, groupId, week, a) >= GroupDaySlots(used, groupId, week, b)
  {
  }

  /** The day order is a rearrangement of the available days, busiest day first. */
  lemma DayPriorityCorrect(used: set<GroupSlot>, groupId: string, week: int, days: seq<Day>)
    ensures multiset(CalculateDayPriority(used, groupId, week, days)) == multiset(days)
    ensures forall i, j :: 0 <= i < j < |CalculateDayPriority(used, groupId, week, days)| ==>
      GroupDaySlots(used, groupId, week, CalculateDayPriority(used, groupId, week, days)[i]) >=
      GroupDaySlots(used, groupId, week, CalculateDayPriority(used, groupId, week, days)[j])
  {
    var le := (a: Day, b: Day) => DayCompare(DayScoreOf(used, groupId, week, a), DayScoreOf(used, groupId, week, b)) <= 0;
    var key := (d: Day) => GroupDaySlots(used, groupId, week, d) as int;
    forall a: Day, b: Day ensures le(a, b) == (key(a) >= key(b)) {
      DayCompareIsByCount(used, groupId, week, a, b);
    }
    assert Sorting.TotalPreorder(le);
    Sorting.SortBySorted(days, le);
    var r := Sorting.SortBy(days, le);
    forall i, j | 0 <= i < j < |r| ensures key(r[i]) >= key(r[j]) {
      assert le(r[i], r[j]);
    }
  }

  // ---------------------------------------------------------------------------
  // Groups and the subjects relevant to them
  // ---------------------------------------------------------------------------

  datatype Group = Group(id: string, name: string, department: Department)

  /** The four department-year groups generateSchedule fills, in order. */
  const GROUPS: seq<Group> := [
    Group("it-1", "ITソリューション 1年", ITSolution),
    Group("it-2", "ITソリューション 2年", ITSolution),
    Group("design-1", "地域観光デザイン 1年", TourismDesign),
    Group("design-2", "地域観光デザイン 2年", TourismDesign)
  ]

  /** `group.name.includes('1年') ? '1年' : '2年'`. */
  function TargetGrade(groupName: string): Grade
  {
    if Contains(groupName, "1年") then FirstYear else SecondYear
  }

  /** The subject filter of generateGroupSchedule. */
  predicate Relevant(subject: Subject, group: Group)
  {
    (subject.department == group.department || subject.department == CommonDepartment)
    && (subject.grade == TargetGrade(group.name) || subject.grade == AllGrades)
  }

  function RelevantSubjects(subjects: seq<Subject>, group: Group): seq<Subject>
  {
    Sorting.Filter(subjects, (s: Subject) => Relevant(s, group))
  }

  /** A subject is scheduled for a group exactly when it is in the list and matches department and grade. */
  lemma RelevantSubjectsCorrect(subjects: seq<Subject>, group: Group)
    ensures forall x :: x in RelevantSubjects(subjects, group) <==> x in subjects && Relevant(x, group)
  {
  }

  /** Every generated group id contains '-' and no 'ド'; the first and third groups are first-year groups. */
  lemma GroupsFacts()
    ensures forall g :: g in GROUPS ==> '-' in g.id && 'ド' !in g.id
    ensures TargetGrade(GROUPS[0].name) == FirstYear && TargetGrade(GROUPS[2].name) == FirstYear
    ensures TargetGrade(GROUPS[1].name) == SecondYear && TargetGrade(GROUPS[3].name) == SecondYear
  {
    assert OccursAt(GROUPS[0].name, "1年", 10);
    assert OccursAt(GROUPS[2].name, "1年", 9);
    assert '1' !in GROUPS[1].name && '1' !in GROUPS[3].name;
    ContainsChar(GROUPS[1].name, "1年", 0);
    ContainsChar(GROUPS[3].name, "1年", 0);
  }

  /** Subjects taught by a teacher named exactly 木下 (the kinoshitaSubjects list), by name. */
  function KinoshitaSubjects(subjects: seq<Subject>, teachers: seq<Teacher>): seq<string>
  {
    var f := Sorting.Filter(subjects, (s: Subject) => exists t :: t in teachers && t.id in s.teacherIds && t.name == "木下");
    seq(|f|, i requires 0 <= i < |f| => f[i].name)
  }
}
