/**
 * The timetable generator object. It keeps, per group, the `usedSlots` set of (group, slot) keys
 * and, shared by all groups of one run, the teacher and the classroom booking maps. Every method
 * that places classes keeps the invariant `Valid()`: each entry placed so far is booked for its
 * teacher and its classroom, and no teacher and no classroom holds two entries at one slot.
 * The ghost log `placed` holds every entry placed since the booking maps were last reset.
 */
module AutoSchedule {
  import opened Wrappers
  import opened Strings
  import opened Types
  import opened AutoScheduleRules
  import Sorting

  /** No teacher and no classroom appears in two entries at the same slot. */
  predicate NoDoubleBooking(es: seq<GeneratedEntry>)
  {
    forall i, j :: 0 <= i < j < |es| && SlotOf(es[i]) == SlotOf(es[j]) ==>
      es[i].teacherId != es[j].teacherId && es[i].classroomId != es[j].classroomId
  }

  /** Every entry's slot is booked for its teacher and for its classroom. */
  predicate Booked(es: seq<GeneratedEntry>, tmap: Bookings, cmap: Bookings)
  {
    forall i :: 0 <= i < |es| ==> SlotOf(es[i]) in Slots(tmap, es[i].teacherId) && SlotOf(es[i]) in Slots(cmap, es[i].classroomId)
  }

  /** Every entry's slot is marked used for the group. */
  predicate GroupMarked(es: seq<GeneratedEntry>, groupId: string, used: set<GroupSlot>)
  {
    forall i :: 0 <= i < |es| ==> GroupSlot(groupId, SlotOf(es[i])) in used
  }

  /** The entry `${group.id}-${subject.id}-${week}-${day}-${period}` for a slot, teacher and classroom. */
  function MakeEntry(groupId: string, subject: Subject, subjectName: string, s: Slot, date: string, t: Teacher, c: Classroom): GeneratedEntry
  {
    GeneratedEntry(
      groupId + "-" + subject.id + "-" + IntToString(s.week) + "-" + DayName(s.day) + "-" + PeriodName(s.period),
      s.week, date, s.day, s.period, subject.id, subjectName, t.id, t.name, c.id, c.name)
  }

  /**
   * Placing an entry whose teacher and classroom are both free at its slot, and booking both,
   * keeps the log booked and free of double bookings.
   */
  lemma AppendFreeEntry(es: seq<GeneratedEntry>, e: GeneratedEntry, tmap: Bookings, cmap: Bookings)
    requires Booked(es, tmap, cmap) && NoDoubleBooking(es)
    requires SlotOf(e) !in Slots(tmap, e.teacherId) && SlotOf(e) !in Slots(cmap, e.classroomId)
    ensures NoDoubleBooking(es + [e])
    ensures Booked(es + [e], AddBooking(tmap, e.teacherId, SlotOf(e)), AddBooking(cmap, e.classroomId, SlotOf(e)))
  {
    var r := es + [e];
    forall i, j | 0 <= i < j < |r| && SlotOf(r[i]) == SlotOf(r[j])
      ensures r[i].teacherId != r[j].teacherId && r[i].classroomId != r[j].classroomId
    {
      if j == |es| {
        assert SlotOf(r[i]) in Slots(tmap, r[i].teacherId) && SlotOf(r[i]) in Slots(cmap, r[i].classroomId);
      }
    }
  }

  /** Booking more slots never unbooks an entry. */
  lemma BookedMonotone(es: seq<GeneratedEntry>, tmap: Bookings, cmap: Bookings, tmap': Bookings, cmap': Bookings)
    requires Booked(es, tmap, cmap)
    requires forall x :: Slots(tmap, x) <= Slots(tmap', x)
    requires forall x :: Slots(cmap, x) <= Slots(cmap', x)
    ensures Booked(es, tmap', cmap')
  {
  }

  /** The entries' slots are pairwise different. */
  predicate SlotsDistinct(es: seq<GeneratedEntry>)
  {
    forall i, j :: 0 <= i < j < |es| ==> SlotOf(es[i]) != SlotOf(es[j])
  }

  /** Each entry's teacher and classroom are free at its slot. */
  predicate AllFree(es: seq<GeneratedEntry>, tmap: Bookings, cmap: Bookings)
  {
    forall i :: 0 <= i < |es| ==> SlotOf(es[i]) !in Slots(tmap, es[i].teacherId) && SlotOf(es[i]) !in Slots(cmap, es[i].classroomId)
  }

  /** Two entries of one group's timetable share a slot only as the two halves of a combo pair, placed together. */
  predicate GroupPairs(es: seq<GeneratedEntry>)
  {
    forall i, j :: 0 <= i < j < |es| && SlotOf(es[i]) == SlotOf(es[j]) ==> j == i + 1
  }

  /** No entry falls on a holiday or in a period a schedule request forbids. */
  predicate CalendarOk(es: seq<GeneratedEntry>, holidays: seq<string>, reqs: seq<ScheduleRequest>, dateOf: (int, Day) -> string)
  {
    forall i :: 0 <= i < |es| ==>
      dateOf(es[i].week, es[i].day) !in holidays && !IsScheduleRequestViolated(reqs, dateOf(es[i].week, es[i].day), es[i].period)
  }

  /** None of the entries' slots is one the group has used. */
  predicate Unused(es: seq<GeneratedEntry>, groupId: string, used: set<GroupSlot>)
  {
    forall i :: 0 <= i < |es| ==> GroupSlot(groupId, SlotOf(es[i])) !in used
  }

  /** Every entry falls in `week` on one of `days` and is of one of the subjects `ids`. */
  predicate InWeekDays(es: seq<GeneratedEntry>, week: int, days: seq<Day>, ids: set<string>)
  {
    forall i :: 0 <= i < |es| ==> es[i].week == week && es[i].day in days && es[i].subjectId in ids
  }

  /** Every entry falls in weeks `lo` to `hi` on one of `days` and is of one of the subjects `ids`. */
  predicate InWeeks(es: seq<GeneratedEntry>, lo: int, hi: int, days: seq<Day>, ids: set<string>)
  {
    forall i :: 0 <= i < |es| ==> lo <= es[i].week <= hi && es[i].day in days && es[i].subjectId in ids
  }

  /** The subjects a placement for `subject` may add entries of: itself and its combo partner. */
  function SubjectIds(subject: Subject, combo: Option<Subject>): (r: set<string>)
    ensures subject.id in r && (combo.Some? ==> combo.value.id in r)
  {
    {subject.id} + (if combo.Some? then {combo.value.id} else {})
  }

  /**
   * Appending entries on unused slots, at most two of them sharing a slot and then adjacent, and marking
   * their slots, keeps the timetable marked and keeps shared slots to combo pairs.
   */
  lemma AppendUnused(es: seq<GeneratedEntry>, added: seq<GeneratedEntry>, groupId: string, used: set<GroupSlot>, used': set<GroupSlot>)
    requires GroupMarked(es, groupId, used) && GroupPairs(es) && GroupPairs(added) && Unused(added, groupId, used)
    requires used + GroupSlotsOf(groupId, added) <= used'
    ensures GroupMarked(es + added, groupId, used') && GroupPairs(es + added)
  {
    var r := es + added;
    forall i | 0 <= i < |r| ensures GroupSlot(groupId, SlotOf(r[i])) in used' {
      if i >= |es| {
        assert r[i] == added[i - |es|];
        assert GroupSlot(groupId, SlotOf(added[i - |es|])) in GroupSlotsOf(groupId, added);
      }
    }
    forall i, j | 0 <= i < j < |r| && SlotOf(r[i]) == SlotOf(r[j]) ensures j == i + 1 {
      if i >= |es| {
        assert r[i] == added[i - |es|] && r[j] == added[j - |es|];
      }
    }
  }

  /** Appending to the log of a group's timetable keeps it the log of the extended timetable. */
  lemma LogAppend(base: seq<GeneratedEntry>, es: seq<GeneratedEntry>, added: seq<GeneratedEntry>)
    ensures (base + es) + added == base + (es + added)
  {
  }

  /** Entries clear of holidays and forbidden periods, appended to such entries, are clear too. */
  lemma CalendarAppend(es: seq<GeneratedEntry>, added: seq<GeneratedEntry>, holidays: seq<string>, reqs: seq<ScheduleRequest>,
                       dateOf: (int, Day) -> string)
    requires CalendarOk(es, holidays, reqs, dateOf) && CalendarOk(added, holidays, reqs, dateOf)
    ensures CalendarOk(es + added, holidays, reqs, dateOf)
  {
    var r := es + added;
    forall i | |es| <= i < |r| ensures r[i] == added[i - |es|] {}
  }

  /**
   * Appending entries on slots the group had not used, each appended to the log and its slot marked,
   * keeps the group's timetable the tail of the log, marked, with shared slots only for combo pairs
   * and clear of holidays and forbidden periods.
   */
  lemma GroupAppend(groupId: string, schedule: seq<GeneratedEntry>, added: seq<GeneratedEntry>, base: seq<GeneratedEntry>,
                    log: seq<GeneratedEntry>, log': seq<GeneratedEntry>, used: set<GroupSlot>, used': set<GroupSlot>,
                    holidays: seq<string>, reqs: seq<ScheduleRequest>, dateOf: (int, Day) -> string)
    requires log == base + schedule && log' == log + added
    requires GroupMarked(schedule, groupId, used) && GroupPairs(schedule) && CalendarOk(schedule, holidays, reqs, dateOf)
    requires GroupPairs(added) && Unused(added, groupId, used) && CalendarOk(added, holidays, reqs, dateOf)
    requires used + GroupSlotsOf(groupId, added) <= used'
    ensures log' == base + (schedule + added)
    ensures GroupMarked(schedule + added, groupId, used') && GroupPairs(schedule + added)
    ensures CalendarOk(schedule + added, holidays, reqs, dateOf)
    ensures (schedule + added)[..|schedule|] == schedule && (schedule + added)[|schedule|..] == added
  {
    AppendUnused(schedule, added, groupId, used, used');
    LogAppend(base, schedule, added);
    CalendarAppend(schedule, added, holidays, reqs, dateOf);
  }

  /** The slots the entries book for teacher `x`. */
  function TeacherSlotsOf(es: seq<GeneratedEntry>, x: string): set<Slot>
  {
    set i | 0 <= i < |es| && es[i].teacherId == x :: SlotOf(es[i])
  }

  /** The slots the entries book for classroom `x`. */
  function ClassroomSlotsOf(es: seq<GeneratedEntry>, x: string): set<Slot>
  {
    set i | 0 <= i < |es| && es[i].classroomId == x :: SlotOf(es[i])
  }

  /** The group keys the entries mark used. */
  function GroupSlotsOf(groupId: string, es: seq<GeneratedEntry>): set<GroupSlot>
  {
    set i | 0 <= i < |es| :: GroupSlot(groupId, SlotOf(es[i]))
  }

  /** The teacher map after `addToTeacherSchedule` for each entry in turn. */
  function BookTeachers(m: Bookings, es: seq<GeneratedEntry>): Bookings
  {
    if es == [] then m
    else AddBooking(BookTeachers(m, es[..|es| - 1]), es[|es| - 1].teacherId, SlotOf(es[|es| - 1]))
  }

  /** Booking the entries in turn adds exactly their slots to each teacher. */
  lemma {:induction false} BookTeachersSlots(m: Bookings, es: seq<GeneratedEntry>, x: string)
    ensures Slots(BookTeachers(m, es), x) == Slots(m, x) + TeacherSlotsOf(es, x)
    decreases |es|
  {
    if es != [] {
      var init := es[..|es| - 1];
      BookTeachersSlots(m, init, x);
      assert TeacherSlotsOf(es, x) == TeacherSlotsOf(init, x) + (if es[|es| - 1].teacherId == x then {SlotOf(es[|es| - 1])} else {});
    }
  }

  /** The classroom map after `addToClassroomSchedule` for each entry in turn. */
  function BookClassrooms(m: Bookings, es: seq<GeneratedEntry>): Bookings
  {
    if es == [] then m
    else AddBooking(BookClassrooms(m, es[..|es| - 1]), es[|es| - 1].classroomId, SlotOf(es[|es| - 1]))
  }

  /** Booking the entries in turn adds exactly their slots to each classroom. */
  lemma {:induction false} BookClassroomsSlots(m: Bookings, es: seq<GeneratedEntry>, x: string)
    ensures Slots(BookClassrooms(m, es), x) == Slots(m, x) + ClassroomSlotsOf(es, x)
    decreases |es|
  {
    if es != [] {
      var init := es[..|es| - 1];
      BookClassroomsSlots(m, init, x);
      assert ClassroomSlotsOf(es, x) == ClassroomSlotsOf(init, x) + (if es[|es| - 1].classroomId == x then {SlotOf(es[|es| - 1])} else {});
    }
  }

  /**
   * Booking a prefix of entries with distinct slots, all free beforehand, leaves the next
   * entry's teacher and classroom free at its slot.
   */
  lemma PrefixMissesNext(tmap: Bookings, cmap: Bookings, es: seq<GeneratedEntry>, i: nat)
    requires i < |es| && SlotsDistinct(es) && AllFree(es, tmap, cmap)
    ensures SlotOf(es[i]) !in Slots(BookTeachers(tmap, es[..i]), es[i].teacherId)
    ensures SlotOf(es[i]) !in Slots(BookClassrooms(cmap, es[..i]), es[i].classroomId)
  {
    BookTeachersSlots(tmap, es[..i], es[i].teacherId);
    BookClassroomsSlots(cmap, es[..i], es[i].classroomId);
  }

  /** Booking a pair of entries is booking the first, then the second. */
  lemma BookPair(tmap: Bookings, cmap: Bookings, e1: GeneratedEntry, e2: GeneratedEntry)
    ensures BookTeachers(tmap, [e1, e2]) == AddBooking(AddBooking(tmap, e1.teacherId, SlotOf(e1)), e2.teacherId, SlotOf(e2))
    ensures BookClassrooms(cmap, [e1, e2]) == AddBooking(AddBooking(cmap, e1.classroomId, SlotOf(e1)), e2.classroomId, SlotOf(e2))
  {
    var es := [e1, e2];
    assert es[..|es| - 1] == [e1] && es[|es| - 1] == e2;
    assert [e1][..0] == [] && [e1][0] == e1;
    assert BookTeachers(tmap, [e1]) == AddBooking(tmap, e1.teacherId, SlotOf(e1));
    assert BookClassrooms(cmap, [e1]) == AddBooking(cmap, e1.classroomId, SlotOf(e1));
  }

  /** Appending a pair is appending its entries one after the other. */
  lemma PairLog(log: seq<GeneratedEntry>, e1: GeneratedEntry, e2: GeneratedEntry)
    ensures log + [e1] + [e2] == log + [e1, e2]
  {
    assert (log + [e1]) + [e2] == log + ([e1] + [e2]);
  }

  /**
   * A combo pair whose teachers and classrooms differ and were free, the first classroom booked on top
   * of `cmap`, keeps the log booked and free of double bookings once both are booked.
   */
  lemma BookedPair(es: seq<GeneratedEntry>, e1: GeneratedEntry, e2: GeneratedEntry, tmap: Bookings, cmap: Bookings)
    requires Booked(es, tmap, cmap) && NoDoubleBooking(es)
    requires SlotOf(e1) == SlotOf(e2) && e1.teacherId != e2.teacherId && e1.classroomId != e2.classroomId
    requires SlotOf(e1) !in Slots(tmap, e1.teacherId) && SlotOf(e1) !in Slots(tmap, e2.teacherId)
    requires SlotOf(e1) !in Slots(cmap, e1.classroomId)
    requires SlotOf(e1) !in Slots(AddBooking(cmap, e1.classroomId, SlotOf(e1)), e2.classroomId)
    ensures NoDoubleBooking(es + [e1, e2])
    ensures Booked(es + [e1, e2], BookTeachers(tmap, [e1, e2]), BookClassrooms(cmap, [e1, e2]))
  {
    AppendFreeEntry(es, e1, tmap, cmap);
    AppendFreeEntry(es + [e1], e2, AddBooking(tmap, e1.teacherId, SlotOf(e1)), AddBooking(cmap, e1.classroomId, SlotOf(e1)));
    PairLog(es, e1, e2);
    BookPair(tmap, cmap, e1, e2);
  }

  /** Appending the next entry of `es` to a log that ends with a prefix of `es` extends that prefix. */
  lemma AppendNext(base: seq<GeneratedEntry>, es: seq<GeneratedEntry>, i: nat, log: seq<GeneratedEntry>)
    requires i < |es| && log == base + es[..i]
    ensures log + [es[i]] == base + es[..i + 1]
  {
    assert es[..i + 1] == es[..i] + [es[i]];
  }

  /** One more entry of the prefix is one more teacher booking. */
  lemma BookTeachersStep(m: Bookings, es: seq<GeneratedEntry>, i: nat)
    requires i < |es|
    ensures BookTeachers(m, es[..i + 1]) == AddBooking(BookTeachers(m, es[..i]), es[i].teacherId, SlotOf(es[i]))
  {
    assert es[..i + 1][..i] == es[..i];
  }

  /** One more entry of the prefix is one more classroom booking. */
  lemma BookClassroomsStep(m: Bookings, es: seq<GeneratedEntry>, i: nat)
    requires i < |es|
    ensures BookClassrooms(m, es[..i + 1]) == AddBooking(BookClassrooms(m, es[..i]), es[i].classroomId, SlotOf(es[i]))
  {
    assert es[..i + 1][..i] == es[..i];
  }

  /** One more entry of the prefix is one more used key. */
  lemma GroupSlotsStep(groupId: string, es: seq<GeneratedEntry>, i: nat)
    requires i < |es|
    ensures GroupSlotsOf(groupId, es[..i + 1]) == GroupSlotsOf(groupId, es[..i]) + {GroupSlot(groupId, SlotOf(es[i]))}
  {
    assert es[..i + 1][..i] == es[..i];
  }

  lemma SingleSlots(groupId: string, e: GeneratedEntry)
    ensures GroupSlotsOf(groupId, [e]) == {GroupSlot(groupId, SlotOf(e))}
    ensures GroupPairs([e])
  {
    assert [e][0] == e;
  }

  /** A combo pair at one allowed, unused slot may join a group's timetable, marking the one slot. */
  lemma PairSlots(groupId: string, e1: GeneratedEntry, e2: GeneratedEntry, s: Slot, ids: set<string>, used: set<GroupSlot>,
                  holidays: seq<string>, reqs: seq<ScheduleRequest>, dateOf: (int, Day) -> string)
    requires SlotOf(e1) == s && SlotOf(e2) == s && e1.subjectId in ids && e2.subjectId in ids
    requires GroupSlot(groupId, s) !in used && dateOf(s.week, s.day) !in holidays
    requires !IsScheduleRequestViolated(reqs, dateOf(s.week, s.day), s.period)
    ensures GroupSlotsOf(groupId, [e1, e2]) == {GroupSlot(groupId, s)}
    ensures GroupPairs([e1, e2]) && Unused([e1, e2], groupId, used) && CalendarOk([e1, e2], holidays, reqs, dateOf)
    ensures InWeekDays([e1, e2], s.week, [s.day], ids)
  {
    var es := [e1, e2];
    assert es[0] == e1 && es[1] == e2;
  }

  /** Entries that `k` counted sessions add: a combo session is a pair of entries. */
  function SessionEntries(k: nat, combo: Option<Subject>): nat
  {
    if combo.Some? then 2 * k else k
  }

  lemma InWeekDaysAppend(a: seq<GeneratedEntry>, b: seq<GeneratedEntry>, week: int, days: seq<Day>, ids: set<string>)
    requires InWeekDays(a, week, days, ids) && InWeekDays(b, week, days, ids)
    ensures InWeekDays(a + b, week, days, ids)
  {
    forall i | 0 <= i < |a + b| ensures (a + b)[i].week == week && (a + b)[i].day in days && (a + b)[i].subjectId in ids {
      if i >= |a| {
        assert (a + b)[i] == b[i - |a|];
      }
    }
  }

  /** A schedule that grew by entries on `days` twice grew by entries on `days` overall. */
  lemma ExtendOnDays(schedule: seq<GeneratedEntry>, before: seq<GeneratedEntry>, after: seq<GeneratedEntry>,
                     added: seq<GeneratedEntry>, week: int, days: seq<Day>, ids: set<string>)
    requires before == schedule + added && InWeekDays(added, week, days, ids)
    requires |before| <= |after| && after[..|before|] == before && InWeekDays(after[|before|..], week, days, ids)
    ensures after == schedule + (added + after[|before|..]) && InWeekDays(added + after[|before|..], week, days, ids)
  {
    InWeekDaysAppend(added, after[|before|..], week, days, ids);
    assert after == after[..|before|] + after[|before|..];
  }

  lemma InWeekDaysWiden(es: seq<GeneratedEntry>, week: int, days: seq<Day>, days': seq<Day>, ids: set<string>, ids': set<string>)
    requires InWeekDays(es, week, days, ids) && (forall d :: d in days ==> d in days') && ids <= ids'
    ensures InWeekDays(es, week, days', ids')
  {
  }

  /** A week's entries added after the earlier weeks' keep every entry within weeks 1..week. */
  lemma ExtendInWeeks(schedule: seq<GeneratedEntry>, before: seq<GeneratedEntry>, after: seq<GeneratedEntry>,
                      added: seq<GeneratedEntry>, week: int, days: seq<Day>, ids: set<string>)
    requires 1 <= week
    requires before == schedule + added && InWeeks(added, 1, week - 1, days, ids)
    requires |before| <= |after| && after[..|before|] == before && InWeekDays(after[|before|..], week, days, ids)
    ensures after == schedule + (added + after[|before|..]) && InWeeks(added + after[|before|..], 1, week, days, ids)
  {
    var more := after[|before|..];
    forall i | 0 <= i < |added + more| ensures 1 <= (added + more)[i].week <= week && (added + more)[i].day in days && (added + more)[i].subjectId in ids {
      if i >= |added| {
        assert (added + more)[i] == more[i - |added|];
      }
    }
    assert after == after[..|before|] + more;
  }

  lemma InWeeksWiden(es: seq<GeneratedEntry>, week: int, days: seq<Day>, ids: set<string>)
    requires InWeeks(es, 1, week - 1, days, ids)
    ensures InWeeks(es, 1, week, days, ids)
  {
  }

  /** `subject.totalClasses || 16`. */
  function TotalSessions(subject: Subject): (r: int)
    ensures r != 0 && (subject.totalClasses != 0 ==> r == subject.totalClasses)
  {
    if subject.totalClasses != 0 then subject.totalClasses else 16
  }

  /** The subject's days: only Monday and Friday for a subject of 木下, the group's days otherwise. */
  function SubjectDays(subject: Subject, baseDays: seq<Day>, kinoshita: seq<string>): seq<Day>
  {
    if subject.name in kinoshita then [Mon, Fri] else baseDays
  }

  /**
   * The combo partner: for a combo lesson with a non-empty comboSubjectId, the first subject with that
   * id; nothing otherwise.
   */
  function ComboPartner(subjects: seq<Subject>, subject: Subject): (r: Option<Subject>)
    ensures r.Some? <==>
      (subject.lessonType == ComboLesson && subject.comboSubjectId.Some? && subject.comboSubjectId.value != ""
       && exists x :: x in subjects && x.id == subject.comboSubjectId.value)
    ensures r.Some? ==>
      (Some(r.value.id) == subject.comboSubjectId
       && exists i :: 0 <= i < |subjects| && subjects[i] == r.value && (forall j :: 0 <= j < i ==> subjects[j].id != r.value.id))
  {
    if subject.lessonType == ComboLesson && subject.comboSubjectId.Some? && subject.comboSubjectId.value != "" then
      var id := subject.comboSubjectId.value;
      match Sorting.FindFirst(subjects, (x: Subject) => x.id == id)
      case None => None
      case Some(i) => Some(subjects[i])
    else None
  }

  /** The group's days: Tuesday to Friday when Monday is avoided, all five otherwise. */
  function BaseDays(avoidMonday: bool): seq<Day>
  {
    if avoidMonday then [Tue, Wed, Thu, Fri] else DAYS_OF_WEEK
  }

  /**
   * `owners[i]` is a relevant subject whose placement added `es[i]`: the entry is of it or of its
   * combo partner, in weeks 1..weeks, on that subject's days.
   */
  ghost predicate Owned(es: seq<GeneratedEntry>, owners: seq<Subject>, subjects: seq<Subject>, relevant: seq<Subject>,
                        weeks: int, baseDays: seq<Day>, kinoshita: seq<string>)
  {
    |owners| == |es|
    && forall i :: 0 <= i < |es| ==>
      owners[i] in relevant && 1 <= es[i].week <= weeks && es[i].day in SubjectDays(owners[i], baseDays, kinoshita)
      && es[i].subjectId in SubjectIds(owners[i], ComboPartner(subjects, owners[i]))
  }

  lemma OwnedExtend(before: seq<GeneratedEntry>, owners: seq<Subject>, after: seq<GeneratedEntry>, subject: Subject,
                    subjects: seq<Subject>, relevant: seq<Subject>, weeks: int, baseDays: seq<Day>, kinoshita: seq<string>)
    requires Owned(before, owners, subjects, relevant, weeks, baseDays, kinoshita) && subject in relevant
    requires |before| <= |after| && after[..|before|] == before
    requires InWeeks(after[|before|..], 1, weeks, SubjectDays(subject, baseDays, kinoshita),
                     SubjectIds(subject, ComboPartner(subjects, subject)))
    ensures Owned(after, owners + seq(|after| - |before|, _ => subject), subjects, relevant, weeks, baseDays, kinoshita)
  {
    var o := owners + seq(|after| - |before|, _ => subject);
    forall i | 0 <= i < |after|
      ensures o[i] in relevant && 1 <= after[i].week <= weeks && after[i].day in SubjectDays(o[i], baseDays, kinoshita)
        && after[i].subjectId in SubjectIds(o[i], ComboPartner(subjects, o[i]))
    {
      if i < |before| {
        assert after[i] == before[i] && o[i] == owners[i];
      } else {
        assert after[i] == after[|before|..][i - |before|] && o[i] == subject;
      }
    }
  }

  /**
   * With Monday avoided, an entry falls on a Monday only when the subject that placed it is one of
   * 木下's subjects; and every entry a subject of 木下 placed falls on a Monday or a Friday.
   */
  lemma {:induction false} OwnedDays(es: seq<GeneratedEntry>, owners: seq<Subject>, subjects: seq<Subject>,
                                     relevant: seq<Subject>, weeks: int, avoidMonday: bool, kinoshita: seq<string>)
    requires Owned(es, owners, subjects, relevant, weeks, BaseDays(avoidMonday), kinoshita)
    ensures forall i :: 0 <= i < |es| && avoidMonday && es[i].day == Mon ==> owners[i].name in kinoshita
    ensures forall i :: 0 <= i < |es| && owners[i].name in kinoshita ==> es[i].day == Mon || es[i].day == Fri
  {
    forall i | 0 <= i < |es| && avoidMonday && es[i].day == Mon ensures owners[i].name in kinoshita {
      assert es[i].day in SubjectDays(owners[i], BaseDays(avoidMonday), kinoshita);
    }
  }

  /** What generateSchedule promises about one group's timetable. */
  ghost predicate GroupOk(es: seq<GeneratedEntry>, owners: seq<Subject>, g: Group, subjects: seq<Subject>, teachers: seq<Teacher>,
                          weeks: nat, avoidMonday: bool, holidays: seq<string>, reqs: seq<ScheduleRequest>,
                          dateOf: (int, Day) -> string)
  {
    GroupPairs(es) && CalendarOk(es, holidays, reqs, dateOf)
    && Owned(es, owners, subjects, RelevantSubjects(subjects, g), weeks, BaseDays(avoidMonday), KinoshitaSubjects(subjects, teachers))
  }

  function GroupIds(gs: seq<Group>): set<string>
  {
    set g | g in gs :: g.id
  }

  lemma GroupIdsDistinct()
    ensures forall i, j :: 0 <= i < j < |GROUPS| ==> GROUPS[i].id != GROUPS[j].id
  {
    assert GROUPS[0].id[..4] == "it-1";
  }

  /** Timetables joined into one, in order. */
  function Concat(ss: seq<seq<GeneratedEntry>>): (r: seq<GeneratedEntry>)
  {
    if ss == [] then [] else Concat(ss[..|ss| - 1]) + ss[|ss| - 1]
  }

  /** Joining one more timetable appends it. */
  lemma ConcatSnoc(ss: seq<seq<GeneratedEntry>>, s: seq<GeneratedEntry>)
    ensures Concat(ss + [s]) == Concat(ss) + s
  {
    assert (ss + [s])[..|ss|] == ss;
  }

  /** With distinct ids, one more group adds its id. */
  lemma GroupIdsStep(gs: seq<Group>, k: nat)
    requires k < |gs|
    ensures GroupIds(gs[..k + 1]) == GroupIds(gs[..k]) + {gs[k].id}
  {
    assert gs[..k + 1] == gs[..k] + [gs[k]];
  }

  /** The first `k` groups of `groups` have their timetables in `result`, made as generateGroupSchedule promises. */
  ghost predicate Recorded(result: map<string, seq<GeneratedEntry>>, scheds: seq<seq<GeneratedEntry>>, owners: seq<seq<Subject>>,
                           groups: seq<Group>, k: nat, subjects: seq<Subject>, teachers: seq<Teacher>, weeks: nat,
                           avoidMonday: bool, holidays: seq<string>, reqs: seq<ScheduleRequest>, dateOf: (int, Day) -> string)
  {
    RecordedKeys(result, scheds, groups, k)
    && RecordedOk(scheds, owners, groups, k, subjects, teachers, weeks, avoidMonday, holidays, reqs, dateOf)
  }

  /** `result` maps the ids of the first `k` groups, and only those, to their timetables in `scheds`. */
  predicate RecordedKeys(result: map<string, seq<GeneratedEntry>>, scheds: seq<seq<GeneratedEntry>>, groups: seq<Group>, k: nat)
  {
    k <= |groups| && result.Keys == GroupIds(groups[..k]) && |scheds| == k
    && forall j {:trigger scheds[j]} :: 0 <= j < k ==> groups[j].id in result && result[groups[j].id] == scheds[j]
  }

  /** Each of the first `k` timetables is made as generateGroupSchedule promises for its group. */
  ghost predicate RecordedOk(scheds: seq<seq<GeneratedEntry>>, owners: seq<seq<Subject>>, groups: seq<Group>, k: nat,
                             subjects: seq<Subject>, teachers: seq<Teacher>, weeks: nat, avoidMonday: bool,
                             holidays: seq<string>, reqs: seq<ScheduleRequest>, dateOf: (int, Day) -> string)
  {
    k <= |groups| && |scheds| == k && |owners| == k
    && forall j {:trigger scheds[j]} :: 0 <= j < k ==>
      GroupOk(scheds[j], owners[j], groups[j], subjects, teachers, weeks, avoidMonday, holidays, reqs, dateOf)
  }

  /** Recording the next group's timetable extends the record by one group. */
  lemma RecordedStep(result: map<string, seq<GeneratedEntry>>, scheds: seq<seq<GeneratedEntry>>, owners: seq<seq<Subject>>,
                     groups: seq<Group>, k: nat, subjects: seq<Subject>, teachers: seq<Teacher>, weeks: nat,
                     avoidMonday: bool, holidays: seq<string>, reqs: seq<ScheduleRequest>, dateOf: (int, Day) -> string,
                     sched: seq<GeneratedEntry>, own: seq<Subject>)
    requires k < |groups| && forall i, j :: 0 <= i < j < |groups| ==> groups[i].id != groups[j].id
    requires Recorded(result, scheds, owners, groups, k, subjects, teachers, weeks, avoidMonday, holidays, reqs, dateOf)
    requires GroupOk(sched, own, groups[k], subjects, teachers, weeks, avoidMonday, holidays, reqs, dateOf)
    ensures Recorded(result[groups[k].id := sched], scheds + [sched], owners + [own], groups, k + 1,
                     subjects, teachers, weeks, avoidMonday, holidays, reqs, dateOf)
  {
    RecordedKeysStep(result, scheds, groups, k, sched);
    RecordedOkStep(scheds, owners, groups, k, subjects, teachers, weeks, avoidMonday, holidays, reqs, dateOf, sched, own);
  }

  lemma RecordedKeysStep(result: map<string, seq<GeneratedEntry>>, scheds: seq<seq<GeneratedEntry>>, groups: seq<Group>, k: nat,
                         sched: seq<GeneratedEntry>)
    requires k < |groups| && forall i, j :: 0 <= i < j < |groups| ==> groups[i].id != groups[j].id
    requires RecordedKeys(result, scheds, groups, k)
    ensures RecordedKeys(result[groups[k].id := sched], scheds + [sched], groups, k + 1)
  {
    GroupIdsStep(groups, k);
    var result', scheds' := result[groups[k].id := sched], scheds + [sched];
    forall j | 0 <= j < k + 1
      ensures groups[j].id in result' && result'[groups[j].id] == scheds'[j]
    {
      if j < k {
        assert groups[j].id != groups[k].id;
        assert scheds'[j] == scheds[j];
      }
    }
  }

  lemma RecordedOkStep(scheds: seq<seq<GeneratedEntry>>, owners: seq<seq<Subject>>, groups: seq<Group>, k: nat,
                       subjects: seq<Subject>, teachers: seq<Teacher>, weeks: nat, avoidMonday: bool,
                       holidays: seq<string>, reqs: seq<ScheduleRequest>, dateOf: (int, Day) -> string,
                       sched: seq<GeneratedEntry>, own: seq<Subject>)
    requires k < |groups|
    requires RecordedOk(scheds, owners, groups, k, subjects, teachers, weeks, avoidMonday, holidays, reqs, dateOf)
    requires GroupOk(sched, own, groups[k], subjects, teachers, weeks, avoidMonday, holidays, reqs, dateOf)
    ensures RecordedOk(scheds + [sched], owners + [own], groups, k + 1, subjects, teachers, weeks, avoidMonday, holidays, reqs, dateOf)
  {
    var scheds', owners' := scheds + [sched], owners + [own];
    forall j | 0 <= j < k + 1
      ensures GroupOk(scheds'[j], owners'[j], groups[j], subjects, teachers, weeks, avoidMonday, holidays, reqs, dateOf)
    {
      if j < k {
        assert scheds'[j] == scheds[j] && owners'[j] == owners[j];
        assert GroupOk(scheds[j], owners[j], groups[j], subjects, teachers, weeks, avoidMonday, holidays, reqs, dateOf);
      } else {
        assert scheds'[j] == sched && owners'[j] == own;
      }
    }
  }

  /**
   * An entry ready for slot `s` of a run: it sits at `s`, is of subject `subjectId`, its teacher and
   * classroom are free there, the group has not used the slot, and the day and period are allowed.
   */
  predicate RunEntryOk(e: GeneratedEntry, groupId: string, subjectId: string, s: Slot, tmap: Bookings, cmap: Bookings,
                       used: set<GroupSlot>, holidays: seq<string>, reqs: seq<ScheduleRequest>, dateOf: (int, Day) -> string)
  {
    SlotOf(e) == s && e.subjectId == subjectId
    && s !in Slots(tmap, e.teacherId) && s !in Slots(cmap, e.classroomId) && GroupSlot(groupId, s) !in used
    && dateOf(s.week, s.day) !in holidays && !IsScheduleRequestViolated(reqs, dateOf(s.week, s.day), s.period)
  }

  /** Entries ready for the consecutive slots of a run are distinct, free, unused, allowed and on the run's day. */
  lemma RunReady(es: seq<GeneratedEntry>, groupId: string, subjectId: string, week: int, day: Day, start: nat,
                 tmap: Bookings, cmap: Bookings, used: set<GroupSlot>, holidays: seq<string>, reqs: seq<ScheduleRequest>,
                 dateOf: (int, Day) -> string)
    requires start + |es| <= |PERIODS|
    requires forall j :: 0 <= j < |es| ==> RunEntryOk(es[j], groupId, subjectId, RunSlot(week, day, start, j), tmap, cmap, used, holidays, reqs, dateOf)
    ensures |es| == 0 ==> GroupSlotsOf(groupId, es) == {}
    ensures SlotsDistinct(es) && AllFree(es, tmap, cmap)
    ensures GroupPairs(es) && Unused(es, groupId, used) && CalendarOk(es, holidays, reqs, dateOf)
    ensures InWeekDays(es, week, [day], {subjectId})
  {
    PeriodsExact();
    forall i, j | 0 <= i < j < |es| ensures SlotOf(es[i]) != SlotOf(es[j]) {
      assert RunEntryOk(es[i], groupId, subjectId, RunSlot(week, day, start, i), tmap, cmap, used, holidays, reqs, dateOf);
      assert RunEntryOk(es[j], groupId, subjectId, RunSlot(week, day, start, j), tmap, cmap, used, holidays, reqs, dateOf);
    }
  }

  class AutoScheduleGenerator {
    const teachers: seq<Teacher>
    const subjects: seq<Subject>
    const classrooms: seq<Classroom>
    /** The current group's used (group, slot) keys. */
    var usedSlots: set<GroupSlot>
    var teacherSchedule: Bookings
    var classroomSchedule: Bookings
    var holidays: seq<string>
    var scheduleRequests: seq<ScheduleRequest>
    /** `calculateDate(options.startDate, week, day)`: the date string a week and day fall on. */
    var dateOf: (int, Day) -> string
    /** The outcome of `Math.random() < 0.4` in shouldPrioritizeEarlyFinish, by group, week and day. */
    var earlyFinishDraw: (string, int, Day) -> bool
    /** Every entry placed since the booking maps were reset. */
    ghost var placed: seq<GeneratedEntry>
    /** The log as it stood when the current group's generation began. */
    ghost var logBase: seq<GeneratedEntry>

    ghost predicate Valid()
      reads this
    {
      Booked(placed, teacherSchedule, classroomSchedule) && NoDoubleBooking(placed)
    }

    /**
     * The invariant of one group's generation: `Valid()`, the log is the group's timetable after the
     * entries of earlier groups, every entry of the timetable marked used, slots shared only by combo
     * pairs, and no entry on a holiday or in a forbidden period.
     */
    ghost predicate GroupInv(groupId: string, schedule: seq<GeneratedEntry>)
      reads this
    {
      Valid() && placed == logBase + schedule && GroupMarked(schedule, groupId, usedSlots) && GroupPairs(schedule)
      && CalendarOk(schedule, holidays, scheduleRequests, dateOf)
    }

    /** The run's configuration is left as it was. */
    twostate predicate RunConfigUnchanged()
      reads this
    {
      holidays == old(holidays) && scheduleRequests == old(scheduleRequests)
      && dateOf == old(dateOf) && earlyFinishDraw == old(earlyFinishDraw)
    }

    /** The run's configuration and the start of the current group's log are left as they were. */
    twostate predicate ConfigUnchanged()
      reads this
    {
      RunConfigUnchanged() && logBase == old(logBase)
    }

    constructor(teachers: seq<Teacher>, subjects: seq<Subject>, classrooms: seq<Classroom>)
      ensures this.teachers == teachers && this.subjects == subjects && this.classrooms == classrooms
      ensures usedSlots == {} && teacherSchedule == map[] && classroomSchedule == map[]
      ensures holidays == [] && scheduleRequests == [] && placed == []
      ensures Valid()
    {
      this.teachers := teachers;
      this.subjects := subjects;
      this.classrooms := classrooms;
      usedSlots := {};
      teacherSchedule := map[];
      classroomSchedule := map[];
      holidays := [];
      scheduleRequests := [];
      dateOf := (w: int, d: Day) => "";
      earlyFinishDraw := (g: string, w: int, d: Day) => false;
      placed, logBase := [], [];
    }

    /** isHoliday: the slot's date is in the holiday list. */
    predicate IsHoliday(week: int, day: Day)
      reads this
    {
      dateOf(week, day) in holidays
    }

    /** isScheduleRequestViolated for the slot's date and period. */
    predicate RequestViolated(s: Slot)
      reads this
    {
      IsScheduleRequestViolated(scheduleRequests, dateOf(s.week, s.day), s.period)
    }

    /** isTeacherBusyGlobally: the slot is in the teacher's bookings. */
    predicate IsTeacherBusyGlobally(teacherId: string, s: Slot)
      reads this
    {
      s in Slots(teacherSchedule, teacherId)
    }

    /** isDayAvailable: some period of the day is still free for the teacher. */
    predicate IsDayAvailable(teacherId: string, week: int, day: Day)
      reads this
    {
      exists p :: p in PERIODS && Slot(week, day, p) !in Slots(teacherSchedule, teacherId)
    }

    method AddToTeacherSchedule(teacherId: string, s: Slot)
      modifies this
      ensures teacherSchedule == AddBooking(old(teacherSchedule), teacherId, s)
      ensures classroomSchedule == old(classroomSchedule) && usedSlots == old(usedSlots) && placed == old(placed)
      ensures ConfigUnchanged()
    {
      teacherSchedule := AddBooking(teacherSchedule, teacherId, s);
    }

    method AddToClassroomSchedule(classroomId: string, s: Slot)
      modifies this
      ensures classroomSchedule == AddBooking(old(classroomSchedule), classroomId, s)
      ensures teacherSchedule == old(teacherSchedule) && usedSlots == old(usedSlots) && placed == old(placed)
      ensures ConfigUnchanged()
    {
      classroomSchedule := AddBooking(classroomSchedule, classroomId, s);
    }

    method RemoveFromClassroomSchedule(classroomId: string, s: Slot)
      modifies this
      ensures classroomSchedule == RemoveBooking(old(classroomSchedule), classroomId, s)
      ensures teacherSchedule == old(teacherSchedule) && usedSlots == old(usedSlots) && placed == old(placed)
      ensures ConfigUnchanged()
    {
      classroomSchedule := RemoveBooking(classroomSchedule, classroomId, s);
    }

    /** Records one placed entry: the group key, the teacher booking and the classroom booking. */
    method Book(groupId: string, e: GeneratedEntry)
      requires Valid()
      requires SlotOf(e) !in Slots(teacherSchedule, e.teacherId) && SlotOf(e) !in Slots(classroomSchedule, e.classroomId)
      modifies this
      ensures Valid() && placed == old(placed) + [e]
      ensures usedSlots == old(usedSlots) + {GroupSlot(groupId, SlotOf(e))}
      ensures teacherSchedule == AddBooking(old(teacherSchedule), e.teacherId, SlotOf(e))
      ensures classroomSchedule == AddBooking(old(classroomSchedule), e.classroomId, SlotOf(e))
      ensures ConfigUnchanged()
    {
      AppendFreeEntry(placed, e, teacherSchedule, classroomSchedule);
      usedSlots := usedSlots + {GroupSlot(groupId, SlotOf(e))};
      AddToTeacherSchedule(e.teacherId, SlotOf(e));
      AddToClassroomSchedule(e.classroomId, SlotOf(e));
      placed := placed + [e];
    }

    /** The booking loop of tryDayConsecutivePlacement, over the prepared entries in order. */
    method BookAll(groupId: string, es: seq<GeneratedEntry>)
      requires Valid() && SlotsDistinct(es) && AllFree(es, teacherSchedule, classroomSchedule)
      modifies this
      ensures Valid() && placed == old(placed) + es
      ensures usedSlots == old(usedSlots) + GroupSlotsOf(groupId, es)
      ensures teacherSchedule == BookTeachers(old(teacherSchedule), es)
      ensures classroomSchedule == BookClassrooms(old(classroomSchedule), es)
      ensures ConfigUnchanged()
    {
      var i := 0;
      while i < |es|
        invariant 0 <= i <= |es|
        invariant Valid()
        invariant placed == old(placed) + es[..i]
        invariant usedSlots == old(usedSlots) + GroupSlotsOf(groupId, es[..i])
        invariant teacherSchedule == BookTeachers(old(teacherSchedule), es[..i])
        invariant classroomSchedule == BookClassrooms(old(classroomSchedule), es[..i])
        invariant ConfigUnchanged()
      {
        BookTeachersStep(old(teacherSchedule), es, i);
        BookClassroomsStep(old(classroomSchedule), es, i);
        GroupSlotsStep(groupId, es, i);
        PrefixMissesNext(old(teacherSchedule), old(classroomSchedule), es, i);
        AppendNext(old(placed), es, i, placed);
        Book(groupId, es[i]);
        i := i + 1;
      }
      assert es[..i] == es;
    }

    /**
     * The checks both placement loops run for one slot, up to the teacher: the group's slot is unused,
     * the day is not a holiday, no schedule request forbids the period, getAvailableTeacher finds a
     * teacher and isTeacherBusyGlobally does not reject it.
     */
    function CandidateTeacher(groupId: string, subject: Subject, s: Slot): Option<Teacher>
      reads this
    {
      if GroupSlot(groupId, s) in usedSlots || IsHoliday(s.week, s.day) || RequestViolated(s) then None
      else match FirstAvailableTeacher(teachers, subject, s, teacherSchedule, usedSlots)
        case None => None
        case Some(t) => if IsTeacherBusyGlobally(t.id, s) then None else Some(t)
    }

    /** The entry a non-combo placement prepares for one slot: the teacher checks, then getAvailableClassroom. */
    function CandidateEntry(groupId: string, subject: Subject, s: Slot): Option<GeneratedEntry>
      reads this
    {
      match CandidateTeacher(groupId, subject, s)
      case None => None
      case Some(t) =>
        match FirstFreeClassroom(classrooms, subject, s, classroomSchedule)
        case None => None
        case Some(c) => Some(MakeEntry(groupId, subject, subject.name, s, dateOf(s.week, s.day), t, c))
    }

    /**
     * A slot gets a teacher exactly when it is unused by the group, not a holiday, not forbidden by a
     * request, and one of the subject's teachers passes its constraints and is free (the separate
     * isTeacherBusyGlobally test never rejects the teacher found). The entry prepared for it sits at the
     * slot, carries the subject, and books a free teacher of the subject and a free allowed classroom.
     */
    lemma CandidateFacts(groupId: string, subject: Subject, s: Slot)
      ensures CandidateTeacher(groupId, subject, s).None? <==>
        (GroupSlot(groupId, s) in usedSlots || IsHoliday(s.week, s.day) || RequestViolated(s)
         || forall i :: 0 <= i < |teachers| && teachers[i].id in subject.teacherIds ==> !TeacherAcceptable(teachers[i], subject, s, teacherSchedule, usedSlots))
      ensures CandidateTeacher(groupId, subject, s).Some? ==>
        var t := CandidateTeacher(groupId, subject, s).value;
        t in teachers && t.id in subject.teacherIds && TeacherAcceptable(t, subject, s, teacherSchedule, usedSlots)
      ensures CandidateEntry(groupId, subject, s).Some? ==>
        var e := CandidateEntry(groupId, subject, s).value;
        SlotOf(e) == s && e.subjectId == subject.id && e.subjectName == subject.name
        && CandidateTeacher(groupId, subject, s).Some? && e.teacherId == CandidateTeacher(groupId, subject, s).value.id
        && s !in Slots(teacherSchedule, e.teacherId) && s !in Slots(classroomSchedule, e.classroomId)
        && exists c :: c in classrooms && c.id == e.classroomId && ClassroomAllowed(c, subject)
    {
      FirstAvailableTeacherCorrect(teachers, subject, s, teacherSchedule, usedSlots);
      FirstFreeClassroomCorrect(classrooms, subject, s, classroomSchedule);
    }

    /** Every period of the run of `n` from `start` has an entry ready. */
    predicate RunFeasible(groupId: string, subject: Subject, week: int, day: Day, start: nat, n: nat)
      reads this
      requires start + n <= |PERIODS|
    {
      forall k :: 0 <= k < n ==> CandidateEntry(groupId, subject, RunSlot(week, day, start, k)).Some?
    }

    /** The entries prepared for a feasible run, in period order. */
    function RunEntries(groupId: string, subject: Subject, week: int, day: Day, start: nat, n: nat): (r: seq<GeneratedEntry>)
      reads this
      requires start + n <= |PERIODS| && RunFeasible(groupId, subject, week, day, start, n)
      ensures |r| == n
      ensures forall k :: 0 <= k < n ==> Some(r[k]) == CandidateEntry(groupId, subject, RunSlot(week, day, start, k))
    {
      if n == 0 then []
      else
        assert CandidateEntry(groupId, subject, RunSlot(week, day, start, n - 1)).Some?;
        RunEntries(groupId, subject, week, day, start, n - 1) + [CandidateEntry(groupId, subject, RunSlot(week, day, start, n - 1)).value]
    }

    /**
     * The first start index, from `from` on, whose run of `n` periods is feasible; none when `n` is 0,
     * where tryDayConsecutivePlacement places nothing.
     */
    function FirstFeasibleStart(groupId: string, subject: Subject, week: int, day: Day, n: nat, from: nat): (r: Option<nat>)
      reads this
      ensures r.Some? ==>
        (n > 0 && from <= r.value && r.value + n <= |PERIODS|
         && RunFeasible(groupId, subject, week, day, r.value, n)
         && forall st :: from <= st < r.value ==> !RunFeasible(groupId, subject, week, day, st, n))
      ensures r.None? && n > 0 ==>
        forall st :: from <= st && st + n <= |PERIODS| ==> !RunFeasible(groupId, subject, week, day, st, n)
      decreases |PERIODS| - from
    {
      if n == 0 || from + n > |PERIODS| then None
      else if RunFeasible(groupId, subject, week, day, from, n) then Some(from)
      else FirstFeasibleStart(groupId, subject, week, day, n, from + 1)
    }

    /** The teacher checks for one slot, in the order the placement loops make them. */
    method PrepareTeacher(groupId: string, subject: Subject, s: Slot) returns (r: Option<Teacher>)
      ensures r == CandidateTeacher(groupId, subject, s)
    {
      if GroupSlot(groupId, s) in usedSlots {
        return None;
      }
      if IsHoliday(s.week, s.day) {
        return None;
      }
      if RequestViolated(s) {
        return None;
      }
      var t := GetAvailableTeacher(subject, s);
      if t.None? {
        return None;
      }
      if IsTeacherBusyGlobally(t.value.id, s) {
        return None;
      }
      return t;
    }

    /** The teacher checks, then the classroom search, and the entry `${group.id}-${subject.id}-...` they give. */
    method PrepareEntry(groupId: string, subject: Subject, s: Slot) returns (r: Option<GeneratedEntry>)
      ensures r == CandidateEntry(groupId, subject, s)
    {
      var t := PrepareTeacher(groupId, subject, s);
      if t.None? {
        return None;
      }
      var c := GetAvailableClassroom(subject, s);
      if c.None? {
        return None;
      }
      return Some(MakeEntry(groupId, subject, subject.name, s, dateOf(s.week, s.day), t.value, c.value));
    }

    /**
     * getConsecutiveStartPriority on the current group keys: whatever the weekly load and the number of
     * days that reach 4限, the start indexes come out in ascending order.
     */
    method GetConsecutiveStartPriority(groupId: string, week: int, maxStart: int) returns (r: seq<int>)
      ensures r == StartIndexes(maxStart)
    {
      var weeklyLoad := GroupWeeklyLoad(usedSlots, groupId, week);
      var fourth := CountFourthPeriodDays(usedSlots, groupId, week);
      r := ConsecutiveStartPriority(weeklyLoad, fourth, maxStart);
      ConsecutiveStartPriorityAscending(weeklyLoad, fourth, maxStart);
    }

    /** The schedule grew at its end, no used slot was released, and the configuration stayed. */
    twostate predicate Extends(schedule: seq<GeneratedEntry>, schedule': seq<GeneratedEntry>)
      reads this
    {
      |schedule| <= |schedule'| && schedule'[..|schedule|] == schedule
      && old(usedSlots) <= usedSlots && ConfigUnchanged()
    }

    /**
     * The day had a feasible run, and its entries, those prepared in the state before, were appended to
     * the schedule and the log, marked used for the group and booked for their teachers and classrooms.
     */
    twostate predicate RunPlaced(groupId: string, subject: Subject, week: int, day: Day, n: nat, schedule: seq<GeneratedEntry>, schedule': seq<GeneratedEntry>)
      reads this
    {
      old(FirstFeasibleStart(groupId, subject, week, day, n, 0)).Some?
      && var added := old(RunEntries(groupId, subject, week, day, FirstFeasibleStart(groupId, subject, week, day, n, 0).value, n));
      schedule' == schedule + added && placed == old(placed) + added
      && usedSlots == old(usedSlots) + GroupSlotsOf(groupId, added)
      && teacherSchedule == BookTeachers(old(teacherSchedule), added)
      && classroomSchedule == BookClassrooms(old(classroomSchedule), added)
      && ConfigUnchanged()
    }

    /**
     * tryDayConsecutivePlacement: tries the start indexes in priority order (which is ascending) and
     * places the first run of `n` periods on the day whose every slot has an entry ready; otherwise
     * nothing changes.
     */
    method TryDayConsecutivePlacement(group: Group, subject: Subject, week: int, day: Day, n: nat, schedule: seq<GeneratedEntry>)
      returns (count: nat, schedule': seq<GeneratedEntry>)
      requires GroupInv(group.id, schedule)
      modifies this
      ensures GroupInv(group.id, schedule') && Extends(schedule, schedule')
      ensures |schedule'| == |schedule| + count && InWeekDays(schedule'[|schedule|..], week, [day], {subject.id})
      ensures old(FirstFeasibleStart(group.id, subject, week, day, n, 0)).None? ==>
        count == 0 && schedule' == schedule && unchanged(this)
      ensures old(FirstFeasibleStart(group.id, subject, week, day, n, 0)).Some? ==>
        count == n && RunPlaced(group.id, subject, week, day, n, schedule, schedule')
    {
      var start, temp := FindFeasibleStart(group.id, subject, week, day, n);
      if temp.Some? && n > 0 {
        BookAll(group.id, temp.value);
        GroupAppend(group.id, schedule, temp.value, logBase, old(placed), placed, old(usedSlots), usedSlots,
                    holidays, scheduleRequests, dateOf);
        return n, schedule + temp.value;
      }
      return 0, schedule;
    }

    /** The first of `days` on which some run of `n` periods is feasible. */
    function FirstRunDay(groupId: string, subject: Subject, week: int, days: seq<Day>, n: nat): (r: Option<nat>)
      reads this
      ensures r.Some? ==>
        (r.value < |days| && FirstFeasibleStart(groupId, subject, week, days[r.value], n, 0).Some?
         && forall j :: 0 <= j < r.value ==> FirstFeasibleStart(groupId, subject, week, days[j], n, 0).None?)
      ensures r.None? ==> forall j :: 0 <= j < |days| ==> FirstFeasibleStart(groupId, subject, week, days[j], n, 0).None?
    {
      if days == [] then None
      else if FirstFeasibleStart(groupId, subject, week, days[0], n, 0).Some? then Some(0)
      else match FirstRunDay(groupId, subject, week, days[1..], n)
        case None => None
        case Some(i) => Some(i + 1)
    }

    /**
     * tryConsecutivePlacement: nothing for a combo subject; otherwise the first day, in the given order,
     * on which tryDayConsecutivePlacement places a run.
     */
    method TryConsecutivePlacement(group: Group, subject: Subject, week: int, days: seq<Day>, n: nat, schedule: seq<GeneratedEntry>)
      returns (count: nat, schedule': seq<GeneratedEntry>)
      requires GroupInv(group.id, schedule)
      modifies this
      ensures GroupInv(group.id, schedule') && Extends(schedule, schedule')
      ensures |schedule'| == |schedule| + count && InWeekDays(schedule'[|schedule|..], week, days, {subject.id})
      ensures subject.lessonType == ComboLesson || old(FirstRunDay(group.id, subject, week, days, n)).None? ==>
        count == 0 && schedule' == schedule && unchanged(this)
      ensures subject.lessonType != ComboLesson && old(FirstRunDay(group.id, subject, week, days, n)).Some? ==>
        count == n && RunPlaced(group.id, subject, week, days[old(FirstRunDay(group.id, subject, week, days, n)).value], n, schedule, schedule')
    {
      if subject.lessonType == ComboLesson {
        return 0, schedule;
      }
      var i := 0;
      while i < |days|
        invariant 0 <= i <= |days| && unchanged(this)
        invariant forall j :: 0 <= j < i ==> FirstFeasibleStart(group.id, subject, week, days[j], n, 0).None?
      {
        if FirstFeasibleStart(group.id, subject, week, days[i], n, 0).Some? {
          FirstRunDayIs(group.id, subject, week, days, n, i);
        }
        count, schedule' := TryDayConsecutivePlacement(group, subject, week, days[i], n, schedule);
        if count > 0 {
          assert days[i] in days;
          return;
        }
        i := i + 1;
      }
      return 0, schedule;
    }

    /** A day after days without a feasible run, with one itself, is the first such day. */
    lemma FirstRunDayIs(groupId: string, subject: Subject, week: int, days: seq<Day>, n: nat, i: nat)
      requires i < |days| && FirstFeasibleStart(groupId, subject, week, days[i], n, 0).Some?
      requires forall j :: 0 <= j < i ==> FirstFeasibleStart(groupId, subject, week, days[j], n, 0).None?
      ensures FirstRunDay(groupId, subject, week, days, n) == Some(i)
    {
    }

    /**
     * The start-index loop of tryDayConsecutivePlacement before anything is booked: the first start, in
     * priority order, whose run of `n` periods has every entry ready, and those entries.
     */
    method FindFeasibleStart(groupId: string, subject: Subject, week: int, day: Day, n: nat)
      returns (start: nat, temp: Option<seq<GeneratedEntry>>)
      ensures n > 0 ==> (temp.None? <==> FirstFeasibleStart(groupId, subject, week, day, n, 0).None?)
      ensures n == 0 ==> temp == Some([])
      ensures temp.Some? ==> SlotsDistinct(temp.value) && AllFree(temp.value, teacherSchedule, classroomSchedule)
      ensures temp.Some? ==>
        (GroupPairs(temp.value) && Unused(temp.value, groupId, usedSlots)
         && CalendarOk(temp.value, holidays, scheduleRequests, dateOf) && InWeekDays(temp.value, week, [day], {subject.id}))
      ensures temp.Some? && n > 0 ==>
        (FirstFeasibleStart(groupId, subject, week, day, n, 0) == Some(start)
         && temp.value == RunEntries(groupId, subject, week, day, start, n))
    {
      var startPriority := GetConsecutiveStartPriority(groupId, week, |PERIODS| - n + 1);
      var idx := 0;
      temp := None;
      while idx < |startPriority|
        invariant 0 <= idx <= |startPriority|
        invariant temp.None? && n == 0 ==> idx == 0
        invariant temp.None? && n > 0 ==> forall st :: 0 <= st < idx ==> !RunFeasible(groupId, subject, week, day, st, n)
        invariant temp.Some? ==>
          (idx < |startPriority| && RunFeasible(groupId, subject, week, day, idx, n)
           && |temp.value| == n
           && (n > 0 ==> forall st :: 0 <= st < idx ==> !RunFeasible(groupId, subject, week, day, st, n))
           && forall j :: 0 <= j < n ==> CandidateEntry(groupId, subject, RunSlot(week, day, idx, j)) == Some(temp.value[j]))
      {
        assert startPriority[idx] == idx;
        temp := PrepareRun(groupId, subject, week, day, startPriority[idx], n);
        if temp.Some? {
          break;
        }
        idx := idx + 1;
      }
      if temp.Some? {
        RunPlacementFacts(groupId, subject, week, day, idx, n, temp.value);
        start := idx;
      } else {
        start := 0;
        NoFeasibleStart(groupId, subject, week, day, n);
      }
    }

    /** When no start index of the day has a feasible run, there is no first one. */
    lemma NoFeasibleStart(groupId: string, subject: Subject, week: int, day: Day, n: nat)
      requires n > 0 ==> forall st :: 0 <= st && st + n <= |PERIODS| ==> !RunFeasible(groupId, subject, week, day, st, n)
      ensures FirstFeasibleStart(groupId, subject, week, day, n, 0).None?
    {
    }

    /**
     * The check loop of tryDayConsecutivePlacement for one start index: prepares an entry per period of
     * the run and gives up at the first period without one.
     */
    method PrepareRun(groupId: string, subject: Subject, week: int, day: Day, start: nat, n: nat) returns (r: Option<seq<GeneratedEntry>>)
      requires start + n <= |PERIODS|
      ensures r.Some? <==> RunFeasible(groupId, subject, week, day, start, n)
      ensures r.Some? ==>
        (|r.value| == n && forall j :: 0 <= j < n ==> CandidateEntry(groupId, subject, RunSlot(week, day, start, j)) == Some(r.value[j]))
    {
      var consecutive := PERIODS[start..start + n];
      var temp: seq<GeneratedEntry> := [];
      var k := 0;
      while k < |consecutive|
        invariant 0 <= k <= n && |temp| == k
        invariant forall j :: 0 <= j < k ==> CandidateEntry(groupId, subject, RunSlot(week, day, start, j)) == Some(temp[j])
      {
        assert Slot(week, day, consecutive[k]) == RunSlot(week, day, start, k);
        var e := PrepareEntry(groupId, subject, Slot(week, day, consecutive[k]));
        if e.None? {
          return None;
        }
        PreparedSnoc(groupId, subject, week, day, start, temp, e.value);
        temp := temp + [e.value];
        k := k + 1;
      }
      return Some(temp);
    }

    /** One more entry prepared for the next period of a run extends the prepared prefix. */
    lemma PreparedSnoc(groupId: string, subject: Subject, week: int, day: Day, start: nat, temp: seq<GeneratedEntry>, e: GeneratedEntry)
      requires start + |temp| < |PERIODS|
      requires forall j :: 0 <= j < |temp| ==> CandidateEntry(groupId, subject, RunSlot(week, day, start, j)) == Some(temp[j])
      requires CandidateEntry(groupId, subject, RunSlot(week, day, start, |temp|)) == Some(e)
      ensures forall j :: 0 <= j < |temp| + 1 ==> CandidateEntry(groupId, subject, RunSlot(week, day, start, j)) == Some((temp + [e])[j])
    {
      forall j | 0 <= j < |temp| + 1
        ensures CandidateEntry(groupId, subject, RunSlot(week, day, start, j)) == Some((temp + [e])[j])
      {
        if j < |temp| { assert (temp + [e])[j] == temp[j]; }
      }
    }

    /** A feasible run after infeasible ones is the first; its entries are distinct and free. */
    lemma RunPlacementFacts(groupId: string, subject: Subject, week: int, day: Day, start: nat, n: nat, temp: seq<GeneratedEntry>)
      requires start + n <= |PERIODS| && |temp| == n
      requires forall j :: 0 <= j < n ==> CandidateEntry(groupId, subject, RunSlot(week, day, start, j)) == Some(temp[j])
      requires n > 0 ==> forall st :: 0 <= st < start ==> !RunFeasible(groupId, subject, week, day, st, n)
      ensures n > 0 ==> FirstFeasibleStart(groupId, subject, week, day, n, 0) == Some(start)
      ensures n > 0 ==> temp == RunEntries(groupId, subject, week, day, start, n)
      ensures n == 0 ==> GroupSlotsOf(groupId, temp) == {} && temp == []
      ensures SlotsDistinct(temp) && AllFree(temp, teacherSchedule, classroomSchedule)
      ensures GroupPairs(temp) && Unused(temp, groupId, usedSlots) && CalendarOk(temp, holidays, scheduleRequests, dateOf)
      ensures InWeekDays(temp, week, [day], {subject.id})
    {
      RunIsFirst(groupId, subject, week, day, start, n, temp);
      RunSlotFacts(groupId, subject, week, day, start, n, temp);
      RunReady(temp, groupId, subject.id, week, day, start, teacherSchedule, classroomSchedule, usedSlots,
               holidays, scheduleRequests, dateOf);
    }

    /** A feasible run after infeasible ones is the first, and the entries prepared for it are its entries. */
    lemma RunIsFirst(groupId: string, subject: Subject, week: int, day: Day, start: nat, n: nat, temp: seq<GeneratedEntry>)
      requires start + n <= |PERIODS| && |temp| == n
      requires forall j :: 0 <= j < n ==> CandidateEntry(groupId, subject, RunSlot(week, day, start, j)) == Some(temp[j])
      requires n > 0 ==> forall st :: 0 <= st < start ==> !RunFeasible(groupId, subject, week, day, st, n)
      ensures n > 0 ==> FirstFeasibleStart(groupId, subject, week, day, n, 0) == Some(start)
      ensures n > 0 ==> temp == RunEntries(groupId, subject, week, day, start, n)
    {
      assert RunFeasible(groupId, subject, week, day, start, n);
      if n > 0 {
        var r := RunEntries(groupId, subject, week, day, start, n);
        assert forall k :: 0 <= k < n ==> r[k] == temp[k];
      }
    }

    /** Each entry prepared for a run sits at its slot of the run, of the subject, on free and allowed ground. */
    lemma RunSlotFacts(groupId: string, subject: Subject, week: int, day: Day, start: nat, n: nat, temp: seq<GeneratedEntry>)
      requires start + n <= |PERIODS| && |temp| == n
      requires forall j :: 0 <= j < n ==> CandidateEntry(groupId, subject, RunSlot(week, day, start, j)) == Some(temp[j])
      ensures forall j :: 0 <= j < n ==> RunEntryOk(temp[j], groupId, subject.id, RunSlot(week, day, start, j), teacherSchedule,
                                                   classroomSchedule, usedSlots, holidays, scheduleRequests, dateOf)
    {
      forall j | 0 <= j < n
        ensures RunEntryOk(temp[j], groupId, subject.id, RunSlot(week, day, start, j), teacherSchedule,
                           classroomSchedule, usedSlots, holidays, scheduleRequests, dateOf)
      {
        CandidateFacts(groupId, subject, RunSlot(week, day, start, j));
      }
    }

    /**
     * The pair of entries placeComboClass places at a slot, in the state it starts from: teacher 1 not
     * booked elsewhere, a teacher for subject 2 different from teacher 1, a classroom for subject 1, and,
     * with that classroom booked, a different classroom for subject 2. Both names get " [コンビ]".
     */
    function ComboEntries(groupId: string, s1: Subject, s2: Subject, t1: Teacher, s: Slot): Option<(GeneratedEntry, GeneratedEntry)>
      reads this
    {
      match ComboTeacherAndRoom(s1, s2, t1, s)
      case None => None
      case Some((t2, c1)) => ComboSecondRoom(groupId, s1, s2, t1, t2, c1, s)
    }

    /** The checks of placeComboClass before it books anything: the second teacher and the first classroom. */
    function ComboTeacherAndRoom(s1: Subject, s2: Subject, t1: Teacher, s: Slot): Option<(Teacher, Classroom)>
      reads this
    {
      if IsTeacherBusyGlobally(t1.id, s) then None
      else match FirstAvailableTeacher(teachers, s2, s, teacherSchedule, usedSlots)
        case None => None
        case Some(t2) =>
          if t1.id == t2.id then None
          else match FirstFreeClassroom(classrooms, s1, s, classroomSchedule)
            case None => None
            case Some(c1) => Some((t2, c1))
    }

    /** The rest of placeComboClass: with the first classroom booked, a different classroom for subject 2. */
    function ComboSecondRoom(groupId: string, s1: Subject, s2: Subject, t1: Teacher, t2: Teacher, c1: Classroom, s: Slot): Option<(GeneratedEntry, GeneratedEntry)>
      reads this
    {
      match FirstFreeClassroom(classrooms, s2, s, AddBooking(classroomSchedule, c1.id, s))
      case None => None
      case Some(c2) =>
        if c2.id == c1.id then None
        else
          var date := dateOf(s.week, s.day);
          Some((MakeEntry(groupId, s1, s1.name + " [コンビ]", s, date, t1, c1),
                MakeEntry(groupId, s2, s2.name + " [コンビ]", s, date, t2, c2)))
    }

    /**
     * A combo pair sits at the slot with teacher 1 on subject 1 and an acceptable teacher of subject 2
     * on subject 2; the teachers differ, the classrooms differ, and all four were free. The second
     * classroom test of placeComboClass never fires: with the first classroom booked, the search for the
     * second cannot return it.
     */
    lemma ComboFacts(groupId: string, s1: Subject, s2: Subject, t1: Teacher, s: Slot)
      ensures ComboEntries(groupId, s1, s2, t1, s).Some? ==>
        var (e1, e2) := ComboEntries(groupId, s1, s2, t1, s).value;
        SlotOf(e1) == s && SlotOf(e2) == s && e1.subjectId == s1.id && e2.subjectId == s2.id
        && e1.teacherId == t1.id && e2.teacherId in s2.teacherIds && e1.teacherId != e2.teacherId
        && e1.classroomId != e2.classroomId
        && s !in Slots(teacherSchedule, e1.teacherId) && s !in Slots(teacherSchedule, e2.teacherId)
        && s !in Slots(classroomSchedule, e1.classroomId) && s !in Slots(classroomSchedule, e2.classroomId)
      ensures forall c1: Classroom :: FirstFreeClassroom(classrooms, s2, s, AddBooking(classroomSchedule, c1.id, s)).Some? ==>
        FirstFreeClassroom(classrooms, s2, s, AddBooking(classroomSchedule, c1.id, s)).value.id != c1.id
    {
      FirstAvailableTeacherCorrect(teachers, s2, s, teacherSchedule, usedSlots);
      FirstFreeClassroomCorrect(classrooms, s1, s, classroomSchedule);
      forall c1: Classroom
        ensures FirstFreeClassroom(classrooms, s2, s, AddBooking(classroomSchedule, c1.id, s)).Some? ==>
          FirstFreeClassroom(classrooms, s2, s, AddBooking(classroomSchedule, c1.id, s)).value.id != c1.id
      {
        FirstFreeClassroomCorrect(classrooms, s2, s, AddBooking(classroomSchedule, c1.id, s));
      }
    }

    /**
     * placeComboClass: books the first classroom before searching for the second and takes that booking
     * back when the second is missing. On success both entries are appended, the group's slot is
     * marked, both teachers and the second classroom are booked; on failure only the classroom map may
     * differ, and then only by an empty set left for the first classroom.
     */
    method PlaceComboClass(group: Group, s1: Subject, s2: Subject, t1: Teacher, s: Slot, schedule: seq<GeneratedEntry>)
      returns (success: bool, schedule': seq<GeneratedEntry>)
      requires Valid()
      modifies this
      ensures Valid() && ConfigUnchanged()
      ensures success <==> old(ComboEntries(group.id, s1, s2, t1, s)).Some?
      ensures success ==>
        var (e1, e2) := old(ComboEntries(group.id, s1, s2, t1, s)).value;
        schedule' == schedule + [e1, e2] && placed == old(placed) + [e1, e2]
        && usedSlots == old(usedSlots) + {GroupSlot(group.id, s)}
        && teacherSchedule == BookTeachers(old(teacherSchedule), [e1, e2])
        && classroomSchedule == BookClassrooms(old(classroomSchedule), [e1, e2])
      ensures !success ==>
        schedule' == schedule && placed == old(placed) && usedSlots == old(usedSlots)
        && teacherSchedule == old(teacherSchedule)
        && forall x :: Slots(classroomSchedule, x) == Slots(old(classroomSchedule), x)
    {
      var tc := PickComboTeacherAndRoom(s1, s2, t1, s);
      if tc.None? {
        return false, schedule;
      }
      var (t2, c1) := tc.value;
      FirstAvailableTeacherCorrect(teachers, s2, s, teacherSchedule, usedSlots);
      FirstFreeClassroomCorrect(classrooms, s1, s, classroomSchedule);
      success, schedule' := CompleteComboClass(group, s1, s2, t1, t2, c1, s, schedule);
    }

    /** The first four checks of placeComboClass, each an early failure. */
    method PickComboTeacherAndRoom(s1: Subject, s2: Subject, t1: Teacher, s: Slot) returns (r: Option<(Teacher, Classroom)>)
      ensures r == ComboTeacherAndRoom(s1, s2, t1, s)
    {
      if IsTeacherBusyGlobally(t1.id, s) {
        return None;
      }
      var t2 := GetAvailableTeacher(s2, s);
      if t2.None? {
        return None;
      }
      if t1.id == t2.value.id {
        return None;
      }
      var c1 := GetAvailableClassroom(s1, s);
      if c1.None? {
        return None;
      }
      return Some((t2.value, c1.value));
    }

    /**
     * The second half of placeComboClass: books the first classroom, searches for the second, and
     * either takes the booking back or places and books both entries.
     */
    method CompleteComboClass(group: Group, s1: Subject, s2: Subject, t1: Teacher, t2: Teacher, c1: Classroom, s: Slot, schedule: seq<GeneratedEntry>)
      returns (success: bool, schedule': seq<GeneratedEntry>)
      requires Valid() && t1.id != t2.id
      requires s !in Slots(teacherSchedule, t1.id) && s !in Slots(teacherSchedule, t2.id) && s !in Slots(classroomSchedule, c1.id)
      modifies this
      ensures Valid() && ConfigUnchanged()
      ensures success <==> old(ComboSecondRoom(group.id, s1, s2, t1, t2, c1, s)).Some?
      ensures success ==>
        var (e1, e2) := old(ComboSecondRoom(group.id, s1, s2, t1, t2, c1, s)).value;
        schedule' == schedule + [e1, e2] && placed == old(placed) + [e1, e2]
        && usedSlots == old(usedSlots) + {GroupSlot(group.id, s)}
        && teacherSchedule == BookTeachers(old(teacherSchedule), [e1, e2])
        && classroomSchedule == BookClassrooms(old(classroomSchedule), [e1, e2])
      ensures !success ==>
        schedule' == schedule && placed == old(placed) && usedSlots == old(usedSlots)
        && teacherSchedule == old(teacherSchedule)
        && forall x :: Slots(classroomSchedule, x) == Slots(old(classroomSchedule), x)
    {
      ghost var cmap0 := classroomSchedule;
      AddToClassroomSchedule(c1.id, s);
      var c2 := GetAvailableClassroom(s2, s);
      if c2.None? || c2.value.id == c1.id {
        RemoveFromClassroomSchedule(c1.id, s);
        RollbackRestores(cmap0, c1.id, s);
        return false, schedule;
      }
      FirstFreeClassroomCorrect(classrooms, s2, s, classroomSchedule);
      var date := dateOf(s.week, s.day);
      var e1 := MakeEntry(group.id, s1, s1.name + " [コンビ]", s, date, t1, c1);
      var e2 := MakeEntry(group.id, s2, s2.name + " [コンビ]", s, date, t2, c2.value);
      BookComboPair(group.id, e1, e2, cmap0);
      return true, schedule + [e1, e2];
    }

    /**
     * The bookings placeComboClass makes on success, the first classroom already booked on top of
     * `cmap0`: the group's slot, both teachers, then the second classroom.
     */
    method BookComboPair(groupId: string, e1: GeneratedEntry, e2: GeneratedEntry, ghost cmap0: Bookings)
      requires Booked(placed, teacherSchedule, cmap0) && NoDoubleBooking(placed)
      requires classroomSchedule == AddBooking(cmap0, e1.classroomId, SlotOf(e1))
      requires SlotOf(e1) == SlotOf(e2) && e1.teacherId != e2.teacherId && e1.classroomId != e2.classroomId
      requires SlotOf(e1) !in Slots(teacherSchedule, e1.teacherId) && SlotOf(e1) !in Slots(teacherSchedule, e2.teacherId)
      requires SlotOf(e1) !in Slots(cmap0, e1.classroomId) && SlotOf(e1) !in Slots(classroomSchedule, e2.classroomId)
      modifies this
      ensures Valid() && ConfigUnchanged() && placed == old(placed) + [e1, e2]
      ensures usedSlots == old(usedSlots) + {GroupSlot(groupId, SlotOf(e1))}
      ensures teacherSchedule == BookTeachers(old(teacherSchedule), [e1, e2])
      ensures classroomSchedule == BookClassrooms(cmap0, [e1, e2])
    {
      BookedPair(placed, e1, e2, teacherSchedule, cmap0);
      BookPair(teacherSchedule, cmap0, e1, e2);
      placed := placed + [e1, e2];
      usedSlots := usedSlots + {GroupSlot(groupId, SlotOf(e1))};
      BookPairResources(e1, e2);
    }

    /** The teacher bookings of a combo pair, then the second classroom's (the first is already booked). */
    method BookPairResources(e1: GeneratedEntry, e2: GeneratedEntry)
      modifies this
      ensures teacherSchedule == AddBooking(AddBooking(old(teacherSchedule), e1.teacherId, SlotOf(e1)), e2.teacherId, SlotOf(e2))
      ensures classroomSchedule == AddBooking(old(classroomSchedule), e2.classroomId, SlotOf(e2))
      ensures usedSlots == old(usedSlots) && placed == old(placed) && ConfigUnchanged()
    {
      AddToTeacherSchedule(e1.teacherId, SlotOf(e1));
      AddToTeacherSchedule(e2.teacherId, SlotOf(e2));
      AddToClassroomSchedule(e2.classroomId, SlotOf(e2));
    }

    /**
     * The outcome of one slot of the normal placement. Without a combo partner: an entry is placed
     * exactly when the slot checks, the teacher search and the classroom search all succeed, and it is
     * the entry prepared from the state before. With one: a pair is placed exactly when a teacher is
     * found and placeComboClass succeeds with that teacher. A failure changes nothing but may leave an
     * empty classroom record.
     */
    twostate predicate PlacedAt(groupId: string, subject: Subject, combo: Option<Subject>, s: Slot, ok: bool,
                                schedule: seq<GeneratedEntry>, schedule': seq<GeneratedEntry>)
      reads this
    {
      && (combo.None? ==> (ok <==> old(CandidateEntry(groupId, subject, s)).Some?))
      && (combo.None? && ok ==> schedule' == schedule + [old(CandidateEntry(groupId, subject, s)).value])
      && (combo.Some? ==>
           (ok <==> old(CandidateTeacher(groupId, subject, s)).Some?
                    && old(ComboEntries(groupId, subject, combo.value, CandidateTeacher(groupId, subject, s).value, s)).Some?))
      && (combo.Some? && ok ==>
           var (e1, e2) := old(ComboEntries(groupId, subject, combo.value, CandidateTeacher(groupId, subject, s).value, s)).value;
           schedule' == schedule + [e1, e2])
      && (!ok ==>
           schedule' == schedule && usedSlots == old(usedSlots) && teacherSchedule == old(teacherSchedule)
           && forall x :: Slots(classroomSchedule, x) == Slots(old(classroomSchedule), x))
    }

    /**
     * The body of the period loop of generateGroupSchedule for one slot: the teacher checks, then either
     * a plain entry with getAvailableClassroom or placeComboClass with the combo partner.
     */
    method TryPlaceAt(group: Group, subject: Subject, combo: Option<Subject>, s: Slot, schedule: seq<GeneratedEntry>)
      returns (ok: bool, schedule': seq<GeneratedEntry>)
      requires GroupInv(group.id, schedule)
      modifies this
      ensures GroupInv(group.id, schedule') && Extends(schedule, schedule')
      ensures |schedule'| == |schedule| + (if !ok then 0 else if combo.Some? then 2 else 1)
      ensures InWeekDays(schedule'[|schedule|..], s.week, [s.day], SubjectIds(subject, combo))
      ensures PlacedAt(group.id, subject, combo, s, ok, schedule, schedule')
    {
      var t := PrepareTeacher(group.id, subject, s);
      if t.None? {
        return false, schedule;
      }
      if combo.None? {
        ok, schedule' := PlaceSingle(group, subject, t.value, s, schedule);
      } else {
        ok, schedule' := PlaceComboAt(group, subject, combo.value, t.value, s, schedule);
      }
    }

    /** The non-combo branch: getAvailableClassroom, then the entry is appended and booked. */
    method PlaceSingle(group: Group, subject: Subject, t: Teacher, s: Slot, schedule: seq<GeneratedEntry>)
      returns (ok: bool, schedule': seq<GeneratedEntry>)
      requires GroupInv(group.id, schedule) && CandidateTeacher(group.id, subject, s) == Some(t)
      modifies this
      ensures GroupInv(group.id, schedule') && Extends(schedule, schedule')
      ensures ok <==> old(CandidateEntry(group.id, subject, s)).Some?
      ensures ok ==> schedule' == schedule + [old(CandidateEntry(group.id, subject, s)).value]
      ensures !ok ==> schedule' == schedule && unchanged(this)
      ensures InWeekDays(schedule'[|schedule|..], s.week, [s.day], SubjectIds(subject, None))
    {
      CandidateFacts(group.id, subject, s);
      var c := GetAvailableClassroom(subject, s);
      if c.None? {
        return false, schedule;
      }
      var e := MakeEntry(group.id, subject, subject.name, s, dateOf(s.week, s.day), t, c.value);
      Book(group.id, e);
      SingleSlots(group.id, e);
      GroupAppend(group.id, schedule, [e], logBase, old(placed), placed, old(usedSlots), usedSlots,
                  holidays, scheduleRequests, dateOf);
      assert (schedule + [e])[|schedule|..] == [e];
      return true, schedule + [e];
    }

    /** The combo branch: placeComboClass with the teacher found for the slot. */
    method PlaceComboAt(group: Group, subject: Subject, combo: Subject, t: Teacher, s: Slot, schedule: seq<GeneratedEntry>)
      returns (ok: bool, schedule': seq<GeneratedEntry>)
      requires GroupInv(group.id, schedule) && CandidateTeacher(group.id, subject, s) == Some(t)
      modifies this
      ensures GroupInv(group.id, schedule') && Extends(schedule, schedule')
      ensures ok <==> old(ComboEntries(group.id, subject, combo, t, s)).Some?
      ensures ok ==>
        var (e1, e2) := old(ComboEntries(group.id, subject, combo, t, s)).value;
        schedule' == schedule + [e1, e2]
      ensures !ok ==>
        schedule' == schedule && usedSlots == old(usedSlots) && teacherSchedule == old(teacherSchedule)
        && forall x :: Slots(classroomSchedule, x) == Slots(old(classroomSchedule), x)
      ensures InWeekDays(schedule'[|schedule|..], s.week, [s.day], SubjectIds(subject, Some(combo)))
    {
      ghost var pair := ComboEntries(group.id, subject, combo, t, s);
      if pair.Some? {
        ComboPairReady(group.id, subject, combo, t, s);
      }
      ok, schedule' := PlaceComboClass(group, subject, combo, t, s, schedule);
      if ok {
        ghost var (e1, e2) := pair.value;
        GroupAppend(group.id, schedule, [e1, e2], logBase, old(placed), placed, old(usedSlots), usedSlots,
                    holidays, scheduleRequests, dateOf);
        assert (schedule + [e1, e2])[|schedule|..] == [e1, e2];
      }
    }

    /** The pair placeComboClass would place at a slot whose checks passed can join the group's timetable. */
    lemma ComboPairReady(groupId: string, subject: Subject, combo: Subject, t: Teacher, s: Slot)
      requires CandidateTeacher(groupId, subject, s) == Some(t) && ComboEntries(groupId, subject, combo, t, s).Some?
      ensures var (e1, e2) := ComboEntries(groupId, subject, combo, t, s).value;
        GroupPairs([e1, e2]) && Unused([e1, e2], groupId, usedSlots)
        && CalendarOk([e1, e2], holidays, scheduleRequests, dateOf)
        && GroupSlotsOf(groupId, [e1, e2]) == {GroupSlot(groupId, s)}
        && InWeekDays([e1, e2], s.week, [s.day], SubjectIds(subject, Some(combo)))
    {
      ComboFacts(groupId, subject, combo, t, s);
      var (e1, e2) := ComboEntries(groupId, subject, combo, t, s).value;
      assert GroupSlot(groupId, s) !in usedSlots && !IsHoliday(s.week, s.day) && !RequestViolated(s);
      PairSlots(groupId, e1, e2, s, SubjectIds(subject, Some(combo)), usedSlots, holidays, scheduleRequests, dateOf);
    }

    /**
     * The normal placement on one day: the periods in calculatePeriodPriority order, with the
     * early-finish draw for that day, computed from the state the day starts in.
     */
    method FillDay(group: Group, subject: Subject, combo: Option<Subject>, week: int, day: Day, target: int,
                   placed0: nat, schedule: seq<GeneratedEntry>)
      returns (weeklyPlaced: nat, schedule': seq<GeneratedEntry>)
      requires GroupInv(group.id, schedule)
      modifies this
      ensures GroupInv(group.id, schedule') && Extends(schedule, schedule')
      ensures placed0 <= weeklyPlaced && (weeklyPlaced > placed0 ==> weeklyPlaced <= target)
      ensures |schedule'| == |schedule| + SessionEntries(weeklyPlaced - placed0, combo)
      ensures InWeekDays(schedule'[|schedule|..], week, [day], SubjectIds(subject, combo))
    {
      var periodPriority := CalculatePeriodPriority(usedSlots, group.id, week, day, earlyFinishDraw(group.id, week, day));
      weeklyPlaced, schedule' := FillPeriods(group, subject, combo, week, day, periodPriority, target, placed0, schedule);
    }

    /**
     * The period loop: each period of the day in the given order, stopping once the week's target is
     * reached; each success counts one session, a combo pair too.
     */
    method FillPeriods(group: Group, subject: Subject, combo: Option<Subject>, week: int, day: Day, periods: seq<Period>,
                       target: int, placed0: nat, schedule: seq<GeneratedEntry>)
      returns (weeklyPlaced: nat, schedule': seq<GeneratedEntry>)
      requires GroupInv(group.id, schedule)
      modifies this
      ensures GroupInv(group.id, schedule') && Extends(schedule, schedule')
      ensures placed0 <= weeklyPlaced && (weeklyPlaced > placed0 ==> weeklyPlaced <= target)
      ensures |schedule'| == |schedule| + SessionEntries(weeklyPlaced - placed0, combo)
      ensures InWeekDays(schedule'[|schedule|..], week, [day], SubjectIds(subject, combo))
    {
      weeklyPlaced, schedule' := placed0, schedule;
      ghost var added: seq<GeneratedEntry> := [];
      var k := 0;
      while k < |periods| && weeklyPlaced < target
        invariant 0 <= k <= |periods|
        invariant GroupInv(group.id, schedule') && Extends(schedule, schedule')
        invariant placed0 <= weeklyPlaced && (weeklyPlaced > placed0 ==> weeklyPlaced <= target)
        invariant |schedule'| == |schedule| + SessionEntries(weeklyPlaced - placed0, combo)
        invariant schedule' == schedule + added && InWeekDays(added, week, [day], SubjectIds(subject, combo))
      {
        var before := schedule';
        var ok;
        ok, schedule' := TryPlaceAt(group, subject, combo, Slot(week, day, periods[k]), before);
        ExtendOnDays(schedule, before, schedule', added, week, [day], SubjectIds(subject, combo));
        added := added + schedule'[|before|..];
        if ok {
          weeklyPlaced := weeklyPlaced + 1;
        }
        k := k + 1;
      }
      assert schedule'[|schedule|..] == added;
    }

    /**
     * The day loop of the normal placement: days in calculateDayPriority order, computed once from the
     * state after the consecutive attempt, until the week's target is reached.
     */
    method FillWeek(group: Group, subject: Subject, combo: Option<Subject>, week: int, days: seq<Day>, target: int,
                    placed0: nat, schedule: seq<GeneratedEntry>)
      returns (weeklyPlaced: nat, schedule': seq<GeneratedEntry>)
      requires GroupInv(group.id, schedule)
      modifies this
      ensures GroupInv(group.id, schedule') && Extends(schedule, schedule')
      ensures placed0 <= weeklyPlaced && (weeklyPlaced > placed0 ==> weeklyPlaced <= target)
      ensures |schedule'| == |schedule| + SessionEntries(weeklyPlaced - placed0, combo)
      ensures InWeekDays(schedule'[|schedule|..], week, days, SubjectIds(subject, combo))
    {
      var dayPriority := CalculateDayPriority(usedSlots, group.id, week, days);
      DayPriorityCorrect(usedSlots, group.id, week, days);
      forall d | d in dayPriority ensures d in days {
        assert d in multiset(dayPriority);
      }
      weeklyPlaced, schedule' := FillDays(group, subject, combo, week, days, dayPriority, target, placed0, schedule);
    }

    /** The loop over the days in priority order, each of them one of the subject's days. */
    method FillDays(group: Group, subject: Subject, combo: Option<Subject>, week: int, days: seq<Day>, order: seq<Day>,
                    target: int, placed0: nat, schedule: seq<GeneratedEntry>)
      returns (weeklyPlaced: nat, schedule': seq<GeneratedEntry>)
      requires GroupInv(group.id, schedule) && forall d :: d in order ==> d in days
      modifies this
      ensures GroupInv(group.id, schedule') && Extends(schedule, schedule')
      ensures placed0 <= weeklyPlaced && (weeklyPlaced > placed0 ==> weeklyPlaced <= target)
      ensures |schedule'| == |schedule| + SessionEntries(weeklyPlaced - placed0, combo)
      ensures InWeekDays(schedule'[|schedule|..], week, days, SubjectIds(subject, combo))
    {
      ghost var ids := SubjectIds(subject, combo);
      weeklyPlaced, schedule' := placed0, schedule;
      ghost var added: seq<GeneratedEntry> := [];
      var i := 0;
      while i < |order| && weeklyPlaced < target
        invariant 0 <= i <= |order|
        invariant GroupInv(group.id, schedule') && Extends(schedule, schedule')
        invariant placed0 <= weeklyPlaced && (weeklyPlaced > placed0 ==> weeklyPlaced <= target)
        invariant |schedule'| == |schedule| + SessionEntries(weeklyPlaced - placed0, combo)
        invariant schedule' == schedule + added && InWeekDays(added, week, days, ids)
      {
        var before := schedule';
        var dayPlaced;
        dayPlaced, schedule' := FillDay(group, subject, combo, week, order[i], target, weeklyPlaced, before);
        InWeekDaysWiden(schedule'[|before|..], week, [order[i]], days, ids, ids);
        ExtendOnDays(schedule, before, schedule', added, week, days, ids);
        added := added + schedule'[|before|..];
        weeklyPlaced := dayPlaced;
        i := i + 1;
      }
      assert schedule'[|schedule|..] == added;
    }

    /** The consecutive attempt of a week, with two sessions: it places none or both, a combo never. */
    method ConsecutiveAttempt(group: Group, subject: Subject, week: int, days: seq<Day>, schedule: seq<GeneratedEntry>)
      returns (count: nat, schedule': seq<GeneratedEntry>)
      requires GroupInv(group.id, schedule)
      modifies this
      ensures GroupInv(group.id, schedule') && Extends(schedule, schedule')
      ensures count == 0 || (count == 2 && subject.lessonType != ComboLesson)
      ensures |schedule'| == |schedule| + count && InWeekDays(schedule'[|schedule|..], week, days, {subject.id})
    {
      count, schedule' := TryConsecutivePlacement(group, subject, week, days, 2, schedule);
    }

    /**
     * One week of a subject: the consecutive attempt with two sessions, then the normal placement when
     * that left the week below its target. The consecutive attempt counts 0 or 2 sessions; the normal
     * placement never takes the week past its target.
     */
    method ScheduleWeek(group: Group, subject: Subject, combo: Option<Subject>, week: int, days: seq<Day>, target: int,
                        schedule: seq<GeneratedEntry>)
      returns (weekly: nat, schedule': seq<GeneratedEntry>)
      requires GroupInv(group.id, schedule)
      requires combo.Some? ==> subject.lessonType == ComboLesson
      modifies this
      ensures GroupInv(group.id, schedule') && Extends(schedule, schedule')
      ensures weekly == 0 || weekly == 2 || weekly <= target
      ensures |schedule'| == |schedule| + SessionEntries(weekly, combo)
      ensures InWeekDays(schedule'[|schedule|..], week, days, SubjectIds(subject, combo))
    {
      var consecutive, s1 := ConsecutiveAttempt(group, subject, week, days, schedule);
      InWeekDaysWiden(s1[|schedule|..], week, days, days, {subject.id}, SubjectIds(subject, combo));
      weekly, schedule' := consecutive, s1;
      if weekly < target {
        weekly, schedule' := FillWeek(group, subject, combo, week, days, target, consecutive, s1);
        ExtendOnDays(schedule, s1, schedule', s1[|schedule|..], week, days, SubjectIds(subject, combo));
        assert schedule' == schedule + (s1[|schedule|..] + schedule'[|s1|..]);
        assert schedule'[|schedule|..] == s1[|schedule|..] + schedule'[|s1|..];
      }
    }

    /**
     * The subject loop body of generateGroupSchedule. A combo subject already placed as a partner is
     * skipped. Otherwise the week loop runs while weeks and the total (16 when totalClasses is 0) last;
     * a week whose share of calculateWeeklyDistribution is 0 is skipped. Every entry falls in the
     * semester's weeks on the subject's days (Monday and Friday for a subject of 木下). The count can
     * pass the total by one, because the consecutive attempt always asks for two sessions.
     */
    method ScheduleSubject(group: Group, subject: Subject, weeks: nat, baseDays: seq<Day>, kinoshita: seq<string>,
                           processed: set<string>, schedule: seq<GeneratedEntry>)
      returns (processed': set<string>, sessions: nat, schedule': seq<GeneratedEntry>)
      requires GroupInv(group.id, schedule)
      modifies this
      ensures GroupInv(group.id, schedule') && Extends(schedule, schedule')
      ensures InWeeks(schedule'[|schedule|..], 1, weeks, SubjectDays(subject, baseDays, kinoshita), SubjectIds(subject, ComboPartner(subjects, subject)))
      ensures subject.lessonType == ComboLesson && subject.id in processed ==>
        sessions == 0 && processed' == processed && schedule' == schedule && unchanged(this)
      ensures sessions == 0 || sessions <= TotalSessions(subject) + 1
      ensures |schedule'| == |schedule| + SessionEntries(sessions, ComboPartner(subjects, subject))
      ensures processed' == processed
        || (ComboPartner(subjects, subject).Some?
            && processed' == processed + {subject.id, ComboPartner(subjects, subject).value.id})
    {
      if subject.lessonType == ComboLesson && subject.id in processed {
        return processed, 0, schedule;
      }
      var total := TotalSessions(subject);
      var combo := ComboPartner(subjects, subject);
      var distribution := CalculateWeeklyDistribution(total, weeks, 2);
      DistributionBounded(total, weeks, 2);
      var days := SubjectDays(subject, baseDays, kinoshita);
      processed', sessions, schedule' := ScheduleWeeks(group, subject, combo, days, distribution, total, processed, schedule);
    }

    /** The week loop of a subject, over the weekly shares of its total. */
    method ScheduleWeeks(group: Group, subject: Subject, combo: Option<Subject>, days: seq<Day>, distribution: seq<int>,
                         total: int, processed: set<string>, schedule: seq<GeneratedEntry>)
      returns (processed': set<string>, sessions: nat, schedule': seq<GeneratedEntry>)
      requires GroupInv(group.id, schedule)
      requires combo.Some? ==> subject.lessonType == ComboLesson
      requires forall i :: 0 <= i < |distribution| ==> 0 <= distribution[i] <= 2
      modifies this
      ensures GroupInv(group.id, schedule') && Extends(schedule, schedule')
      ensures InWeeks(schedule'[|schedule|..], 1, |distribution|, days, SubjectIds(subject, combo))
      ensures sessions == 0 || sessions <= total + 1
      ensures |schedule'| == |schedule| + SessionEntries(sessions, combo)
      ensures processed' == processed || (combo.Some? && processed' == processed + {subject.id, combo.value.id})
    {
      processed', sessions, schedule' := processed, 0, schedule;
      ghost var added: seq<GeneratedEntry> := [];
      var week := 1;
      while week <= |distribution| && sessions < total
        invariant 1 <= week <= |distribution| + 1
        invariant GroupInv(group.id, schedule') && Extends(schedule, schedule')
        invariant sessions == 0 || sessions <= total + 1
        invariant |schedule'| == |schedule| + SessionEntries(sessions, combo)
        invariant schedule' == schedule + added && InWeeks(added, 1, week - 1, days, SubjectIds(subject, combo))
        invariant processed' == processed || (combo.Some? && processed' == processed + {subject.id, combo.value.id})
      {
        var target := distribution[week - 1];
        if target != 0 {
          var before := schedule';
          var weekly;
          weekly, schedule' := ScheduleWeek(group, subject, combo, week, days, target, before);
          ExtendInWeeks(schedule, before, schedule', added, week, days, SubjectIds(subject, combo));
          added := added + schedule'[|before|..];
          sessions := sessions + weekly;
          if combo.Some? && weekly > 0 {
            processed' := processed' + {subject.id, combo.value.id};
          }
        } else {
          InWeeksWiden(added, week, days, SubjectIds(subject, combo));
        }
        week := week + 1;
      }
      assert schedule'[|schedule|..] == added;
    }

    /**
     * generateGroupSchedule: the subjects relevant to the group in list order, with a set of combo
     * subjects already placed. The ghost `owners` names, for each entry, the subject whose placement
     * added it: a relevant subject, the entry being of it or of its combo partner, within the weeks
     * and on that subject's days.
     */
    method GenerateGroupSchedule(group: Group, weeks: nat, avoidMonday: bool)
      returns (schedule: seq<GeneratedEntry>, ghost owners: seq<Subject>)
      requires Valid()
      modifies this
      ensures GroupInv(group.id, schedule) && placed == old(placed) + schedule && RunConfigUnchanged()
      ensures Owned(schedule, owners, subjects, RelevantSubjects(subjects, group), weeks, BaseDays(avoidMonday),
                    KinoshitaSubjects(subjects, teachers))
    {
      logBase := placed;
      schedule, owners := ScheduleSubjects(group, RelevantSubjects(subjects, group), weeks, BaseDays(avoidMonday),
                                           KinoshitaSubjects(subjects, teachers));
    }

    /** The subject loop of generateGroupSchedule. */
    method ScheduleSubjects(group: Group, relevant: seq<Subject>, weeks: nat, baseDays: seq<Day>, kinoshita: seq<string>)
      returns (schedule: seq<GeneratedEntry>, ghost owners: seq<Subject>)
      requires Valid() && placed == logBase
      modifies this
      ensures GroupInv(group.id, schedule) && Extends([], schedule)
      ensures Owned(schedule, owners, subjects, relevant, weeks, baseDays, kinoshita)
    {
      var processed: set<string> := {};
      schedule, owners := [], [];
      assert placed == logBase + schedule;
      var i := 0;
      while i < |relevant|
        invariant 0 <= i <= |relevant|
        invariant GroupInv(group.id, schedule) && Extends([], schedule)
        invariant Owned(schedule, owners, subjects, relevant, weeks, baseDays, kinoshita)
      {
        var before := schedule;
        var sessions;
        processed, sessions, schedule := ScheduleSubject(group, relevant[i], weeks, baseDays, kinoshita, processed, before);
        OwnedExtend(before, owners, schedule, relevant[i], subjects, relevant, weeks, baseDays, kinoshita);
        owners := owners + seq(|schedule| - |before|, _ => relevant[i]);
        i := i + 1;
      }
    }

    /**
     * generateSchedule: installs the holidays and schedule requests (none when absent), empties the
     * shared teacher and classroom maps, and fills the four groups in order, emptying usedSlots before
     * each. Across all groups no teacher and no classroom has two entries at one slot; within a group
     * two entries share a slot only as an adjacent combo pair, and none falls on a holiday or in a
     * period a request forbids.
     */
    method GenerateSchedule(weeks: nat, avoidMonday: bool, holidayList: Option<seq<string>>,
                            requests: Option<seq<ScheduleRequest>>, dates: (int, Day) -> string,
                            draw: (string, int, Day) -> bool)
      returns (result: map<string, seq<GeneratedEntry>>, ghost scheds: seq<seq<GeneratedEntry>>, ghost owners: seq<seq<Subject>>)
      modifies this
      ensures NoDoubleBooking(Concat(scheds)) && Valid() && placed == Concat(scheds)
      ensures holidays == (if holidayList.Some? then holidayList.value else [])
      ensures scheduleRequests == (if requests.Some? then requests.value else [])
      ensures dateOf == dates && earlyFinishDraw == draw
      ensures Recorded(result, scheds, owners, GROUPS, |GROUPS|, subjects, teachers, weeks, avoidMonday, holidays, scheduleRequests, dateOf)
    {
      Configure(if holidayList.Some? then holidayList.value else [], if requests.Some? then requests.value else [], dates, draw);
      result, scheds, owners := GenerateAllGroups(weeks, avoidMonday);
    }

    /** The start of a run: the holidays, requests, calendar and draws installed, the booking maps emptied. */
    method Configure(hs: seq<string>, reqs: seq<ScheduleRequest>, dates: (int, Day) -> string, draw: (string, int, Day) -> bool)
      modifies this
      ensures holidays == hs && scheduleRequests == reqs && dateOf == dates && earlyFinishDraw == draw
      ensures Valid() && placed == []
    {
      holidays, scheduleRequests, dateOf, earlyFinishDraw := hs, reqs, dates, draw;
      teacherSchedule, classroomSchedule := map[], map[];
      placed := [];
    }

    /** The loop over the four groups. */
    method GenerateAllGroups(weeks: nat, avoidMonday: bool)
      returns (result: map<string, seq<GeneratedEntry>>, ghost scheds: seq<seq<GeneratedEntry>>, ghost owners: seq<seq<Subject>>)
      requires Valid() && placed == []
      modifies this
      ensures Valid() && placed == Concat(scheds) && RunConfigUnchanged()
      ensures Recorded(result, scheds, owners, GROUPS, |GROUPS|, subjects, teachers, weeks, avoidMonday, holidays, scheduleRequests, dateOf)
    {
      GroupIdsDistinct();
      result, scheds, owners := GenerateGroups(GROUPS, weeks, avoidMonday);
    }

    /** generateGroupSchedule, with its promises stated as generateSchedule relies on them. */
    method GenerateOneGroup(g: Group, weeks: nat, avoidMonday: bool) returns (sched: seq<GeneratedEntry>, ghost owners: seq<Subject>)
      requires Valid()
      modifies this
      ensures Valid() && placed == old(placed) + sched && RunConfigUnchanged()
      ensures GroupOk(sched, owners, g, subjects, teachers, weeks, avoidMonday, holidays, scheduleRequests, dateOf)
    {
      sched, owners := GenerateGroupSchedule(g, weeks, avoidMonday);
    }

    /** One round of the group loop: usedSlots emptied, the group generated and its timetable recorded. */
    method AddGroup(groups: seq<Group>, k: nat, weeks: nat, avoidMonday: bool, result: map<string, seq<GeneratedEntry>>,
                    ghost scheds: seq<seq<GeneratedEntry>>, ghost owners: seq<seq<Subject>>)
      returns (result': map<string, seq<GeneratedEntry>>, ghost scheds': seq<seq<GeneratedEntry>>, ghost owners': seq<seq<Subject>>)
      requires k < |groups| && forall i, j :: 0 <= i < j < |groups| ==> groups[i].id != groups[j].id
      requires Valid() && placed == Concat(scheds)
      requires Recorded(result, scheds, owners, groups, k, subjects, teachers, weeks, avoidMonday, holidays, scheduleRequests, dateOf)
      modifies this
      ensures Valid() && placed == Concat(scheds') && RunConfigUnchanged()
      ensures Recorded(result', scheds', owners', groups, k + 1, subjects, teachers, weeks, avoidMonday, holidays, scheduleRequests, dateOf)
    {
      usedSlots := {};
      var sched;
      ghost var groupOwners;
      sched, groupOwners := GenerateOneGroup(groups[k], weeks, avoidMonday);
      RecordedStep(result, scheds, owners, groups, k, subjects, teachers, weeks, avoidMonday, holidays, scheduleRequests, dateOf,
                   sched, groupOwners);
      ConcatSnoc(scheds, sched);
      result' := result[groups[k].id := sched];
      scheds', owners' := scheds + [sched], owners + [groupOwners];
    }

    /** The group loop of generateSchedule, from empty teacher and classroom maps. */
    method GenerateGroups(groups: seq<Group>, weeks: nat, avoidMonday: bool)
      returns (result: map<string, seq<GeneratedEntry>>, ghost scheds: seq<seq<GeneratedEntry>>, ghost owners: seq<seq<Subject>>)
      requires Valid() && placed == []
      requires forall i, j :: 0 <= i < j < |groups| ==> groups[i].id != groups[j].id
      modifies this
      ensures Valid() && placed == Concat(scheds) && RunConfigUnchanged()
      ensures Recorded(result, scheds, owners, groups, |groups|, subjects, teachers, weeks, avoidMonday, holidays, scheduleRequests, dateOf)
    {
      result, scheds, owners := map[], [], [];
      var k := 0;
      while k < |groups|
        invariant 0 <= k <= |groups|
        invariant Valid() && placed == Concat(scheds) && RunConfigUnchanged()
        invariant Recorded(result, scheds, owners, groups, k, subjects, teachers, weeks, avoidMonday, holidays, scheduleRequests, dateOf)
      {
        result, scheds, owners := AddGroup(groups, k, weeks, avoidMonday, result, scheds, owners);
        k := k + 1;
      }
      assert groups[..k] == groups;
    }

    /** getAvailableTeacher: the loop over the subject's teachers with an early return. */
    method GetAvailableTeacher(subject: Subject, s: Slot) returns (r: Option<Teacher>)
      ensures r == FirstAvailableTeacher(teachers, subject, s, teacherSchedule, usedSlots)
    {
      var cands := TeacherCandidates(teachers, subject);
      var tmap, used := teacherSchedule, usedSlots;
      ghost var q := (t: Teacher) => TeacherAcceptable(t, subject, s, tmap, used);
      var i := 0;
      while i < |cands|
        invariant 0 <= i <= |cands|
        invariant forall j :: 0 <= j < i ==> !q(cands[j])
      {
        var t := cands[i];
        if CheckTeacherConstraints(t, subject, s, tmap, used) {
          if s !in Slots(tmap, t.id) {
            assert q(cands[i]);
            FindFirstIs(cands, q, i);
            return Some(t);
          }
        }
        i := i + 1;
      }
      return None;
    }

    /** getAvailableClassroom: the loop over the allowed classrooms with an early return. */
    method GetAvailableClassroom(subject: Subject, s: Slot) returns (r: Option<Classroom>)
      ensures r == FirstFreeClassroom(classrooms, subject, s, classroomSchedule)
    {
      var cands := ClassroomCandidates(classrooms, subject);
      var cmap := classroomSchedule;
      ghost var q := (c: Classroom) => ClassroomFree(c, s, cmap);
      var i := 0;
      while i < |cands|
        invariant 0 <= i <= |cands|
        invariant forall j :: 0 <= j < i ==> !q(cands[j])
      {
        var c := cands[i];
        if s !in Slots(cmap, c.id) {
          FindFirstIs(cands, q, i);
          return Some(c);
        }
        i := i + 1;
      }
      return None;
    }
  }

  /** An index that satisfies `p` after only failures is what FindFirst returns. */
  lemma FindFirstIs<T>(s: seq<T>, p: T -> bool, i: nat)
    requires i < |s| && p(s[i]) && forall j :: 0 <= j < i ==> !p(s[j])
    ensures Sorting.FindFirst(s, p) == Some(i)
  {
  }
}
