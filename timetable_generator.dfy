/**
 * The older semester generator `TimetableGenerator`. It looks teachers, subjects and classrooms
 * up by id, fills one flat schedule subject by subject (the most constrained subjects first),
 * taking the first slot of the semester grid where the subject's first teacher and its
 * department and grade are free and one of its classrooms is unbooked, and it validates moving
 * an entry to another slot against the basic checks and the teachers' special constraints.
 */
module TimetableGenerator {
  import opened Wrappers
  import opened Strings
  import opened Types
  import Sorting

  /** `ValidationResult`: valid, or invalid with the message shown to the user. */
  datatype Validation = Valid | Invalid(message: string)

  /** `new Map(list.map(x => [x.id, x]))`: keyed by id, a later element replacing an earlier one. */
  function IndexById<T>(xs: seq<T>, idOf: T -> string): (m: map<string, T>)
    ensures forall id :: id in m ==> idOf(m[id]) == id && m[id] in xs
    ensures forall i :: 0 <= i < |xs| ==> idOf(xs[i]) in m
    ensures forall i :: 0 <= i < |xs| && (forall j :: i < j < |xs| ==> idOf(xs[j]) != idOf(xs[i])) ==> m[idOf(xs[i])] == xs[i]
  {
    if xs == [] then map[]
    else
      var m0 := IndexById(xs[..|xs| - 1], idOf);
      assert forall i :: 0 <= i < |xs| - 1 ==> xs[..|xs| - 1][i] == xs[i];
      m0[idOf(xs[|xs| - 1]) := xs[|xs| - 1]]
  }

  /** The keys of such a map in insertion order: each id where it first occurs. */
  function KeyOrder<T>(xs: seq<T>, idOf: T -> string): (ks: seq<string>)
    ensures forall i, j :: 0 <= i < j < |ks| ==> ks[i] != ks[j]
    ensures forall k :: k in ks <==> k in IndexById(xs, idOf)
  {
    if xs == [] then []
    else
      var ks0 := KeyOrder(xs[..|xs| - 1], idOf);
      var k := idOf(xs[|xs| - 1]);
      if k in ks0 then ks0 else ks0 + [k]
  }

  /** `Array.from(map.values())`: the value of every key, in insertion order of the keys. */
  function ValuesInOrder<T>(xs: seq<T>, idOf: T -> string): (vs: seq<T>)
    ensures |vs| == |KeyOrder(xs, idOf)|
    ensures forall i :: 0 <= i < |vs| ==> vs[i] == IndexById(xs, idOf)[KeyOrder(xs, idOf)[i]]
  {
    var m := IndexById(xs, idOf);
    var ks := KeyOrder(xs, idOf);
    seq(|ks|, i requires 0 <= i < |ks| => m[ks[i]])
  }

  /** The entry is on the slot's date in the slot's period. */
  predicate AtSlot(e: ScheduleEntry, slot: TimeSlot)
  {
    e.timeSlot.date == slot.date && e.timeSlot.period == slot.period
  }

  /** Both entries are on the same date in the same period. */
  predicate SameTime(a: ScheduleEntry, b: ScheduleEntry)
  {
    AtSlot(a, b.timeSlot)
  }

  /** The teacher has an entry at the slot's date and period. */
  predicate TeacherBusyIn(es: seq<ScheduleEntry>, teacherId: string, slot: TimeSlot)
  {
    exists e :: e in es && e.teacherId == teacherId && AtSlot(e, slot)
  }

  /** The department and grade already have a class at the slot's date and period. */
  predicate StudentsBusyIn(es: seq<ScheduleEntry>, dept: Department, grade: Grade, slot: TimeSlot)
  {
    exists e :: e in es && e.department == dept && e.grade == grade && AtSlot(e, slot)
  }

  /** The classroom has an entry at the slot's date and period. */
  predicate ClassroomBusyIn(es: seq<ScheduleEntry>, classroomId: string, slot: TimeSlot)
  {
    exists e :: e in es && e.classroomId == classroomId && AtSlot(e, slot)
  }

  /** No classroom holds two entries at the same date and period. */
  predicate NoClassroomClash(es: seq<ScheduleEntry>)
  {
    forall i, j :: 0 <= i < j < |es| && SameTime(es[i], es[j]) ==> es[i].classroomId != es[j].classroomId
  }

  /** An entry whose classroom is free at its slot keeps the schedule free of classroom clashes. */
  lemma AppendUnbooked(es: seq<ScheduleEntry>, e: ScheduleEntry)
    requires NoClassroomClash(es) && !ClassroomBusyIn(es, e.classroomId, e.timeSlot)
    ensures NoClassroomClash(es + [e])
  {
    var r := es + [e];
    forall i, j | 0 <= i < j < |r| && SameTime(r[i], r[j])
      ensures r[i].classroomId != r[j].classroomId
    {
      if j == |es| {
        assert r[i] in es;
      }
    }
  }

  /** The number of entries of a subject. */
  function SubjectCount(es: seq<ScheduleEntry>, subjectId: string): (n: nat)
    ensures n <= |es|
  {
    if es == [] then 0
    else SubjectCount(es[..|es| - 1], subjectId) + (if es[|es| - 1].subjectId == subjectId then 1 else 0)
  }

  lemma SubjectCountSnoc(es: seq<ScheduleEntry>, e: ScheduleEntry, subjectId: string)
    ensures SubjectCount(es + [e], subjectId) == SubjectCount(es, subjectId) + (if e.subjectId == subjectId then 1 else 0)
  {
    assert (es + [e])[..|es|] == es;
  }

  lemma {:induction false} SubjectCountConcat(es: seq<ScheduleEntry>, more: seq<ScheduleEntry>, subjectId: string)
    ensures SubjectCount(es + more, subjectId) == SubjectCount(es, subjectId) + SubjectCount(more, subjectId)
  {
    if more != [] {
      var init := more[..|more| - 1];
      SubjectCountConcat(es, init, subjectId);
      assert es + more == (es + init) + [more[|more| - 1]];
      SubjectCountSnoc(es + init, more[|more| - 1], subjectId);
      SubjectCountSnoc(init, more[|more| - 1], subjectId);
      assert init + [more[|more| - 1]] == more;
    } else {
      assert es + more == es;
    }
  }

  /**
   * What one slot of scheduleSubject's loop pushes for `subject` at `slot`: nothing unless it
   * placed, and otherwise the subject's own entry for its first teacher followed by at most one
   * entry of a known subject, all at that slot.
   */
  predicate SlotPushes(pushed: seq<ScheduleEntry>, subject: Subject, slot: TimeSlot, placed: bool, known: map<string, Subject>)
  {
    (placed <==> pushed != []) && |pushed| <= 2
    && (forall k :: 0 <= k < |pushed| ==> pushed[k].timeSlot == slot && (pushed[k].subjectId == subject.id || pushed[k].subjectId in known))
    && (placed ==> |subject.teacherIds| > 0 && pushed[0].subjectId == subject.id && pushed[0].teacherId == subject.teacherIds[0])
    && (subject.comboSubjectId != Some(subject.id) ==> SubjectCount(pushed, subject.id) == if placed then 1 else 0)
  }

  /**
   * The state of scheduleSubject's loop: the entries `added` so far sit at the given slots and
   * belong to the subject or a known subject; `scheduled` counts the subject's own placements,
   * stays within `totalClasses`, and each placement added one or two entries.
   */
  predicate Progress(added: seq<ScheduleEntry>, subject: Subject, timeSlots: seq<TimeSlot>, scheduled: int, known: map<string, Subject>)
  {
    (forall k :: 0 <= k < |added| ==> added[k].timeSlot in timeSlots && (added[k].subjectId == subject.id || added[k].subjectId in known))
    && 0 <= scheduled && (scheduled <= subject.totalClasses || scheduled == 0)
    && scheduled <= |added| <= 2 * scheduled
    && (subject.comboSubjectId != Some(subject.id) ==> SubjectCount(added, subject.id) == scheduled)
  }

  /** Trying one more slot, below the target, keeps the loop state. */
  lemma ProgressStep(added: seq<ScheduleEntry>, pushed: seq<ScheduleEntry>, subject: Subject, timeSlots: seq<TimeSlot>,
                     i: nat, scheduled: int, placed: bool, known: map<string, Subject>)
    requires Progress(added, subject, timeSlots, scheduled, known)
    requires i < |timeSlots| && scheduled < subject.totalClasses
    requires SlotPushes(pushed, subject, timeSlots[i], placed, known)
    ensures Progress(added + pushed, subject, timeSlots, if placed then scheduled + 1 else scheduled, known)
  {
    SubjectCountConcat(added, pushed, subject.id);
  }

  /** Every entry sits at one of the slots and belongs to a known subject. */
  predicate WellPlaced(es: seq<ScheduleEntry>, timeSlots: seq<TimeSlot>, known: map<string, Subject>)
  {
    forall k :: 0 <= k < |es| ==> es[k].timeSlot in timeSlots && es[k].subjectId in known
  }

  /** Appending what scheduleSubject placed for a known subject keeps every entry well placed. */
  lemma WellPlacedGrow(before: seq<ScheduleEntry>, after: seq<ScheduleEntry>, subject: Subject, timeSlots: seq<TimeSlot>,
                       scheduled: int, known: map<string, Subject>)
    requires WellPlaced(before, timeSlots, known) && subject.id in known
    requires |after| >= |before| && after[..|before|] == before
    requires Progress(after[|before|..], subject, timeSlots, scheduled, known)
    ensures WellPlaced(after, timeSlots, known)
  {
    var added := after[|before|..];
    forall k | 0 <= k < |after| ensures after[k].timeSlot in timeSlots && after[k].subjectId in known {
      if k < |before| {
        assert after[k] == after[..|before|][k];
      } else {
        assert after[k] == added[k - |before|];
      }
    }
  }

  /** Every value `Array.from(map.values())` yields is stored under its own id. */
  lemma ValuesKeyed<T>(xs: seq<T>, idOf: T -> string)
    ensures forall v :: v in ValuesInOrder(xs, idOf) ==> idOf(v) in IndexById(xs, idOf) && IndexById(xs, idOf)[idOf(v)] == v
  {
    var vs := ValuesInOrder(xs, idOf);
    forall v | v in vs ensures idOf(v) in IndexById(xs, idOf) && IndexById(xs, idOf)[idOf(v)] == v {
      var i :| 0 <= i < |vs| && vs[i] == v;
      assert KeyOrder(xs, idOf)[i] in KeyOrder(xs, idOf);
    }
  }

  /** The day constraints of a teacher let it teach on the day (`unavailableDays`, `availableDays`). */
  predicate DayAllowed(t: Teacher, day: Day)
  {
    t.constraints.None?
    || ((t.constraints.value.unavailableDays.None? || DayName(day) !in t.constraints.value.unavailableDays.value)
        && (t.constraints.value.availableDays.None? || DayName(day) in t.constraints.value.availableDays.value))
  }

  /** `dayOrder` and `periodOrder`: 月..金 as 1..5 and 1限..4限 as 1..4. */
  function DayKey(e: ScheduleEntry): int
  {
    DayIndex(e.timeSlot.day) + 1
  }

  function PeriodKey(e: ScheduleEntry): int
  {
    PeriodIndex(e.timeSlot.period) + 1
  }

  /** The comparator `key(a) - key(b)` as the relation "a may come before b". */
  function KeyLe<T>(key: T -> int): (T, T) -> bool
  {
    (a: T, b: T) => key(a) <= key(b)
  }

  lemma KeyLeTotalPreorder<T(!new)>(key: T -> int)
    ensures Sorting.TotalPreorder(KeyLe(key))
  {
  }

  function Keys<T>(s: seq<T>, key: T -> int): (ks: seq<int>)
    ensures |ks| == |s| && forall i :: 0 <= i < |s| ==> ks[i] == key(s[i])
  {
    if s == [] then [] else [key(s[0])] + Keys(s[1..], key)
  }

  /** The check loop: each key is one more than the one before it. */
  predicate StepsByOne(ks: seq<int>)
  {
    forall i :: 0 <= i < |ks| - 1 ==> ks[i + 1] == ks[i] + 1
  }

  function Range(a: int, n: nat): (r: seq<int>)
    ensures |r| == n && forall i :: 0 <= i < n ==> r[i] == a + i
  {
    seq(n, i requires 0 <= i < n => a + i)
  }

  /** The keys are n consecutive integers, each once, in some order. */
  ghost predicate IsRun(ks: seq<int>)
  {
    exists a :: multiset(ks) == multiset(Range(a, |ks|))
  }

  predicate Distinct(ks: seq<int>)
  {
    forall i, j :: 0 <= i < j < |ks| ==> ks[i] != ks[j]
  }

  predicate Ascending(ks: seq<int>)
  {
    forall i, j :: 0 <= i < j < |ks| ==> ks[i] <= ks[j]
  }

  lemma {:induction false} StepAt(ks: seq<int>, i: nat)
    requires StepsByOne(ks) && i < |ks|
    ensures ks[i] == ks[0] + i
  {
    if i > 0 {
      StepAt(ks, i - 1);
    }
  }

  /** Ascending sequences with the same elements are equal. */
  lemma {:induction false} AscendingUnique(x: seq<int>, y: seq<int>)
    requires Ascending(x) && Ascending(y) && multiset(x) == multiset(y)
    ensures x == y
  {
    assert |x| == |multiset(x)| == |multiset(y)| == |y|;
    if x != [] {
      AscendingHead(x, y);
      AscendingHead(y, x);
      TailMultiset(x, y);
      assert Ascending(x[1..]) && Ascending(y[1..]);
      AscendingUnique(x[1..], y[1..]);
      assert x == [x[0]] + x[1..] && y == [y[0]] + y[1..];
    }
  }

  /** The head of an ascending sequence is at most every element of the same multiset. */
  lemma AscendingHead(x: seq<int>, y: seq<int>)
    requires Ascending(y) && multiset(x) == multiset(y) && x != []
    ensures y != [] && y[0] <= x[0]
  {
    assert x[0] in multiset(x);
    assert x[0] in y;
    var k :| 0 <= k < |y| && y[k] == x[0];
  }

  lemma TailMultiset(x: seq<int>, y: seq<int>)
    requires multiset(x) == multiset(y) && x != [] && y != [] && x[0] == y[0]
    ensures multiset(x[1..]) == multiset(y[1..])
  {
    assert x == [x[0]] + x[1..] && y == [y[0]] + y[1..];
    assert multiset(x) == multiset{x[0]} + multiset(x[1..]);
    assert multiset(y) == multiset{x[0]} + multiset(y[1..]);
    assert multiset(x[1..]) == multiset(x) - multiset{x[0]};
    assert multiset(y[1..]) == multiset(y) - multiset{x[0]};
  }

  lemma {:induction false} InsertKeys<T>(x: T, t: seq<T>, le: (T, T) -> bool, key: T -> int)
    ensures multiset(Keys(Sorting.Insert(x, t, le), key)) == multiset(Keys(t, key)) + multiset{key(x)}
  {
    if t == [] || le(x, t[0]) {
      assert Keys([x] + t, key) == [key(x)] + Keys(t, key);
    } else {
      InsertKeys(x, t[1..], le, key);
      assert Keys([t[0]] + Sorting.Insert(x, t[1..], le), key) == [key(t[0])] + Keys(Sorting.Insert(x, t[1..], le), key);
      assert Keys(t, key) == [key(t[0])] + Keys(t[1..], key);
    }
  }

  /** Sorting permutes the keys. */
  lemma {:induction false} SortByKeys<T>(s: seq<T>, le: (T, T) -> bool, key: T -> int)
    ensures multiset(Keys(Sorting.SortBy(s, le), key)) == multiset(Keys(s, key))
  {
    if s != [] {
      SortByKeys(s[1..], le, key);
      InsertKeys(s[0], Sorting.SortBy(s[1..], le), le, key);
      assert Keys(s, key) == [key(s[0])] + Keys(s[1..], key);
    }
  }

  /**
   * After a stable sort by an integer key, each key is one more than the one before it exactly
   * when the keys of the unsorted sequence are consecutive integers, each once.
   */
  lemma SortedStepsIffRun<T(!new)>(s: seq<T>, key: T -> int)
    ensures StepsByOne(Keys(Sorting.SortBy(s, KeyLe(key)), key)) <==> IsRun(Keys(s, key))
  {
    var t := Sorting.SortBy(s, KeyLe(key));
    SortedKeysAscending(s, key);
    SortByKeys(s, KeyLe(key), key);
    StepsIffRun(Keys(t, key), Keys(s, key));
  }

  /** The keys of the sorted sequence ascend. */
  lemma SortedKeysAscending<T(!new)>(s: seq<T>, key: T -> int)
    ensures Ascending(Keys(Sorting.SortBy(s, KeyLe(key)), key))
  {
    var t := Sorting.SortBy(s, KeyLe(key));
    var kt := Keys(t, key);
    KeyLeTotalPreorder(key);
    Sorting.SortBySorted(s, KeyLe(key));
    forall i, j | 0 <= i < j < |kt| ensures kt[i] <= kt[j] {
      assert KeyLe(key)(t[i], t[j]);
    }
  }

  /** An ascending rearrangement steps by one exactly when the elements are consecutive integers. */
  lemma StepsIffRun(kt: seq<int>, ks: seq<int>)
    requires Ascending(kt) && multiset(kt) == multiset(ks)
    ensures StepsByOne(kt) <==> IsRun(ks)
  {
    assert |kt| == |multiset(kt)| == |ks|;
    if StepsByOne(kt) {
      if kt == [] {
        assert multiset(ks) == multiset(Range(0, |ks|));
      } else {
        forall i | 0 <= i < |kt| ensures kt[i] == kt[0] + i {
          StepAt(kt, i);
        }
        assert kt == Range(kt[0], |kt|);
        assert multiset(ks) == multiset(Range(kt[0], |ks|));
      }
    }
    if IsRun(ks) {
      var a :| multiset(ks) == multiset(Range(a, |ks|));
      AscendingUnique(kt, Range(a, |ks|));
    }
  }

  /** Consecutive integers, each once, are pairwise distinct. */
  lemma RunDistinct(ks: seq<int>)
    requires IsRun(ks)
    ensures Distinct(ks)
  {
    forall i, j | 0 <= i < j < |ks| ensures ks[i] != ks[j] {
      RunDistinctAt(ks, i, j);
    }
  }

  lemma RunDistinctAt(ks: seq<int>, i: nat, j: nat)
    requires IsRun(ks) && i < j < |ks|
    ensures ks[i] != ks[j]
  {
    var a :| multiset(ks) == multiset(Range(a, |ks|));
    if ks[i] == ks[j] {
      TwiceCounted(ks, i, j);
      RangeMember(a, |ks|, ks[i]);
      RangeOnce(a, |ks|, ks[i] - a);
    }
  }

  lemma TwiceCounted(ks: seq<int>, i: nat, j: nat)
    requires i < j < |ks| && ks[i] == ks[j]
    ensures multiset(ks)[ks[i]] >= 2
  {
    assert ks == ks[..i] + [ks[i]] + ks[i + 1..j] + [ks[j]] + ks[j + 1..];
  }

  lemma RangeMember(a: int, n: nat, x: int)
    requires x in multiset(Range(a, n))
    ensures a <= x < a + n
  {
    assert x in Range(a, n);
  }

  lemma RangeOnce(a: int, n: nat, k: nat)
    requires k < n
    ensures multiset(Range(a, n))[a + k] == 1
  {
    var r := Range(a, n);
    assert r == r[..k] + [a + k] + r[k + 1..];
    assert a + k !in multiset(r[..k]) by {
      forall m | 0 <= m < k ensures r[m] != a + k {}
    }
    assert a + k !in multiset(r[k + 1..]) by {
      forall m | k + 1 <= m < n ensures r[m] != a + k {}
    }
  }

  function TeacherId(t: Teacher): string { t.id }
  function SubjectId(s: Subject): string { s.id }
  function ClassroomId(c: Classroom): string { c.id }

  /** getDayOffset: the days after Monday, 月..金 as 0..4. */
  function GetDayOffset(day: Day): (r: int)
    ensures 0 <= r < |DAYS_OF_WEEK| && DAYS_OF_WEEK[r] == day
  {
    match day
    case Mon => 0
    case Tue => 1
    case Wed => 2
    case Thu => 3
    case Fri => 4
  }

  /** The relation "a may come before b" of the comparator `key(b) - key(a)` (descending). */
  function KeyGe<T>(key: T -> int): (T, T) -> bool
  {
    (a: T, b: T) => key(a) >= key(b)
  }

  lemma KeyGeTotalPreorder<T(!new)>(key: T -> int)
    ensures Sorting.TotalPreorder(KeyGe(key))
  {
  }

  /** `array.filter(p)`: the elements satisfying `p`, in order. */
  function Filter<T(!new)>(s: seq<T>, p: T -> bool): (r: seq<T>)
    ensures |r| <= |s|
    ensures forall x :: x in r <==> x in s && p(x)
  {
    if s == [] then [] else (if p(s[0]) then [s[0]] else []) + Filter(s[1..], p)
  }

  /** Another entry than `entryId` holds the classroom at the slot's date and period. */
  predicate ClassroomBusyExcept(es: seq<ScheduleEntry>, entryId: string, classroomId: string, slot: TimeSlot)
  {
    exists e :: e in es && e.id != entryId && e.classroomId == classroomId && AtSlot(e, slot)
  }

  /** Some entry of the subject sits at the slot's date and period. */
  predicate SubjectAt(es: seq<ScheduleEntry>, subjectId: string, slot: TimeSlot)
  {
    exists e :: e in es && e.subjectId == subjectId && AtSlot(e, slot)
  }

  /**
   * The check loop of the sequential and consecutive validators: it walks the sorted keys and
   * stops at the first neighbour that is not one more than the key before it.
   */
  method CheckSteps(ks: seq<int>) returns (ok: bool)
    ensures ok <==> StepsByOne(ks)
  {
    var i := 0;
    while i + 1 < |ks|
      invariant 0 <= i && (i == 0 || i < |ks|)
      invariant forall j :: 0 <= j < i ==> ks[j + 1] == ks[j] + 1
    {
      if ks[i + 1] != ks[i] + 1 {
        return false;
      }
      i := i + 1;
    }
    return true;
  }

  /** The check loop of validateSequentialConstraint fails: sorted by day, some neighbour is not the next day. */
  predicate DaysBroken(es: seq<ScheduleEntry>)
  {
    !StepsByOne(Keys(Sorting.SortBy(es, KeyLe(DayKey)), DayKey))
  }

  /** The check loop of validateConsecutiveConstraint fails: sorted by period, some neighbour is not the next period. */
  predicate PeriodsBroken(es: seq<ScheduleEntry>)
  {
    !StepsByOne(Keys(Sorting.SortBy(es, KeyLe(PeriodKey)), PeriodKey))
  }

  /** The day check fails exactly when the days are not consecutive days, each taken once. */
  lemma DaysBrokenIff(es: seq<ScheduleEntry>)
    ensures DaysBroken(es) <==> !IsRun(Keys(es, DayKey))
  {
    SortedStepsIffRun(es, DayKey);
  }

  /** The period check fails exactly when the periods are not consecutive periods, each taken once. */
  lemma PeriodsBrokenIff(es: seq<ScheduleEntry>)
    ensures PeriodsBroken(es) <==> !IsRun(Keys(es, PeriodKey))
  {
    SortedStepsIffRun(es, PeriodKey);
  }

  /** When the keys are pairwise distinct, the last element's key is the key of no element before it. */
  lemma LastKeyUnshared<T>(s: seq<T>, key: T -> int, x: T)
    requires s != [] && Distinct(Keys(s, key)) && x in s[..|s| - 1]
    ensures key(x) != key(s[|s| - 1])
  {
    var n := |s| - 1;
    var i :| 0 <= i < n && s[..n][i] == x;
    PrefixIndex(s, n, i);
  }

  lemma PrefixIndex<T>(s: seq<T>, n: nat, i: nat)
    requires i < n <= |s|
    ensures s[..n][i] == s[i]
  {
  }

  /** Entries with different period keys sit in different periods. */
  lemma PeriodKeyApart(a: ScheduleEntry, b: ScheduleEntry)
    requires PeriodKey(a) != PeriodKey(b)
    ensures a.timeSlot.period != b.timeSlot.period
  {
  }

  /** When the periods are a run, the last entry shares its period with no entry before it. */
  lemma LastPeriodUnshared(es: seq<ScheduleEntry>, e: ScheduleEntry)
    requires es != [] && IsRun(Keys(es, PeriodKey)) && e in es[..|es| - 1]
    ensures e.timeSlot.period != es[|es| - 1].timeSlot.period
  {
    RunDistinct(Keys(es, PeriodKey));
    LastKeyUnshared(es, PeriodKey, e);
    PeriodKeyApart(e, es[|es| - 1]);
  }

  /** `teacher.constraints?.sequentialSubjects`. */
  function SequentialInfo(teacher: Teacher): Option<SequentialSubjects>
  {
    if teacher.constraints.Some? then teacher.constraints.value.sequentialSubjects else None
  }

  /** `teacher.constraints?.preferConsecutiveClasses`. */
  predicate PrefersConsecutive(teacher: Teacher)
  {
    teacher.constraints.Some? && teacher.constraints.value.preferConsecutiveClasses
  }

  /** `teacher.constraints?.maxClassesPerWeek`. */
  function WeeklyLimit(teacher: Teacher): Option<int>
  {
    if teacher.constraints.Some? then teacher.constraints.value.maxClassesPerWeek else None
  }

  /** `teacher.constraints?.specialTimeStart`. */
  function SpecialTimeStart(teacher: Teacher): Option<string>
  {
    if teacher.constraints.Some? then teacher.constraints.value.specialTimeStart else None
  }

  /** The message of validateSpecialTimeConstraint with the start time filled in. */
  lemma SpecialTimeMessage(name: string)
    ensures name + "先生は" + "13:15" + "開始のため3限のみ可能です" == name + "先生は13:15開始のため3限のみ可能です"
  {
    var a, b, c := "先生は", "13:15", "開始のため3限のみ可能です";
    assert a + b + c == "先生は13:15開始のため3限のみ可能です";
    assert name + a + b + c == name + (a + b + c);
  }

  /** `name || fallback`: the name, or the fallback when it is missing or empty. */
  function Shown(name: Option<string>, fallback: string): string
  {
    if TruthyString(name) then name.value else fallback
  }

  /** `first || second` of validations: the first failure, else the second result. */
  function AndThen(first: Validation, second: Validation): Validation
  {
    if first.Invalid? then first else second
  }

  class TimetableGenerator {
    const teachers: map<string, Teacher>
    const subjects: map<string, Subject>
    const classrooms: map<string, Classroom>
    /** The subjects as `this.subjects.values()` yields them. */
    const subjectOrder: seq<Subject>
    /** The date `n` days after the semester start 2025-10-01, as `toISOString().split('T')[0]` renders it. */
    const dateAt: int -> string
    /**
     * Whether the first date lies in the Monday-to-Sunday window validateWeeklyLimitConstraint
     * builds around the second.
     */
    const inWeekOf: (string, string) -> bool
    var schedule: seq<ScheduleEntry>
    var subjectClassCount: map<string, int>
    /** The number of entry ids issued so far. */
    var issued: nat

    /** Every lookup map holds each record under its own id. */
    predicate Keyed()
    {
      (forall id :: id in teachers ==> teachers[id].id == id)
      && (forall id :: id in subjects ==> subjects[id].id == id)
      && (forall id :: id in classrooms ==> classrooms[id].id == id)
    }

    /** Every subject of the iteration order is the one stored under its id. */
    predicate Ordered()
    {
      forall s :: s in subjectOrder ==> s.id in subjects && subjects[s.id] == s
    }

    constructor(teacherList: seq<Teacher>, subjectList: seq<Subject>, classroomList: seq<Classroom>,
                dateAt: int -> string, inWeekOf: (string, string) -> bool)
      ensures teachers == IndexById(teacherList, TeacherId)
      ensures subjects == IndexById(subjectList, SubjectId)
      ensures classrooms == IndexById(classroomList, ClassroomId)
      ensures subjectOrder == ValuesInOrder(subjectList, SubjectId)
      ensures this.dateAt == dateAt && this.inWeekOf == inWeekOf
      ensures schedule == [] && subjectClassCount == map[] && issued == 0
      ensures Keyed() && Ordered()
    {
      ValuesKeyed(subjectList, SubjectId);
      teachers := IndexById(teacherList, TeacherId);
      subjects := IndexById(subjectList, SubjectId);
      classrooms := IndexById(classroomList, ClassroomId);
      subjectOrder := ValuesInOrder(subjectList, SubjectId);
      this.dateAt := dateAt;
      this.inWeekOf := inWeekOf;
      schedule := [];
      subjectClassCount := map[];
      issued := 0;
    }

    /** `this.teachers.get(subject.teacherIds[0])`. */
    function FirstTeacher(subject: Subject): Option<Teacher>
    {
      if |subject.teacherIds| > 0 && subject.teacherIds[0] in teachers then Some(teachers[subject.teacherIds[0]]) else None
    }

    /**
     * validateScheduling: the subject's first teacher exists, its day constraints allow the day,
     * and neither that teacher nor the subject's department and grade has a class at the slot.
     */
    function ValidateScheduling(subject: Subject, slot: TimeSlot): (r: Validation)
      reads this
      ensures r.Valid? <==>
        (FirstTeacher(subject).Some? && DayAllowed(FirstTeacher(subject).value, slot.day)
         && !TeacherBusyIn(schedule, subject.teacherIds[0], slot)
         && !StudentsBusyIn(schedule, subject.department, subject.grade, slot))
      ensures FirstTeacher(subject).None? ==> r == Invalid("教師が見つかりません")
    {
      if |subject.teacherIds| == 0 || subject.teacherIds[0] !in teachers then Invalid("教師が見つかりません")
      else
        var teacherId := subject.teacherIds[0];
        var t := teachers[teacherId];
        if t.constraints.Some? && t.constraints.value.unavailableDays.Some?
           && DayName(slot.day) in t.constraints.value.unavailableDays.value
        then Invalid(t.name + "先生は" + DayName(slot.day) + "曜日はNGです")
        else if t.constraints.Some? && t.constraints.value.availableDays.Some?
           && DayName(slot.day) !in t.constraints.value.availableDays.value
        then Invalid(t.name + "先生は" + DayName(slot.day) + "曜日は利用不可です")
        else if TeacherBusyIn(schedule, teacherId, slot) then Invalid(t.name + "先生は既にこの時間に授業があります")
        else if StudentsBusyIn(schedule, subject.department, subject.grade, slot) then Invalid("この時間は既に他の授業が入っています")
        else Valid
    }

    /** An entry placed where validateScheduling passes shares its date and period with no class of its teacher or its students. */
    lemma ValidSchedulingNoClash(subject: Subject, slot: TimeSlot, e: ScheduleEntry)
      requires ValidateScheduling(subject, slot).Valid?
      requires e.timeSlot == slot && e.teacherId == subject.teacherIds[0]
      requires e.department == subject.department && e.grade == subject.grade
      ensures forall x :: x in schedule && SameTime(x, e) ==> x.teacherId != e.teacherId
      ensures forall x :: x in schedule && SameTime(x, e) ==> x.department != e.department || x.grade != e.grade
    {
    }

    /** A classroom findAvailableClassroom may return: not the excluded one, known, and unbooked at the slot. */
    predicate Usable(classroomId: string, slot: TimeSlot, excludeId: Option<string>)
      reads this
    {
      Some(classroomId) != excludeId && classroomId in classrooms && !ClassroomBusyIn(schedule, classroomId, slot)
    }

    function FirstUsableFrom(ids: seq<string>, slot: TimeSlot, excludeId: Option<string>, from: nat): (r: Option<nat>)
      reads this
      requires from <= |ids|
      ensures r.Some? ==>
        (from <= r.value < |ids| && Usable(ids[r.value], slot, excludeId)
         && forall j :: from <= j < r.value ==> !Usable(ids[j], slot, excludeId))
      ensures r.None? ==> forall j :: from <= j < |ids| ==> !Usable(ids[j], slot, excludeId)
      decreases |ids| - from
    {
      if from == |ids| then None
      else if Usable(ids[from], slot, excludeId) then Some(from)
      else FirstUsableFrom(ids, slot, excludeId, from + 1)
    }

    /**
     * What findAvailableClassroom returns: the classroom of the first id in the subject's list that
     * is not `excludeId`, is known and is unbooked at the slot's date and period; None if there is none.
     */
    function AvailableClassroom(subject: Subject, slot: TimeSlot, excludeId: Option<string>): (r: Option<Classroom>)
      reads this
      requires Keyed()
      ensures r.None? <==> forall k :: 0 <= k < |subject.availableClassroomIds| ==> !Usable(subject.availableClassroomIds[k], slot, excludeId)
      ensures r.Some? ==>
        exists k :: (0 <= k < |subject.availableClassroomIds| && subject.availableClassroomIds[k] == r.value.id
          && Usable(subject.availableClassroomIds[k], slot, excludeId)
          && forall j :: 0 <= j < k ==> !Usable(subject.availableClassroomIds[j], slot, excludeId))
      ensures r.Some? ==> Some(r.value.id) != excludeId && !ClassroomBusyIn(schedule, r.value.id, slot)
    {
      match FirstUsableFrom(subject.availableClassroomIds, slot, excludeId, 0)
      case None => None
      case Some(k) => Some(classrooms[subject.availableClassroomIds[k]])
    }

    /** findAvailableClassroom: the loop over the subject's classroom ids with `continue` and an early return. */
    method FindAvailableClassroom(subject: Subject, slot: TimeSlot, excludeId: Option<string>) returns (r: Option<Classroom>)
      requires Keyed()
      ensures r == AvailableClassroom(subject, slot, excludeId)
    {
      var ids := subject.availableClassroomIds;
      var i := 0;
      while i < |ids|
        invariant 0 <= i <= |ids|
        invariant FirstUsableFrom(ids, slot, excludeId, 0) == FirstUsableFrom(ids, slot, excludeId, i)
      {
        var classroomId := ids[i];
        if Some(classroomId) == excludeId {
          i := i + 1;
          continue;
        }
        if classroomId !in classrooms {
          i := i + 1;
          continue;
        }
        var busy := exists e :: e in schedule && e.classroomId == classroomId && AtSlot(e, slot);
        if !busy {
          return Some(classrooms[classroomId]);
        }
        i := i + 1;
      }
      return None;
    }

    /**
     * getConstraintScore: for the first teacher's constraint record, 10 per unavailable day,
     * 10 per day short of five available days, 20 for a special start time and 30 for a
     * sequential-subjects rule; 25 more for a combo lesson.
     */
    function ConstraintScore(subject: Subject): int
    {
      var teacherPart :=
        match FirstTeacher(subject)
        case None => 0
        case Some(t) =>
          if t.constraints.None? then 0
          else
            var c := t.constraints.value;
            (if c.unavailableDays.Some? then |c.unavailableDays.value| * 10 else 0)
            + (if c.availableDays.Some? then (5 - |c.availableDays.value|) * 10 else 0)
            + (if TruthyString(c.specialTimeStart) then 20 else 0)
            + (if c.sequentialSubjects.Some? then 30 else 0);
      teacherPart + (if subject.lessonType == ComboLesson then 25 else 0)
    }

    /** A subject without a constraint record on its first teacher scores 25 as a combo lesson and 0 otherwise. */
    lemma UnconstrainedScore(subject: Subject)
      requires FirstTeacher(subject).None? || FirstTeacher(subject).value.constraints.None?
      ensures ConstraintScore(subject) == if subject.lessonType == ComboLesson then 25 else 0
    {
      match FirstTeacher(subject)
      case None =>
      case Some(t) =>
    }

    /** Making a lesson a combo lesson raises its score by exactly 25. */
    lemma ComboScoreBonus(subject: Subject)
      requires subject.lessonType != ComboLesson
      ensures ConstraintScore(subject.(lessonType := ComboLesson)) == ConstraintScore(subject) + 25
    {
      assert FirstTeacher(subject.(lessonType := ComboLesson)) == FirstTeacher(subject);
    }

    /**
     * The order generate tries the subjects in: `this.subjects.values()` stably sorted by the
     * comparator `score(b) - score(a)`, so by non-increasing constraint score.
     */
    function SortedSubjects(): (r: seq<Subject>)
      ensures multiset(r) == multiset(subjectOrder)
      ensures forall i, j :: 0 <= i < j < |r| ==> ConstraintScore(r[i]) >= ConstraintScore(r[j])
    {
      KeyGeTotalPreorder(ConstraintScore);
      Sorting.SortBySorted(subjectOrder, KeyGe(ConstraintScore));
      var r := Sorting.SortBy(subjectOrder, KeyGe(ConstraintScore));
      assert forall i, j :: 0 <= i < j < |r| ==> KeyGe(ConstraintScore)(r[i], r[j]);
      r
    }

    /** The slots of the first `n` periods of one day of one week. */
    function DaySlots(week: int, day: Day, n: nat): (r: seq<TimeSlot>)
      requires n <= |PERIODS|
      ensures |r| == n
    {
      if n == 0 then [] else DaySlots(week, day, n - 1) + [TimeSlot(dateAt(week * 7 + GetDayOffset(day)), day, PERIODS[n - 1])]
    }

    lemma {:induction false} DaySlotAt(week: int, day: Day, n: nat, k: nat)
      requires k < n <= |PERIODS|
      ensures DaySlots(week, day, n)[k] == TimeSlot(dateAt(week * 7 + GetDayOffset(day)), day, PERIODS[k])
    {
      if k < n - 1 {
        DaySlotAt(week, day, n - 1, k);
      }
    }

    /** The slots of the first `n` days of a week. */
    function WeekSlots(week: int, n: nat): (r: seq<TimeSlot>)
      requires n <= |DAYS_OF_WEEK|
      ensures |r| == 4 * n
    {
      if n == 0 then [] else WeekSlots(week, n - 1) + DaySlots(week, DAYS_OF_WEEK[n - 1], |PERIODS|)
    }

    /** generateTimeSlots: week by week, 月..金, 1限..4限. */
    function SemesterSlots(weeks: int): (r: seq<TimeSlot>)
      ensures |r| == if weeks <= 0 then 0 else 20 * weeks
      decreases weeks
    {
      if weeks <= 0 then [] else SemesterSlots(weeks - 1) + WeekSlots(weeks - 1, |DAYS_OF_WEEK|)
    }

    lemma {:induction false} WeekSlotAt(week: int, n: nat, d: Day, p: Period)
      requires n <= |DAYS_OF_WEEK| && DayIndex(d) < n
      ensures WeekSlots(week, n)[4 * DayIndex(d) + PeriodIndex(p)] == TimeSlot(dateAt(week * 7 + DayIndex(d)), d, p)
    {
      var i := 4 * DayIndex(d) + PeriodIndex(p);
      if DayIndex(d) < n - 1 {
        WeekSlotAt(week, n - 1, d, p);
        assert WeekSlots(week, n)[i] == WeekSlots(week, n - 1)[i];
      } else {
        assert DAYS_OF_WEEK[n - 1] == d;
        assert GetDayOffset(d) == DayIndex(d);
        DaySlotAt(week, d, |PERIODS|, PeriodIndex(p));
        assert WeekSlots(week, n)[i] == DaySlots(week, d, |PERIODS|)[PeriodIndex(p)];
      }
    }

    /**
     * The semester grid holds 20 slots per week, and slot `20 * w + 4 * day + period` is that
     * period of that day of week `w`, dated `w * 7 + day` days after the start.
     */
    lemma {:induction false} SemesterSlotAt(weeks: int, w: nat, d: Day, p: Period)
      requires w < weeks
      ensures |SemesterSlots(weeks)| == 20 * weeks
      ensures SemesterSlots(weeks)[20 * w + 4 * DayIndex(d) + PeriodIndex(p)] == TimeSlot(dateAt(w * 7 + DayIndex(d)), d, p)
    {
      var i := 20 * w + 4 * DayIndex(d) + PeriodIndex(p);
      if w < weeks - 1 {
        SemesterSlotAt(weeks - 1, w, d, p);
        assert SemesterSlots(weeks)[i] == SemesterSlots(weeks - 1)[i];
      } else {
        WeekSlotAt(w, |DAYS_OF_WEEK|, d, p);
        assert SemesterSlots(weeks)[i] == WeekSlots(w, |DAYS_OF_WEEK|)[i - 20 * w];
      }
    }

    /** The innermost loop of generateTimeSlots: one slot per period of the day. */
    method PushDaySlots(slots0: seq<TimeSlot>, week: int, day: Day) returns (slots: seq<TimeSlot>)
      ensures slots == slots0 + DaySlots(week, day, |PERIODS|)
    {
      slots := slots0;
      var pi := 0;
      while pi < |PERIODS|
        invariant 0 <= pi <= |PERIODS|
        invariant slots == slots0 + DaySlots(week, day, pi)
      {
        slots := slots + [TimeSlot(dateAt(week * 7 + GetDayOffset(day)), day, PERIODS[pi])];
        pi := pi + 1;
      }
    }

    /** The middle loop of generateTimeSlots: the days 月..金 of one week. */
    method PushWeekSlots(slots0: seq<TimeSlot>, week: int) returns (slots: seq<TimeSlot>)
      ensures slots == slots0 + WeekSlots(week, |DAYS_OF_WEEK|)
    {
      slots := slots0;
      var di := 0;
      while di < |DAYS_OF_WEEK|
        invariant 0 <= di <= |DAYS_OF_WEEK|
        invariant slots == slots0 + WeekSlots(week, di)
      {
        var day := DAYS_OF_WEEK[di];
        slots := PushDaySlots(slots, week, day);
        di := di + 1;
      }
    }

    /** generateTimeSlots: the outer loop over the weeks; each pushes one slot per day and period. */
    method GenerateTimeSlots(weeks: int) returns (slots: seq<TimeSlot>)
      ensures slots == SemesterSlots(weeks)
    {
      slots := [];
      if weeks <= 0 {
        return;
      }
      var week := 0;
      while week < weeks
        invariant 0 <= week <= weeks
        invariant slots == SemesterSlots(week)
      {
        slots := PushWeekSlots(slots, week);
        week := week + 1;
      }
    }

    /**
     * What one slot of scheduleSubject's loop admits: the subject's first teacher and its first
     * available classroom, when the slot passes validateScheduling and such a classroom exists.
     */
    function Admission(subject: Subject, slot: TimeSlot): (r: Option<(Teacher, Classroom)>)
      reads this
      requires Keyed()
      ensures r.Some? <==> ValidateScheduling(subject, slot).Valid? && AvailableClassroom(subject, slot, None).Some?
      ensures r.Some? ==> |subject.teacherIds| > 0 && r.value.0.id == subject.teacherIds[0]
      ensures r.Some? ==> !ClassroomBusyIn(schedule, r.value.1.id, slot)
    {
      if ValidateScheduling(subject, slot).Valid? then
        match AvailableClassroom(subject, slot, None)
        case None => None
        case Some(c) => Some((FirstTeacher(subject).value, c))
      else None
    }

    /**
     * Pushes one entry with the next generated id onto the schedule and records `newCount`
     * for its subject; the classroom must be free at the slot, so no classroom clash appears.
     */
    method Book(slot: TimeSlot, subjectId: string, teacherId: string, classroomId: string,
                department: Department, grade: Grade, newCount: int) returns (entry: ScheduleEntry)
      requires NoClassroomClash(schedule) && !ClassroomBusyIn(schedule, classroomId, slot)
      modifies this
      ensures entry == ScheduleEntry("entry-" + NatToString(old(issued)), slot, subjectId, teacherId, classroomId, department, grade)
      ensures schedule == old(schedule) + [entry] && NoClassroomClash(schedule)
      ensures subjectClassCount == old(subjectClassCount)[subjectId := newCount]
      ensures issued == old(issued) + 1
    {
      entry := ScheduleEntry("entry-" + NatToString(issued), slot, subjectId, teacherId, classroomId, department, grade);
      AppendUnbooked(schedule, entry);
      issued, schedule, subjectClassCount := issued + 1, schedule + [entry], subjectClassCount[subjectId := newCount];
    }

    /**
     * One slot of scheduleSubject's loop: exactly when the slot is admitted, PlaceAdmitted places
     * the subject there with `count` as its new count.
     */
    method ScheduleAt(subject: Subject, slot: TimeSlot, count: int) returns (placed: bool, ghost pushed: seq<ScheduleEntry>)
      requires Keyed() && NoClassroomClash(schedule)
      modifies this
      ensures schedule == old(schedule) + pushed && NoClassroomClash(schedule)
      ensures placed <==> old(Admission(subject, slot)).Some?
      ensures SlotPushes(pushed, subject, slot, placed, subjects)
      ensures placed && subject.comboSubjectId != Some(subject.id) ==> subject.id in subjectClassCount && subjectClassCount[subject.id] == count
      ensures !placed ==> subjectClassCount == old(subjectClassCount)
    {
      placed, pushed := false, [];
      var admitted := Admission(subject, slot);
      if admitted.Some? {
        pushed := PlaceAdmitted(subject, slot, count, admitted.value.0.id, admitted.value.1.id);
        placed := true;
      }
    }

    /**
     * The placing part of scheduleSubject's loop body: the entry for the subject's first teacher
     * in a free classroom, the subject's count set to `count`, and for a combo lesson with a
     * non-empty `comboSubjectId` the partner placed by PlaceComboPartner.
     */
    method PlaceAdmitted(subject: Subject, slot: TimeSlot, count: int, teacherId: string, classroomId: string)
      returns (ghost pushed: seq<ScheduleEntry>)
      requires Keyed() && NoClassroomClash(schedule) && !ClassroomBusyIn(schedule, classroomId, slot)
      requires |subject.teacherIds| > 0 && teacherId == subject.teacherIds[0]
      modifies this
      ensures schedule == old(schedule) + pushed && NoClassroomClash(schedule)
      ensures SlotPushes(pushed, subject, slot, true, subjects)
      ensures subject.comboSubjectId != Some(subject.id) ==> subject.id in subjectClassCount && subjectClassCount[subject.id] == count
    {
      var entry := Book(slot, subject.id, teacherId, classroomId, subject.department, subject.grade, count);
      ghost var partner := [];
      if subject.lessonType == ComboLesson && TruthyString(subject.comboSubjectId) {
        partner := PlaceComboPartner(subject, slot, classroomId);
      }
      SubjectCountConcat([entry], partner, subject.id);
      pushed := [entry] + partner;
    }

    /**
     * The combo part of scheduleSubject's loop: the partner subject `comboSubjectId`, if known,
     * gets an entry at the same slot in its first available classroom other than the main
     * entry's, provided its first teacher id is non-empty; its count goes up by one.
     */
    method PlaceComboPartner(subject: Subject, slot: TimeSlot, mainClassroomId: string) returns (ghost pushed: seq<ScheduleEntry>)
      requires Keyed() && NoClassroomClash(schedule) && subject.comboSubjectId.Some?
      modifies this
      ensures schedule == old(schedule) + pushed && NoClassroomClash(schedule)
      ensures |pushed| <= 1
      ensures forall k :: 0 <= k < |pushed| ==> (pushed[k].timeSlot == slot && pushed[k].classroomId != mainClassroomId
        && pushed[k].subjectId == subject.comboSubjectId.value && pushed[k].subjectId in subjects)
      ensures pushed == [] ==> subjectClassCount == old(subjectClassCount)
      ensures pushed != [] ==> subjectClassCount == old(subjectClassCount)[pushed[0].subjectId :=
        (if pushed[0].subjectId in old(subjectClassCount) then old(subjectClassCount)[pushed[0].subjectId] else 0) + 1]
    {
      pushed := [];
      var comboId := subject.comboSubjectId.value;
      if comboId in subjects {
        var comboSubject := subjects[comboId];
        var comboClassroom := FindAvailableClassroom(comboSubject, slot, Some(mainClassroomId));
        if comboClassroom.Some? && |comboSubject.teacherIds| > 0 && comboSubject.teacherIds[0] != "" {
          var comboCount := if comboSubject.id in subjectClassCount then subjectClassCount[comboSubject.id] else 0;
          var comboEntry := Book(slot, comboSubject.id, comboSubject.teacherIds[0], comboClassroom.value.id,
            comboSubject.department, comboSubject.grade, comboCount + 1);
          pushed := [comboEntry];
        }
      }
    }

    /**
     * scheduleSubject: walks the slots in order until the subject has `totalClasses` entries,
     * trying each slot as ScheduleAt does. The result is the local `scheduledClasses`, the count
     * of the subject's own entries placed.
     */
    method ScheduleSubject(subject: Subject, timeSlots: seq<TimeSlot>) returns (scheduled: int)
      requires Keyed() && NoClassroomClash(schedule)
      modifies this
      ensures NoClassroomClash(schedule)
      ensures |schedule| >= |old(schedule)| && schedule[..|old(schedule)|] == old(schedule)
      ensures Progress(schedule[|old(schedule)|..], subject, timeSlots, scheduled, subjects)
    {
      ghost var base := schedule;
      ghost var added: seq<ScheduleEntry> := [];
      var target := subject.totalClasses;
      scheduled := 0;
      var i := 0;
      while i < |timeSlots|
        invariant 0 <= i <= |timeSlots|
        invariant schedule == base + added && NoClassroomClash(schedule)
        invariant Progress(added, subject, timeSlots, scheduled, subjects)
      {
        if scheduled >= target {
          break;
        }
        var placed;
        ghost var pushed;
        placed, pushed := ScheduleAt(subject, timeSlots[i], scheduled + 1);
        ProgressStep(added, pushed, subject, timeSlots, i, scheduled, placed, subjects);
        added := added + pushed;
        if placed {
          scheduled := scheduled + 1;
        }
        i := i + 1;
      }
      assert schedule[|base|..] == added;
    }

    /**
     * generate: clears the schedule and the counts, sets every subject's count to 0, builds the
     * slots of 16 weeks and runs scheduleSubject for each subject, the most constrained first.
     * The result is the new schedule: no classroom holds two classes at one slot, and every
     * entry sits at a slot of the semester and belongs to a known subject.
     */
    method Generate() returns (r: seq<ScheduleEntry>)
      requires Keyed() && Ordered()
      modifies this
      ensures r == schedule && NoClassroomClash(r)
      ensures WellPlaced(r, SemesterSlots(16), subjects)
    {
      schedule := [];
      subjectClassCount := map[];
      var k := 0;
      while k < |subjectOrder|
        invariant 0 <= k <= |subjectOrder|
        invariant schedule == []
        invariant forall j :: 0 <= j < k ==> subjectOrder[j].id in subjectClassCount && subjectClassCount[subjectOrder[j].id] == 0
      {
        subjectClassCount := subjectClassCount[subjectOrder[k].id := 0];
        k := k + 1;
      }
      var timeSlots := GenerateTimeSlots(16);
      var sorted := SortedSubjects();
      var n := 0;
      while n < |sorted|
        invariant 0 <= n <= |sorted|
        invariant NoClassroomClash(schedule) && WellPlaced(schedule, timeSlots, subjects)
      {
        assert sorted[n] in multiset(subjectOrder);
        ghost var before := schedule;
        var scheduled := ScheduleSubject(sorted[n], timeSlots);
        WellPlacedGrow(before, schedule, sorted[n], timeSlots, scheduled, subjects);
        n := n + 1;
      }
      r := schedule;
    }

    /**
     * validateSpecialTimeConstraint: a teacher who starts at 13:15 may only teach 3限; any
     * other start time, or none, allows every period.
     */
    function ValidateSpecialTimeConstraint(teacher: Teacher, newSlot: TimeSlot): (r: Validation)
      ensures r.Valid? <==> (SpecialTimeStart(teacher) != Some("13:15") || newSlot.period == P3)
      ensures r.Invalid? ==> r.message == teacher.name + "先生は13:15開始のため3限のみ可能です"
    {
      if !TruthyString(SpecialTimeStart(teacher)) then Valid
      else
        var specialTime := SpecialTimeStart(teacher).value;
        if specialTime == "13:15" && newSlot.period != P3 then
          SpecialTimeMessage(teacher.name);
          Invalid(teacher.name + "先生は" + specialTime + "開始のため3限のみ可能です")
        else Valid
    }

    /** The teacher's entries on the new slot's day of the week, other than the moved one, followed by the moved one at its new slot. */
    function SameDayEntries(teacher: Teacher, entry: ScheduleEntry, newSlot: TimeSlot): (r: seq<ScheduleEntry>)
      reads this
      ensures r != [] && r[|r| - 1] == entry.(timeSlot := newSlot)
      ensures forall e :: e in r[..|r| - 1] <==>
        (e in schedule && e.id != entry.id && e.teacherId == teacher.id && e.timeSlot.day == newSlot.day)
    {
      var others := Filter(schedule, (e: ScheduleEntry) => e.id != entry.id && e.teacherId == teacher.id && e.timeSlot.day == newSlot.day);
      assert (others + [entry.(timeSlot := newSlot)])[..|others|] == others;
      others + [entry.(timeSlot := newSlot)]
    }

    /**
     * validateConsecutiveConstraint: for a teacher who prefers consecutive classes, the day's
     * entries sorted by period must step one period at a time.
     */
    function ValidateConsecutiveConstraint(teacher: Teacher, entry: ScheduleEntry, newSlot: TimeSlot): (r: Validation)
      reads this
      ensures r.Invalid? ==> r.message == teacher.name + "先生の授業は同じ日に連続して配置する必要があります"
    {
      if !PrefersConsecutive(teacher) then Valid
      else
        var sameDay := SameDayEntries(teacher, entry, newSlot);
        if |sameDay| > 1 && PeriodsBroken(sameDay) then
          Invalid(teacher.name + "先生の授業は同じ日に連続して配置する必要があります")
        else Valid
    }

    /**
     * The consecutive check passes exactly when the teacher does not ask for consecutive classes
     * or the periods of the day's entries are consecutive, each taken once.
     */
    lemma ConsecutiveIff(teacher: Teacher, entry: ScheduleEntry, newSlot: TimeSlot)
      ensures ValidateConsecutiveConstraint(teacher, entry, newSlot).Valid? <==>
        (!PrefersConsecutive(teacher) || IsRun(Keys(SameDayEntries(teacher, entry, newSlot), PeriodKey)))
    {
      var sameDay := SameDayEntries(teacher, entry, newSlot);
      PeriodsBrokenIff(sameDay);
      if |sameDay| == 1 {
        var ks := Keys(sameDay, PeriodKey);
        assert ks == Range(ks[0], 1);
        assert multiset(ks) == multiset(Range(ks[0], |ks|));
      }
    }

    /** After a passing consecutive check the teacher has no other entry that day in the new slot's period. */
    lemma ConsecutivePeriodFree(teacher: Teacher, entry: ScheduleEntry, newSlot: TimeSlot, e: ScheduleEntry)
      requires PrefersConsecutive(teacher) && ValidateConsecutiveConstraint(teacher, entry, newSlot).Valid?
      requires e in schedule && e.id != entry.id && e.teacherId == teacher.id && e.timeSlot.day == newSlot.day
      ensures e.timeSlot.period != newSlot.period
    {
      ConsecutiveIff(teacher, entry, newSlot);
      LastPeriodUnshared(SameDayEntries(teacher, entry, newSlot), e);
    }

    /**
     * The teacher's entries of the listed sequential subjects, other than the moved one, then
     * the moved one at its new slot.
     */
    function SequentialEntries(teacher: Teacher, entry: ScheduleEntry, newSlot: TimeSlot, names: seq<string>): (r: seq<ScheduleEntry>)
      reads this
      ensures r != [] && r[|r| - 1] == entry.(timeSlot := newSlot)
      ensures forall e :: e in r[..|r| - 1] <==>
        (e in schedule && e.id != entry.id && e.teacherId == teacher.id && e.subjectId in subjects && subjects[e.subjectId].name in names)
    {
      var others := Filter(schedule, (e: ScheduleEntry) => e.id != entry.id && e.teacherId == teacher.id && e.subjectId in subjects && subjects[e.subjectId].name in names);
      assert (others + [entry.(timeSlot := newSlot)])[..|others|] == others;
      others + [entry.(timeSlot := newSlot)]
    }

    /**
     * validateSequentialConstraint: when the moved entry's subject is one of the teacher's
     * sequential subjects and they must fall on consecutive days, those entries sorted by day
     * must step one day at a time.
     */
    function ValidateSequentialConstraint(teacher: Teacher, entry: ScheduleEntry, newSlot: TimeSlot): (r: Validation)
      reads this
      ensures r.Invalid? ==> (SequentialInfo(teacher).Some?
        && r.message == teacher.name + "先生の連続授業は" + Join(SequentialInfo(teacher).value.subjects, "→") + "の順で連続する曜日に配置する必要があります")
    {
      match SequentialInfo(teacher)
      case None => Valid
      case Some(info) =>
        if entry.subjectId !in subjects || subjects[entry.subjectId].name !in info.subjects then Valid
        else if info.mustBeConsecutiveDays && DaysBroken(SequentialEntries(teacher, entry, newSlot, info.subjects)) then
          Invalid(teacher.name + "先生の連続授業は" + Join(info.subjects, "→") + "の順で連続する曜日に配置する必要があります")
        else Valid
    }

    /**
     * The sequential check fails exactly when the moved entry's subject is listed, the days must
     * be consecutive, and the days of the teacher's listed entries are not consecutive days, each once.
     */
    lemma SequentialIff(teacher: Teacher, entry: ScheduleEntry, newSlot: TimeSlot)
      ensures ValidateSequentialConstraint(teacher, entry, newSlot).Invalid? <==>
        (SequentialInfo(teacher).Some? && entry.subjectId in subjects
         && subjects[entry.subjectId].name in SequentialInfo(teacher).value.subjects
         && SequentialInfo(teacher).value.mustBeConsecutiveDays
         && !IsRun(Keys(SequentialEntries(teacher, entry, newSlot, SequentialInfo(teacher).value.subjects), DayKey)))
    {
      if SequentialInfo(teacher).Some? {
        DaysBrokenIff(SequentialEntries(teacher, entry, newSlot, SequentialInfo(teacher).value.subjects));
      }
    }

    /** The teacher's entries, other than the moved one, in the week of the new slot's date. */
    function WeeklyEntries(teacher: Teacher, entry: ScheduleEntry, newSlot: TimeSlot): (r: seq<ScheduleEntry>)
      reads this
      ensures |r| <= |schedule|
      ensures forall e :: e in r <==> (e in schedule && e.id != entry.id && e.teacherId == teacher.id && inWeekOf(e.timeSlot.date, newSlot.date))
    {
      Filter(schedule, (e: ScheduleEntry) => e.id != entry.id && e.teacherId == teacher.id && inWeekOf(e.timeSlot.date, newSlot.date))
    }

    /**
     * validateWeeklyLimitConstraint: with a (non-zero) `maxClassesPerWeek`, the teacher's
     * entries in the new slot's week, counting the moved one, may not exceed it.
     */
    function ValidateWeeklyLimitConstraint(teacher: Teacher, entry: ScheduleEntry, newSlot: TimeSlot): (r: Validation)
      reads this
      ensures r.Valid? <==> (!Truthy(WeeklyLimit(teacher)) || |WeeklyEntries(teacher, entry, newSlot)| < WeeklyLimit(teacher).value)
      ensures r.Invalid? ==> r.message == teacher.name + "先生の週" + IntToString(WeeklyLimit(teacher).value) + "コマ制限を超えています"
    {
      if !Truthy(WeeklyLimit(teacher)) then Valid
      else
        var limit := WeeklyLimit(teacher).value;
        if |WeeklyEntries(teacher, entry, newSlot)| + 1 > limit then
          Invalid(teacher.name + "先生の週" + IntToString(limit) + "コマ制限を超えています")
        else Valid
    }

    /**
     * validateComboConstraint: a subject with a (non-empty) combo partner needs an entry of that
     * partner at the new slot's date and period.
     */
    function ValidateComboConstraint(subject: Subject, newSlot: TimeSlot): (r: Validation)
      reads this
      ensures r.Valid? <==> (!TruthyString(subject.comboSubjectId) || SubjectAt(schedule, subject.comboSubjectId.value, newSlot))
      ensures r.Invalid? ==> (r.message ==
        "コンビ授業のため" + Shown(if subject.comboSubjectId.value in subjects then Some(subjects[subject.comboSubjectId.value].name) else None, "関連科目")
        + "と同時に実施する必要があります")
    {
      if !TruthyString(subject.comboSubjectId) then Valid
      else
        var comboId := subject.comboSubjectId.value;
        if SubjectAt(schedule, comboId, newSlot) then Valid
        else
          var comboName := if comboId in subjects then Some(subjects[comboId].name) else None;
          Invalid("コンビ授業のため" + Shown(comboName, "関連科目") + "と同時に実施する必要があります")
    }

    /** The advanced checks of validateConstraints, in their order, each under its own guard. */
    function AdvancedChecks(teacher: Teacher, entry: ScheduleEntry, newSlot: TimeSlot): Validation
      reads this
    {
      if teacher.constraints.None? then Valid
      else
        AndThen(if SequentialInfo(teacher).Some? then ValidateSequentialConstraint(teacher, entry, newSlot) else Valid,
        AndThen(if TruthyString(SpecialTimeStart(teacher)) then ValidateSpecialTimeConstraint(teacher, newSlot) else Valid,
        AndThen(if PrefersConsecutive(teacher) then ValidateConsecutiveConstraint(teacher, entry, newSlot) else Valid,
                if Truthy(WeeklyLimit(teacher)) then ValidateWeeklyLimitConstraint(teacher, entry, newSlot) else Valid)))
    }

    /**
     * validateConstraints: moving `entry` to `newSlot` needs its subject and teacher to be known,
     * the basic scheduling checks, its classroom free of other entries, the teacher's advanced
     * constraints and, for a combo lesson, its partner at the same time; the first failure is returned.
     */
    function ValidateConstraints(entry: ScheduleEntry, newSlot: TimeSlot): (r: Validation)
      reads this
      ensures (entry.subjectId !in subjects || entry.teacherId !in teachers) ==> r == Invalid("データが見つかりません")
      ensures entry.subjectId in subjects && entry.teacherId in teachers && ClassroomBusyExcept(schedule, entry.id, entry.classroomId, newSlot)
        ==> r.Invalid?
    {
      if entry.subjectId !in subjects || entry.teacherId !in teachers then Invalid("データが見つかりません")
      else
        var subject := subjects[entry.subjectId];
        var teacher := teachers[entry.teacherId];
        var validation := ValidateScheduling(subject, newSlot);
        if validation.Invalid? then validation
        else if ClassroomBusyExcept(schedule, entry.id, entry.classroomId, newSlot) then
          var classroomName := if entry.classroomId in classrooms then Some(classrooms[entry.classroomId].name) else None;
          Invalid(Shown(classroomName, "教室") + "は既に使用されています")
        else
          AndThen(AdvancedChecks(teacher, entry, newSlot),
            if subject.lessonType == ComboLesson && TruthyString(subject.comboSubjectId) then ValidateComboConstraint(subject, newSlot) else Valid)
    }

    /**
     * A move passes validateConstraints exactly when its subject and teacher are known and every
     * check passes: the basic scheduling checks, a free classroom, each advanced constraint of
     * the teacher, and the combo partner's presence for a combo lesson.
     */
    lemma ValidateConstraintsIff(entry: ScheduleEntry, newSlot: TimeSlot)
      ensures ValidateConstraints(entry, newSlot).Valid? <==>
        (entry.subjectId in subjects && entry.teacherId in teachers
         && ValidateScheduling(subjects[entry.subjectId], newSlot).Valid?
         && !ClassroomBusyExcept(schedule, entry.id, entry.classroomId, newSlot)
         && ValidateSequentialConstraint(teachers[entry.teacherId], entry, newSlot).Valid?
         && ValidateSpecialTimeConstraint(teachers[entry.teacherId], newSlot).Valid?
         && ValidateConsecutiveConstraint(teachers[entry.teacherId], entry, newSlot).Valid?
         && ValidateWeeklyLimitConstraint(teachers[entry.teacherId], entry, newSlot).Valid?
         && (subjects[entry.subjectId].lessonType == ComboLesson ==> ValidateComboConstraint(subjects[entry.subjectId], newSlot).Valid?))
    {
    }

    /**
     * Re-validating an entry of the schedule in its own slot fails when its teacher is its
     * subject's first teacher: validateScheduling does not leave the moved entry out.
     */
    lemma MoveInPlaceRejected(entry: ScheduleEntry)
      requires entry in schedule && entry.subjectId in subjects && entry.teacherId in teachers
      requires |subjects[entry.subjectId].teacherIds| > 0 && subjects[entry.subjectId].teacherIds[0] == entry.teacherId
      ensures ValidateConstraints(entry, entry.timeSlot).Invalid?
    {
      assert TeacherBusyIn(schedule, entry.teacherId, entry.timeSlot);
    }
  }
}
