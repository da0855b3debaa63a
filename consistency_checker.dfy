/**
 * The consistency check run over the semester timetable: joint all-grade subjects
 * outside their fixed classroom, combo pairs with only one half in a slot, Suzuki's
 * two fixed lessons, and teachers whose constraints still need confirming.
 */
module ConsistencyChecker {
  import opened Wrappers
  import opened Types
  import Strings
  import Sorting
  import Grouping
  import AutoScheduleRules
  import ComboPlacement

  type Entry = AutoScheduleRules.GeneratedEntry
  type Slot = AutoScheduleRules.Slot

  /** One group of `semesterData.groups`; its `schedule` may be missing. */
  datatype GroupData = GroupData(groupId: string, schedule: Option<seq<Entry>>)

  /** `semesterData`; its `groups` may be missing. */
  datatype SemesterData = SemesterData(groups: Option<seq<GroupData>>)

  datatype Severity = ErrorKind | WarningKind

  /** One reported problem; the optional fields are those the report may leave undefined. */
  datatype Problem = Problem(
    severity: Severity, message: string,
    week: Option<int>, day: Option<string>, period: Option<string>, groupId: Option<string>)

  function Bare(severity: Severity, message: string): Problem
  {
    Problem(severity, message, None, None, None, None)
  }

  const NO_DATA := "時間割データが見つかりません"

  // ---------------------------------------------------------------------------
  // The entries the check visits
  // ---------------------------------------------------------------------------

  /** The first `n` entries of a schedule, each paired with its group id. */
  function Tagged(groupId: string, es: seq<Entry>, n: nat): (r: seq<(string, Entry)>)
    requires n <= |es|
    ensures |r| == n && forall k :: 0 <= k < n ==> r[k] == (groupId, es[k])
  {
    seq(n, k requires 0 <= k < n => (groupId, es[k]))
  }

  /** A group's entries; a group without a schedule contributes none (`if (!groupData.schedule) return`). */
  function Schedule(g: GroupData): seq<Entry>
  {
    if g.schedule.None? then [] else g.schedule.value
  }

  function GroupPlacements(g: GroupData): seq<(string, Entry)>
  {
    Tagged(g.groupId, Schedule(g), |Schedule(g)|)
  }

  /** Every (group id, entry) the nested forEach visits, in order; groups without a schedule add nothing. */
  function Placements(groups: seq<GroupData>): seq<(string, Entry)>
  {
    if groups == [] then [] else Placements(groups[..|groups| - 1]) + GroupPlacements(groups[|groups| - 1])
  }

  lemma PlacementsTake(groups: seq<GroupData>, g: nat)
    requires g < |groups|
    ensures Placements(groups[..g + 1]) == Placements(groups[..g]) + GroupPlacements(groups[g])
  {
    assert groups[..g + 1][..g] == groups[..g];
  }

  lemma TaggedSnoc(groupId: string, es: seq<Entry>, base: seq<(string, Entry)>, i: nat)
    requires i < |es|
    ensures base + Tagged(groupId, es, i + 1) == (base + Tagged(groupId, es, i)) + [(groupId, es[i])]
  {
    assert Tagged(groupId, es, i + 1) == Tagged(groupId, es, i) + [(groupId, es[i])];
  }

  // ---------------------------------------------------------------------------
  // First pass: the combo slot map and the joint-classroom errors
  // ---------------------------------------------------------------------------

  /** One push into `comboSlots`. */
  datatype ComboUse = ComboUse(subjectId: string, groupId: string)

  /** The entry's subject exists and has a (truthy) combo pair id. */
  predicate IsCombo(subjects: seq<Subject>, p: (string, Entry))
  {
    match ComboPlacement.FindSubject(subjects, p.1.subjectId)
    case None => false
    case Some(s) => TruthyString(s.comboPairId)
  }

  function UseOf(p: (string, Entry)): ComboUse
  {
    ComboUse(p.1.subjectId, p.0)
  }

  /** The (slot, use) pairs pushed into `comboSlots`, in order. The key holds no group id. */
  function ComboKvs(subjects: seq<Subject>, ps: seq<(string, Entry)>): seq<(Slot, ComboUse)>
  {
    if ps == [] then []
    else
      var p := ps[|ps| - 1];
      ComboKvs(subjects, ps[..|ps| - 1]) + (if IsCombo(subjects, p) then [(AutoScheduleRules.SlotOf(p.1), UseOf(p))] else [])
  }

  /** A joint all-grade subject with a fixed classroom, placed in another classroom. */
  predicate Misplaced(subjects: seq<Subject>, p: (string, Entry))
  {
    match ComboPlacement.FindSubject(subjects, p.1.subjectId)
    case None => false
    case Some(s) => s.isJointAllGrades && TruthyString(s.fixedClassroomId) && p.1.classroomId != s.fixedClassroomId.value
  }

  function JointProblem(s: Subject, p: (string, Entry)): Problem
  {
    Problem(ErrorKind, s.name + "がc1（たかねこ）以外で配置されています",
      Some(p.1.week), Some(DayName(p.1.day)), Some(PeriodName(p.1.period)), Some(p.0))
  }

  /** The joint-classroom errors, one per misplaced entry, in visiting order. */
  function JointProblems(subjects: seq<Subject>, ps: seq<(string, Entry)>): seq<Problem>
  {
    if ps == [] then []
    else
      var p := ps[|ps| - 1];
      JointProblems(subjects, ps[..|ps| - 1])
        + (if Misplaced(subjects, p) then [JointProblem(ComboPlacement.FindSubject(subjects, p.1.subjectId).value, p)] else [])
  }

  lemma ComboKvsSnoc(subjects: seq<Subject>, ps: seq<(string, Entry)>, p: (string, Entry))
    ensures ComboKvs(subjects, ps + [p]) ==
      ComboKvs(subjects, ps) + (if IsCombo(subjects, p) then [(AutoScheduleRules.SlotOf(p.1), UseOf(p))] else [])
  {
    assert (ps + [p])[..|ps|] == ps;
  }

  lemma JointProblemsSnoc(subjects: seq<Subject>, ps: seq<(string, Entry)>, p: (string, Entry))
    ensures JointProblems(subjects, ps + [p]) == JointProblems(subjects, ps)
      + (if Misplaced(subjects, p) then [JointProblem(ComboPlacement.FindSubject(subjects, p.1.subjectId).value, p)] else [])
  {
    assert (ps + [p])[..|ps|] == ps;
  }

  lemma FirstPassStep(subjects: seq<Subject>, ps: seq<(string, Entry)>, p: (string, Entry))
    ensures Grouping.GroupBy(ComboKvs(subjects, ps + [p])) ==
      if IsCombo(subjects, p) then Grouping.Add(Grouping.GroupBy(ComboKvs(subjects, ps)), AutoScheduleRules.SlotOf(p.1), UseOf(p))
      else Grouping.GroupBy(ComboKvs(subjects, ps))
    ensures JointProblems(subjects, ps + [p]) == JointProblems(subjects, ps)
      + (if Misplaced(subjects, p) then [JointProblem(ComboPlacement.FindSubject(subjects, p.1.subjectId).value, p)] else [])
  {
    ComboKvsSnoc(subjects, ps, p);
    JointProblemsSnoc(subjects, ps, p);
    if IsCombo(subjects, p) {
      Grouping.GroupBySnoc(ComboKvs(subjects, ps), (AutoScheduleRules.SlotOf(p.1), UseOf(p)));
    } else {
      assert ComboKvs(subjects, ps + [p]) == ComboKvs(subjects, ps);
    }
  }

  /**
   * The first pass: every entry whose subject is a combo subject is pushed into the
   * slot map under its week, day and period; every misplaced joint entry adds an error.
   */
  method CollectComboSlots(subjects: seq<Subject>, groups: seq<GroupData>)
    returns (slots: seq<(Slot, seq<ComboUse>)>, errs: seq<Problem>)
    ensures slots == Grouping.GroupBy(ComboKvs(subjects, Placements(groups)))
    ensures errs == JointProblems(subjects, Placements(groups))
  {
    slots, errs := [], [];
    var g := 0;
    while g < |groups|
      invariant 0 <= g <= |groups|
      invariant slots == Grouping.GroupBy(ComboKvs(subjects, Placements(groups[..g])))
      invariant errs == JointProblems(subjects, Placements(groups[..g]))
    {
      var gd := groups[g];
      ghost var base := Placements(groups[..g]);
      var es := Schedule(gd);
      assert base + Tagged(gd.groupId, es, 0) == base;
      var i := 0;
      while i < |es|
        invariant 0 <= i <= |es|
        invariant slots == Grouping.GroupBy(ComboKvs(subjects, base + Tagged(gd.groupId, es, i)))
        invariant errs == JointProblems(subjects, base + Tagged(gd.groupId, es, i))
      {
        var e := es[i];
        FirstPassStep(subjects, base + Tagged(gd.groupId, es, i), (gd.groupId, e));
        TaggedSnoc(gd.groupId, es, base, i);
        var subject := ComboPlacement.FindSubject(subjects, e.subjectId);
        if subject.Some? {
          var s := subject.value;
          if s.comboPairId.Some? && s.comboPairId.value != "" {
            slots := Grouping.Add(slots, AutoScheduleRules.SlotOf(e), ComboUse(s.id, gd.groupId));
          }
          if s.isJointAllGrades && s.fixedClassroomId.Some? && s.fixedClassroomId.value != "" {
            if e.classroomId != s.fixedClassroomId.value {
              errs := errs + [JointProblem(s, (gd.groupId, e))];
            }
          }
        }
        i := i + 1;
      }
      PlacementsTake(groups, g);
      g := g + 1;
    }
    assert groups[..|groups|] == groups;
  }

  /** Placement `p` pushed use `u` under `slot`. */
  predicate UsedAt(subjects: seq<Subject>, p: (string, Entry), slot: Slot, u: ComboUse)
  {
    IsCombo(subjects, p) && AutoScheduleRules.SlotOf(p.1) == slot && u == UseOf(p)
  }

  /** The uses recorded under a slot are those of every combo entry at that slot, from any group. */
  lemma {:induction false} ComboUsesAt(subjects: seq<Subject>, ps: seq<(string, Entry)>, slot: Slot, u: ComboUse)
    ensures u in Grouping.ValuesFor(ComboKvs(subjects, ps), slot) <==> exists j :: 0 <= j < |ps| && UsedAt(subjects, ps[j], slot, u)
  {
    if ps != [] {
      var init, p := ps[..|ps| - 1], ps[|ps| - 1];
      ComboUsesAt(subjects, init, slot, u);
      assert init + [p] == ps;
      ComboKvsSnoc(subjects, init, p);
      UsedAtSnoc(subjects, init, p, slot, u);
      if IsCombo(subjects, p) {
        Grouping.ValuesForSnoc(ComboKvs(subjects, init), (AutoScheduleRules.SlotOf(p.1), UseOf(p)), slot);
      } else {
        assert ComboKvs(subjects, ps) == ComboKvs(subjects, init);
        assert !UsedAt(subjects, p, slot, u);
      }
    }
  }

  lemma UsedAtSnoc(subjects: seq<Subject>, init: seq<(string, Entry)>, p: (string, Entry), slot: Slot, u: ComboUse)
    ensures (exists j :: 0 <= j < |init + [p]| && UsedAt(subjects, (init + [p])[j], slot, u)) <==>
      (exists j :: 0 <= j < |init| && UsedAt(subjects, init[j], slot, u)) || UsedAt(subjects, p, slot, u)
  {
    var ps := init + [p];
    if exists j :: 0 <= j < |init| && UsedAt(subjects, init[j], slot, u) {
      var j :| 0 <= j < |init| && UsedAt(subjects, init[j], slot, u);
      assert ps[j] == init[j];
    }
    if UsedAt(subjects, p, slot, u) {
      assert ps[|init|] == p;
    }
    if exists j :: 0 <= j < |ps| && UsedAt(subjects, ps[j], slot, u) {
      var j :| 0 <= j < |ps| && UsedAt(subjects, ps[j], slot, u);
      if j < |init| { assert init[j] == ps[j]; }
    }
  }

  /**
   * The slot map has one bucket per slot used by a combo entry, and the bucket of a slot
   * holds the use of every combo entry at that week, day and period, whatever its group.
   */
  lemma ComboSlotsExact(subjects: seq<Subject>, ps: seq<(string, Entry)>)
    ensures Grouping.KeysDistinct(Grouping.GroupBy(ComboKvs(subjects, ps)))
    ensures var bs := Grouping.GroupBy(ComboKvs(subjects, ps));
      forall i, j ::
        (0 <= i < |bs| && 0 <= j < |ps| && IsCombo(subjects, ps[j]) && AutoScheduleRules.SlotOf(ps[j].1) == bs[i].0)
        ==> UseOf(ps[j]) in bs[i].1
    ensures var bs := Grouping.GroupBy(ComboKvs(subjects, ps));
      forall i, u :: (0 <= i < |bs| && u in bs[i].1) ==> (exists j :: 0 <= j < |ps| && UsedAt(subjects, ps[j], bs[i].0, u))
  {
    var bs := Grouping.GroupBy(ComboKvs(subjects, ps));
    Grouping.GroupByGroups(ComboKvs(subjects, ps));
    forall i, u | 0 <= i < |bs| ensures u in bs[i].1 <==> exists j :: 0 <= j < |ps| && UsedAt(subjects, ps[j], bs[i].0, u) {
      ComboUsesAt(subjects, ps, bs[i].0, u);
    }
    forall i, j | 0 <= i < |bs| && 0 <= j < |ps| && IsCombo(subjects, ps[j]) && AutoScheduleRules.SlotOf(ps[j].1) == bs[i].0
      ensures UseOf(ps[j]) in bs[i].1
    {
      ComboUsesAt(subjects, ps, bs[i].0, UseOf(ps[j]));
      assert UsedAt(subjects, ps[j], bs[i].0, UseOf(ps[j]));
    }
  }

  /** As many joint errors as misplaced entries. */
  lemma {:induction false} JointProblemsCount(subjects: seq<Subject>, ps: seq<(string, Entry)>)
    ensures |JointProblems(subjects, ps)| == |Sorting.Filter(ps, (p: (string, Entry)) => Misplaced(subjects, p))|
  {
    if ps != [] {
      var init, last := ps[..|ps| - 1], ps[|ps| - 1];
      JointProblemsCount(subjects, init);
      assert init + [last] == ps;
      JointProblemsSnoc(subjects, init, last);
      Sorting.FilterSnoc(init, last, (p: (string, Entry)) => Misplaced(subjects, p));
    }
  }

  /** Each joint error names a misplaced entry: its subject, week, day, period and group. */
  lemma {:induction false} JointProblemsNameEntries(subjects: seq<Subject>, ps: seq<(string, Entry)>, k: nat)
    requires k < |JointProblems(subjects, ps)|
    ensures exists j :: 0 <= j < |ps| && Misplaced(subjects, ps[j]) &&
                        JointProblems(subjects, ps)[k] == JointProblem(ComboPlacement.FindSubject(subjects, ps[j].1.subjectId).value, ps[j])
  {
    var init, last := ps[..|ps| - 1], ps[|ps| - 1];
    assert init + [last] == ps;
    JointProblemsSnoc(subjects, init, last);
    if k < |JointProblems(subjects, init)| {
      JointProblemsNameEntries(subjects, init, k);
      var j :| 0 <= j < |init| && Misplaced(subjects, init[j]) &&
               JointProblems(subjects, init)[k] == JointProblem(ComboPlacement.FindSubject(subjects, init[j].1.subjectId).value, init[j]);
      assert ps[j] == init[j];
    } else {
      assert ps[|ps| - 1] == last;
    }
  }

  /** Joint errors are errors. */
  lemma {:induction false} JointProblemsAreErrors(subjects: seq<Subject>, ps: seq<(string, Entry)>)
    ensures forall k :: 0 <= k < |JointProblems(subjects, ps)| ==> JointProblems(subjects, ps)[k].severity == ErrorKind
  {
    if ps != [] {
      JointProblemsAreErrors(subjects, ps[..|ps| - 1]);
    }
  }

  // ---------------------------------------------------------------------------
  // Second pass: combo pairs with only one half in a slot
  // ---------------------------------------------------------------------------

  /** `entries.some(e => e.subjectId === id)`, equally `uniqueSubjects.has(id)`. */
  predicate Present(uses: seq<ComboUse>, id: string)
  {
    exists k :: 0 <= k < |uses| && uses[k].subjectId == id
  }

  /** A subject with a combo pair id that occurs in the slot. */
  predicate PresentCombo(uses: seq<ComboUse>, s: Subject)
  {
    TruthyString(s.comboPairId) && Present(uses, s.id)
  }

  /** `comboSubjects`: in subject-list order. */
  function ComboSubjects(subjects: seq<Subject>, uses: seq<ComboUse>): seq<Subject>
  {
    Sorting.Filter(subjects, (s: Subject) => PresentCombo(uses, s))
  }

  function PairKey(s: Subject): string
  {
    if s.comboPairId.Some? then s.comboPairId.value else ""
  }

  /** The test "this subject's pair id is `pairId`". */
  function OfPair(pairId: string): Subject -> bool
  {
    (s: Subject) => PairKey(s) == pairId
  }

  /** The (pair id, subject id) pushes into `comboPairs`. */
  function PairKvs(cs: seq<Subject>): (r: seq<(string, string)>)
    ensures |r| == |cs| && forall k :: 0 <= k < |cs| ==> r[k] == (PairKey(cs[k]), cs[k].id)
  {
    if cs == [] then [] else PairKvs(cs[..|cs| - 1]) + [(PairKey(cs[|cs| - 1]), cs[|cs| - 1].id)]
  }

  function PairGroups(subjects: seq<Subject>, uses: seq<ComboUse>): seq<(string, seq<string>)>
  {
    Grouping.GroupBy(PairKvs(ComboSubjects(subjects, uses)))
  }

  /** `foundSubjects`. */
  function Found(uses: seq<ComboUse>, ids: seq<string>): seq<string>
  {
    Sorting.Filter(ids, (id: string) => Present(uses, id))
  }

  /** The value of a string of decimal digits. */
  function DigitsValue(t: string): int
    requires forall k :: 0 <= k < |t| ==> '0' <= t[k] <= '9'
  {
    if t == [] then 0 else DigitsValue(t[..|t| - 1]) * 10 + (t[|t| - 1] as int - '0' as int)
  }

  /** `parseInt` on one piece of a split key; `None` is NaN (an empty or missing piece). */
  function ParseDecimal(o: Option<string>): Option<int>
  {
    if o.Some? && o.value != [] && forall k :: 0 <= k < |o.value| ==> '0' <= o.value[k] <= '9'
    then Some(DigitsValue(o.value)) else None
  }

  /** Destructuring `const [week, day, period] = parts`: a missing piece is undefined. */
  function PartAt(parts: seq<string>, i: nat): Option<string>
  {
    if i < |parts| then Some(parts[i]) else None
  }

  function NameOr(s: Option<Subject>): string
  {
    if s.Some? then s.value.name else "undefined"
  }

  /** The error for pair `pairId` when only subject `first` of it is in `slot`; the coordinates come from splitting the slot key at '-'. */
  function PairProblem(subjects: seq<Subject>, slot: Slot, pairId: string, first: string): Problem
  {
    var parts := Strings.Split(AutoScheduleRules.SlotKey(slot), '-');
    var subject := ComboPlacement.FindSubject(subjects, first);
    var pair := Sorting.Find(subjects, (s: Subject) => s.comboPairId == Some(pairId) && s.id != first);
    Problem(ErrorKind, "コンビ授業の片方のみ配置: " + NameOr(subject) + " (ペア: " + NameOr(pair) + ")",
      ParseDecimal(PartAt(parts, 0)), PartAt(parts, 1), PartAt(parts, 2), None)
  }

  /** The errors of one slot for the pairs `pairs`, in order. */
  function PairProblems(subjects: seq<Subject>, uses: seq<ComboUse>, slot: Slot, pairs: seq<(string, seq<string>)>): (r: seq<Problem>)
    ensures |r| <= |pairs|
    ensures forall k :: 0 <= k < |r| ==> r[k].severity == ErrorKind && r[k].groupId.None?
  {
    if pairs == [] then []
    else
      var last := pairs[|pairs| - 1];
      var found := Found(uses, last.1);
      PairProblems(subjects, uses, slot, pairs[..|pairs| - 1])
        + (if |found| == 1 then [PairProblem(subjects, slot, last.0, found[0])] else [])
  }

  /** The errors of the second pass over the slot buckets, in bucket order. */
  function SlotProblems(subjects: seq<Subject>, buckets: seq<(Slot, seq<ComboUse>)>): (r: seq<Problem>)
    ensures forall k :: 0 <= k < |r| ==> r[k].severity == ErrorKind
  {
    if buckets == [] then []
    else
      var b := buckets[|buckets| - 1];
      SlotProblems(subjects, buckets[..|buckets| - 1]) + PairProblems(subjects, b.1, b.0, PairGroups(subjects, b.1))
  }

  lemma PairKvsTake(cs: seq<Subject>, k: nat)
    requires k < |cs|
    ensures PairKvs(cs[..k + 1]) == PairKvs(cs[..k]) + [(PairKey(cs[k]), cs[k].id)]
  {
    assert cs[..k + 1][..k] == cs[..k];
  }

  lemma PairProblemsTake(subjects: seq<Subject>, uses: seq<ComboUse>, slot: Slot, pairs: seq<(string, seq<string>)>, m: nat)
    requires m < |pairs|
    ensures |Found(uses, pairs[m].1)| == 1 ==>
      PairProblems(subjects, uses, slot, pairs[..m + 1])
        == PairProblems(subjects, uses, slot, pairs[..m]) + [PairProblem(subjects, slot, pairs[m].0, Found(uses, pairs[m].1)[0])]
    ensures |Found(uses, pairs[m].1)| != 1 ==> PairProblems(subjects, uses, slot, pairs[..m + 1]) == PairProblems(subjects, uses, slot, pairs[..m])
  {
    assert pairs[..m + 1][..m] == pairs[..m];
  }

  lemma SlotProblemsTake(subjects: seq<Subject>, buckets: seq<(Slot, seq<ComboUse>)>, b: nat)
    requires b < |buckets|
    ensures SlotProblems(subjects, buckets[..b + 1]) == SlotProblems(subjects, buckets[..b])
      + PairProblems(subjects, buckets[b].1, buckets[b].0, PairGroups(subjects, buckets[b].1))
  {
    assert buckets[..b + 1][..b] == buckets[..b];
  }

  /** `comboPairs`: each present combo subject pushed under its pair id. */
  method GroupPairs(cs: seq<Subject>) returns (pairs: seq<(string, seq<string>)>)
    ensures pairs == Grouping.GroupBy(PairKvs(cs))
  {
    pairs := [];
    var k := 0;
    while k < |cs|
      invariant 0 <= k <= |cs|
      invariant pairs == Grouping.GroupBy(PairKvs(cs[..k]))
    {
      PairKvsTake(cs, k);
      Grouping.GroupBySnoc(PairKvs(cs[..k]), (PairKey(cs[k]), cs[k].id));
      pairs := Grouping.Add(pairs, PairKey(cs[k]), cs[k].id);
      k := k + 1;
    }
    assert cs[..|cs|] == cs;
  }

  /** `comboPairs.forEach`: the errors of one slot, one per pair with exactly one subject found. */
  method CheckSlotPairs(subjects: seq<Subject>, slot: Slot, uses: seq<ComboUse>) returns (errs: seq<Problem>)
    ensures errs == PairProblems(subjects, uses, slot, PairGroups(subjects, uses))
  {
    var pairs := GroupPairs(ComboSubjects(subjects, uses));
    errs := [];
    var m := 0;
    while m < |pairs|
      invariant 0 <= m <= |pairs|
      invariant errs == PairProblems(subjects, uses, slot, pairs[..m])
    {
      PairProblemsTake(subjects, uses, slot, pairs, m);
      var found := Found(uses, pairs[m].1);
      if |found| == 1 {
        errs := errs + [PairProblem(subjects, slot, pairs[m].0, found[0])];
      }
      m := m + 1;
    }
    assert pairs[..|pairs|] == pairs;
  }

  /** The second pass: for every slot and every pair met there, an error when only one of its subjects is found. */
  method CheckComboPairs(subjects: seq<Subject>, buckets: seq<(Slot, seq<ComboUse>)>) returns (errs: seq<Problem>)
    ensures errs == SlotProblems(subjects, buckets)
  {
    errs := [];
    var b := 0;
    while b < |buckets|
      invariant 0 <= b <= |buckets|
      invariant errs == SlotProblems(subjects, buckets[..b])
    {
      var more := CheckSlotPairs(subjects, buckets[b].0, buckets[b].1);
      SlotProblemsTake(subjects, buckets, b);
      errs := errs + more;
      b := b + 1;
    }
    assert buckets[..|buckets|] == buckets;
  }

  /** The subjects of the pair `pairId` that occur in the slot, in subject-list order. */
  function PresentOfPair(subjects: seq<Subject>, uses: seq<ComboUse>, pairId: string): seq<Subject>
  {
    Sorting.Filter(subjects, (s: Subject) => s.comboPairId == Some(pairId) && Present(uses, s.id))
  }

  /** The values a pair id collects are the ids of the listed subjects with that pair id. */
  lemma PairValues(cs: seq<Subject>, pairId: string)
    ensures |Grouping.ValuesFor(PairKvs(cs), pairId)| == |Sorting.Filter(cs, OfPair(pairId))|
    ensures forall id :: id in Grouping.ValuesFor(PairKvs(cs), pairId) ==> exists s :: s in cs && s.id == id
  {
    PairValuesCount(cs, pairId);
    forall id | id in Grouping.ValuesFor(PairKvs(cs), pairId) ensures exists s :: s in cs && s.id == id {
      var j := Grouping.ValuesForMember(PairKvs(cs), pairId, id);
      assert cs[j] in cs && cs[j].id == id;
    }
  }

  lemma {:induction false} PairValuesCount(cs: seq<Subject>, pairId: string)
    ensures |Grouping.ValuesFor(PairKvs(cs), pairId)| == |Sorting.Filter(cs, OfPair(pairId))|
  {
    if cs != [] {
      PairValuesCount(cs[..|cs| - 1], pairId);
      PairValuesStep(cs, pairId);
    }
  }

  /** The last subject adds its id to its own pair id's values and nothing to the others'. */
  lemma PairValuesStep(cs: seq<Subject>, pairId: string)
    requires cs != []
    ensures var init, s := cs[..|cs| - 1], cs[|cs| - 1];
      && Grouping.ValuesFor(PairKvs(cs), pairId)
        == Grouping.ValuesFor(PairKvs(init), pairId) + (if PairKey(s) == pairId then [s.id] else [])
      && Sorting.Filter(cs, OfPair(pairId))
        == Sorting.Filter(init, OfPair(pairId)) + (if PairKey(s) == pairId then [s] else [])
  {
    var init, s := cs[..|cs| - 1], cs[|cs| - 1];
    assert init + [s] == cs;
    Grouping.ValuesForSnoc(PairKvs(init), (PairKey(s), s.id), pairId);
    Sorting.FilterSnoc(init, s, OfPair(pairId));
  }

  /** A pair id met in a slot is the non-empty pair id of a listed subject found there. */
  lemma PairKeyPresent(subjects: seq<Subject>, uses: seq<ComboUse>, i: nat)
    requires i < |PairGroups(subjects, uses)|
    ensures PairGroups(subjects, uses)[i].0 != ""
    ensures exists s :: s in subjects && s.comboPairId == Some(PairGroups(subjects, uses)[i].0) && Present(uses, s.id)
  {
    var cs := ComboSubjects(subjects, uses);
    var kvs := PairKvs(cs);
    Grouping.GroupByGroups(kvs);
    assert PairGroups(subjects, uses)[i].0 in Grouping.KeySet(PairGroups(subjects, uses));
    var j :| 0 <= j < |kvs| && kvs[j].0 == PairGroups(subjects, uses)[i].0;
    assert cs[j] in cs;
  }

  /** Every subject id collected for a pair is found in the slot, so the filter keeps them all. */
  lemma FoundAll(subjects: seq<Subject>, uses: seq<ComboUse>, i: nat)
    requires i < |PairGroups(subjects, uses)|
    ensures Found(uses, PairGroups(subjects, uses)[i].1) == PairGroups(subjects, uses)[i].1
  {
    var cs := ComboSubjects(subjects, uses);
    var pid, ids := PairGroups(subjects, uses)[i].0, PairGroups(subjects, uses)[i].1;
    Grouping.GroupByGroups(PairKvs(cs));
    PairValues(cs, pid);
    forall id | id in ids ensures Present(uses, id) {
      var s :| s in cs && s.id == id;
    }
    Sorting.FilterAll(ids, (id: string) => Present(uses, id));
  }

  /** A non-empty pair id collects one subject id per listed subject of that pair found in the slot. */
  lemma PairCount(subjects: seq<Subject>, uses: seq<ComboUse>, pid: string)
    requires pid != ""
    ensures |Grouping.ValuesFor(PairKvs(ComboSubjects(subjects, uses)), pid)| == |PresentOfPair(subjects, uses, pid)|
  {
    PairValues(ComboSubjects(subjects, uses), pid);
    Sorting.FilterFilter(subjects, (s: Subject) => PresentCombo(uses, s), OfPair(pid),
      (s: Subject) => s.comboPairId == Some(pid) && Present(uses, s.id));
  }

  /**
   * For each pair id met in a slot, an error is reported exactly when one subject
   * (in the subject list) of that pair occurs in the slot.
   */
  lemma PairErrorIff(subjects: seq<Subject>, uses: seq<ComboUse>, i: nat)
    requires i < |PairGroups(subjects, uses)|
    ensures |Found(uses, PairGroups(subjects, uses)[i].1)| == 1 <==>
      |PresentOfPair(subjects, uses, PairGroups(subjects, uses)[i].0)| == 1
  {
    PairKeyPresent(subjects, uses, i);
    FoundAll(subjects, uses, i);
    Grouping.GroupByGroups(PairKvs(ComboSubjects(subjects, uses)));
    PairCount(subjects, uses, PairGroups(subjects, uses)[i].0);
  }

  // ---------------------------------------------------------------------------
  // Suzuki's fixed lessons
  // ---------------------------------------------------------------------------

  const SUZUKI := "鈴木俊良"
  const JAN19_EXPECTED := "15-月-14-15"
  const JAN21_EXPECTED := "15-水-1"
  const JAN19_MISSING := "鈴木先生の1/19(月)14-15連続授業が欠落しています"
  const JAN21_MISSING := "鈴木先生の1/21(水)ふりかえり授業が欠落しています"

  /** `foundFixed`: the slot keys of the teacher's entries. */
  function TeacherKeys(ps: seq<(string, Entry)>, teacherId: string): set<string>
  {
    if ps == [] then {}
    else
      var p := ps[|ps| - 1];
      TeacherKeys(ps[..|ps| - 1], teacherId)
        + (if p.1.teacherId == teacherId then {AutoScheduleRules.SlotKey(AutoScheduleRules.SlotOf(p.1))} else {})
  }

  predicate AnyContains(keys: set<string>, sub: string)
  {
    exists k :: k in keys && Strings.Contains(k, sub)
  }

  function SuzukiProblemsFor(keys: set<string>): seq<Problem>
  {
    (if !AnyContains(keys, JAN19_EXPECTED) then [Bare(ErrorKind, JAN19_MISSING)] else [])
      + (if !AnyContains(keys, JAN21_EXPECTED) then [Bare(ErrorKind, JAN21_MISSING)] else [])
  }

  /** The test `t.name === name` that `teachers.find` applies. */
  function NamedTeacher(name: string): Teacher -> bool
  {
    (t: Teacher) => t.name == name
  }

  /** The Suzuki errors: none unless the teacher exists and requires confirmation. */
  function SuzukiProblems(teachers: seq<Teacher>, ps: seq<(string, Entry)>): (r: seq<Problem>)
    ensures |r| <= 2 && forall k :: 0 <= k < |r| ==> r[k].severity == ErrorKind
  {
    match Sorting.Find(teachers, NamedTeacher(SUZUKI))
    case None => []
    case Some(t) => if t.requireConfirmed then SuzukiProblemsFor(TeacherKeys(ps, t.id)) else []
  }

  lemma TeacherKeysStep(ps: seq<(string, Entry)>, p: (string, Entry), teacherId: string)
    ensures TeacherKeys(ps + [p], teacherId) == TeacherKeys(ps, teacherId)
      + (if p.1.teacherId == teacherId then {AutoScheduleRules.SlotKey(AutoScheduleRules.SlotOf(p.1))} else {})
  {
    assert (ps + [p])[..|ps|] == ps;
  }

  /** The slot keys of every entry of the teacher, over all groups. */
  method CollectTeacherKeys(groups: seq<GroupData>, teacherId: string) returns (keys: set<string>)
    ensures keys == TeacherKeys(Placements(groups), teacherId)
  {
    keys := {};
    var g := 0;
    while g < |groups|
      invariant 0 <= g <= |groups|
      invariant keys == TeacherKeys(Placements(groups[..g]), teacherId)
    {
      keys := AddGroupKeys(keys, Placements(groups[..g]), groups[g], teacherId);
      PlacementsTake(groups, g);
      g := g + 1;
    }
    assert groups[..|groups|] == groups;
  }

  /** The inner forEach over one group's entries: it adds the slot keys of the teacher's entries. */
  method AddGroupKeys(keys0: set<string>, ghost base: seq<(string, Entry)>, gd: GroupData, teacherId: string)
    returns (keys: set<string>)
    requires keys0 == TeacherKeys(base, teacherId)
    ensures keys == TeacherKeys(base + GroupPlacements(gd), teacherId)
  {
    keys := keys0;
    var es := Schedule(gd);
    assert base + Tagged(gd.groupId, es, 0) == base;
    var i := 0;
    while i < |es|
      invariant 0 <= i <= |es|
      invariant keys == TeacherKeys(base + Tagged(gd.groupId, es, i), teacherId)
    {
      TeacherKeysStep(base + Tagged(gd.groupId, es, i), (gd.groupId, es[i]), teacherId);
      TaggedSnoc(gd.groupId, es, base, i);
      if es[i].teacherId == teacherId {
        keys := keys + {AutoScheduleRules.SlotKey(AutoScheduleRules.SlotOf(es[i]))};
      }
      i := i + 1;
    }
  }

  method CheckSuzuki(teachers: seq<Teacher>, groups: seq<GroupData>) returns (errs: seq<Problem>)
    ensures errs == SuzukiProblems(teachers, Placements(groups))
  {
    errs := [];
    var suzuki := Sorting.Find(teachers, NamedTeacher(SUZUKI));
    if suzuki.Some? && suzuki.value.requireConfirmed {
      var keys := CollectTeacherKeys(groups, suzuki.value.id);
      if !AnyContains(keys, JAN19_EXPECTED) {
        errs := errs + [Bare(ErrorKind, JAN19_MISSING)];
      }
      if !AnyContains(keys, JAN21_EXPECTED) {
        errs := errs + [Bare(ErrorKind, JAN21_MISSING)];
      }
    }
  }

  /** A non-negative number renders without '-'. */
  lemma NoDashInNat(n: nat)
    ensures '-' !in Strings.NatToString(n)
  {
    var t := Strings.NatToString(n);
    forall k | 0 <= k < |t| ensures t[k] != '-' {
      assert '0' <= t[k] <= '9';
    }
  }

  /** In a slot key, a '-' is never followed by "15". */
  lemma DashNeverBefore15(slot: Slot, j: nat)
    requires j + 2 < |AutoScheduleRules.SlotKey(slot)|
    ensures !(AutoScheduleRules.SlotKey(slot)[j] == '-' && AutoScheduleRules.SlotKey(slot)[j + 1] == '1' && AutoScheduleRules.SlotKey(slot)[j + 2] == '5')
      || j == 0
  {
    var w := Strings.IntToString(slot.week);
    var d, p := DayName(slot.day), PeriodName(slot.period);
    var key := AutoScheduleRules.SlotKey(slot);
    assert key == w + "-" + d + "-" + p;
    assert |d| == 1 && d[0] != '1' && d[0] != '-';
    assert |p| == 2 && p[1] == '限' && p[0] != '-';
    if j < |w| {
      if j > 0 {
        if slot.week < 0 {
          NoDashInNat(-slot.week);
          assert key[j] == Strings.NatToString(-slot.week)[j - 1];
        } else {
          NoDashInNat(slot.week);
          assert key[j] == w[j];
        }
      }
    } else if j == |w| {
      assert key[j + 1] == d[0];
    } else if j == |w| + 1 {
      assert key[j] == d[0];
    } else {
      assert key[j + 2] == p[1];
    }
  }

  /**
   * No slot key contains "15-月-14-15": period labels are "1限" to "4限", so the
   * 1/19 check reports its error whenever it runs.
   */
  lemma Jan19NeverFound(slot: Slot)
    ensures !Strings.Contains(AutoScheduleRules.SlotKey(slot), JAN19_EXPECTED)
  {
    var key := AutoScheduleRules.SlotKey(slot);
    forall i | 0 <= i <= |key| ensures !Strings.OccursAt(key, JAN19_EXPECTED, i) {
      if i + 10 <= |key| {
        DashNeverBefore15(slot, i + 7);
        assert key[i..i + 10][7] == key[i + 7] && key[i..i + 10][8] == key[i + 8] && key[i..i + 10][9] == key[i + 9];
      }
    }
  }

  /** Whenever Suzuki is found and requires confirmation, the 1/19 error comes first, whatever the schedule. */
  lemma Jan19AlwaysReported(teachers: seq<Teacher>, ps: seq<(string, Entry)>)
    requires exists t :: t in teachers && t.name == SUZUKI
    requires Sorting.Find(teachers, NamedTeacher(SUZUKI)).value.requireConfirmed
    ensures |SuzukiProblems(teachers, ps)| >= 1 && SuzukiProblems(teachers, ps)[0] == Bare(ErrorKind, JAN19_MISSING)
  {
    var t := Sorting.Find(teachers, NamedTeacher(SUZUKI)).value;
    forall k | k in TeacherKeys(ps, t.id) ensures !Strings.Contains(k, JAN19_EXPECTED) {
      TeacherKeysSlots(ps, t.id, k);
      var j :| 0 <= j < |ps| && k == AutoScheduleRules.SlotKey(AutoScheduleRules.SlotOf(ps[j].1));
      Jan19NeverFound(AutoScheduleRules.SlotOf(ps[j].1));
    }
  }

  lemma {:induction false} TeacherKeysSlots(ps: seq<(string, Entry)>, teacherId: string, k: string)
    requires k in TeacherKeys(ps, teacherId)
    ensures exists j :: 0 <= j < |ps| && ps[j].1.teacherId == teacherId && k == AutoScheduleRules.SlotKey(AutoScheduleRules.SlotOf(ps[j].1))
  {
    var init := ps[..|ps| - 1];
    if k in TeacherKeys(init, teacherId) {
      TeacherKeysSlots(init, teacherId, k);
      var j :| 0 <= j < |init| && init[j].1.teacherId == teacherId && k == AutoScheduleRules.SlotKey(AutoScheduleRules.SlotOf(init[j].1));
      assert ps[j] == init[j];
    }
  }

  /** A Suzuki entry in week 15 on Wednesday, first period, satisfies the 1/21 check. */
  lemma Jan21FoundAtWeek15(e: Entry)
    requires e.week == 15 && e.day == Wed && e.period == P1
    ensures Strings.Contains(AutoScheduleRules.SlotKey(AutoScheduleRules.SlotOf(e)), JAN21_EXPECTED)
  {
    var key := AutoScheduleRules.SlotKey(AutoScheduleRules.SlotOf(e));
    assert Strings.NatToString(15) == "15" by {
      assert Strings.NatToString(1) == "1";
    }
    assert key == "15-水-1限";
    assert Strings.OccursAt(key, JAN21_EXPECTED, 0);
  }

  // ---------------------------------------------------------------------------
  // Teachers whose constraints need confirming
  // ---------------------------------------------------------------------------

  const NEEDS_CONFIRMATION := ["Fiona", "吉井幸宗", "夏井美果", "松永祐一", "副島小春", "岩木健"]

  function NoneConfirmedText(name: string): string { name + "先生の制約が未確認です（confirmed/ng/wish全て空）" }
  function NoConfirmedDayText(name: string): string { name + "先生のconfirmed（確定可能日）が空です" }

  predicate ConfirmedDay(c: TeacherConstraints) { c.confirmed.Some? && c.confirmed.value.daySet }
  predicate NgDay(c: TeacherConstraints) { c.ng.Some? && c.ng.value.daySet }
  predicate WishDay(c: TeacherConstraints) { c.wish.Some? && c.wish.value.daySet }

  /** The warning for one name, if its teacher exists and has constraints. */
  function ConfirmationWarning(teachers: seq<Teacher>, name: string): (r: seq<Problem>)
    ensures |r| <= 1
    ensures r == [] <==> match Sorting.Find(teachers, NamedTeacher(name))
      case None => true
      case Some(t) => t.constraints.None? || ConfirmedDay(t.constraints.value)
    ensures forall k :: 0 <= k < |r| ==> r[k].severity == WarningKind
    ensures |r| == 1 ==>
      var c := Sorting.Find(teachers, NamedTeacher(name)).value.constraints.value;
      r[0].message == if !NgDay(c) && !WishDay(c) then NoneConfirmedText(name) else NoConfirmedDayText(name)
  {
    match Sorting.Find(teachers, NamedTeacher(name))
    case None => []
    case Some(t) =>
      if t.constraints.None? then []
      else
        var c := t.constraints.value;
        if !ConfirmedDay(c) && !NgDay(c) && !WishDay(c) then [Bare(WarningKind, NoneConfirmedText(name))]
        else if !ConfirmedDay(c) then [Bare(WarningKind, NoConfirmedDayText(name))]
        else []
  }

  function ConfirmationWarnings(teachers: seq<Teacher>, names: seq<string>): (r: seq<Problem>)
    ensures |r| <= |names|
    ensures forall k :: 0 <= k < |r| ==> r[k].severity == WarningKind
  {
    if names == [] then []
    else ConfirmationWarnings(teachers, names[..|names| - 1]) + ConfirmationWarning(teachers, names[|names| - 1])
  }

  method CheckConfirmations(teachers: seq<Teacher>) returns (ws: seq<Problem>)
    ensures ws == ConfirmationWarnings(teachers, NEEDS_CONFIRMATION)
  {
    ws := [];
    var n := 0;
    while n < |NEEDS_CONFIRMATION|
      invariant 0 <= n <= |NEEDS_CONFIRMATION|
      invariant ws == ConfirmationWarnings(teachers, NEEDS_CONFIRMATION[..n])
    {
      assert NEEDS_CONFIRMATION[..n + 1][..n] == NEEDS_CONFIRMATION[..n];
      var name := NEEDS_CONFIRMATION[n];
      var teacher := Sorting.Find(teachers, NamedTeacher(name));
      if teacher.Some? && teacher.value.constraints.Some? {
        var c := teacher.value.constraints.value;
        if !ConfirmedDay(c) && !NgDay(c) && !WishDay(c) {
          ws := ws + [Bare(WarningKind, NoneConfirmedText(name))];
        } else if !ConfirmedDay(c) {
          ws := ws + [Bare(WarningKind, NoConfirmedDayText(name))];
        }
      }
      n := n + 1;
    }
    assert NEEDS_CONFIRMATION[..|NEEDS_CONFIRMATION|] == NEEDS_CONFIRMATION;
  }

  // ---------------------------------------------------------------------------
  // The whole check
  // ---------------------------------------------------------------------------

  /** Everything `checkConsistency` reports, in order. */
  function Problems(teachers: seq<Teacher>, subjects: seq<Subject>, data: Option<SemesterData>): (r: seq<Problem>)
    ensures data.None? || data.value.groups.None? ==> r == [Bare(ErrorKind, NO_DATA)]
  {
    if data.None? || data.value.groups.None? then [Bare(ErrorKind, NO_DATA)]
    else
      var ps := Placements(data.value.groups.value);
      JointProblems(subjects, ps)
        + SlotProblems(subjects, Grouping.GroupBy(ComboKvs(subjects, ps)))
        + SuzukiProblems(teachers, ps)
        + ConfirmationWarnings(teachers, NEEDS_CONFIRMATION)
  }

  method CheckConsistency(teachers: seq<Teacher>, subjects: seq<Subject>, data: Option<SemesterData>)
    returns (problems: seq<Problem>)
    ensures problems == Problems(teachers, subjects, data)
  {
    if data.None? || data.value.groups.None? {
      problems := [Bare(ErrorKind, NO_DATA)];
      return;
    }
    var groups := data.value.groups.value;
    var slots, jointErrs := CollectComboSlots(subjects, groups);
    var pairErrs := CheckComboPairs(subjects, slots);
    var suzukiErrs := CheckSuzuki(teachers, groups);
    var warnings := CheckConfirmations(teachers);
    problems := jointErrs + pairErrs + suzukiErrs + warnings;
  }

  /** The test `p.severity === severity` the summary counts with. */
  function OfSeverity(severity: Severity): Problem -> bool
  {
    (p: Problem) => p.severity == severity
  }

  function ErrorCount(ps: seq<Problem>): nat
  {
    |Sorting.Filter(ps, OfSeverity(ErrorKind))|
  }

  function WarningCount(ps: seq<Problem>): nat
  {
    |Sorting.Filter(ps, OfSeverity(WarningKind))|
  }

  /** Every reported problem is counted once, as an error or as a warning. */
  lemma {:induction false} CountsPartition(ps: seq<Problem>)
    ensures ErrorCount(ps) + WarningCount(ps) == |ps|
  {
    if ps != [] {
      CountsPartition(ps[1..]);
    }
  }

  /**
   * With timetable data present, the warnings are exactly the confirmation warnings and
   * every other problem (joint, combo pair, Suzuki) is counted as an error.
   */
  lemma SeverityCounts(teachers: seq<Teacher>, subjects: seq<Subject>, data: Option<SemesterData>)
    requires data.Some? && data.value.groups.Some?
    ensures WarningCount(Problems(teachers, subjects, data)) == |ConfirmationWarnings(teachers, NEEDS_CONFIRMATION)|
    ensures ErrorCount(Problems(teachers, subjects, data)) == |Problems(teachers, subjects, data)| - |ConfirmationWarnings(teachers, NEEDS_CONFIRMATION)|
  {
    var ps := Placements(data.value.groups.value);
    var errs := JointProblems(subjects, ps)
      + SlotProblems(subjects, Grouping.GroupBy(ComboKvs(subjects, ps)))
      + SuzukiProblems(teachers, ps);
    var ws := ConfirmationWarnings(teachers, NEEDS_CONFIRMATION);
    JointProblemsAreErrors(subjects, ps);
    assert Problems(teachers, subjects, data) == errs + ws;
    ErrorsThenWarnings(errs, ws);
  }

  /** Errors followed by warnings are counted as such. */
  lemma ErrorsThenWarnings(errs: seq<Problem>, ws: seq<Problem>)
    requires forall k :: 0 <= k < |errs| ==> errs[k].severity == ErrorKind
    requires forall k :: 0 <= k < |ws| ==> ws[k].severity == WarningKind
    ensures WarningCount(errs + ws) == |ws| && ErrorCount(errs + ws) == |errs|
  {
    Sorting.FilterAppend(errs, ws, OfSeverity(WarningKind));
    Sorting.FilterAppend(errs, ws, OfSeverity(ErrorKind));
    Sorting.FilterNone(errs, OfSeverity(WarningKind));
    Sorting.FilterAll(errs, OfSeverity(ErrorKind));
    Sorting.FilterNone(ws, OfSeverity(ErrorKind));
    Sorting.FilterAll(ws, OfSeverity(WarningKind));
  }

  /** The value of the decimal digits of a number is that number. */
  lemma {:induction false} DigitsValueNat(n: nat)
    ensures DigitsValue(Strings.NatToString(n)) == n
    decreases n
  {
    var t := Strings.NatToString(n);
    if n < 10 {
      assert t == [Strings.DigitChar(n)];
      DigitCharValue(n);
    } else {
      DigitsValueNat(n / 10);
      assert t[..|t| - 1] == Strings.NatToString(n / 10);
      DigitCharValue(n % 10);
    }
  }

  lemma DigitCharValue(d: nat)
    requires d < 10
    ensures Strings.DigitChar(d) as int - '0' as int == d
  {
    if d == 0 {} else if d == 1 {} else if d == 2 {} else if d == 3 {} else if d == 4 {}
    else if d == 5 {} else if d == 6 {} else if d == 7 {} else if d == 8 {} else {}
  }

  /** A slot key of a non-negative week splits at '-' into the week, the day and the period. */
  lemma SlotKeySplit(slot: Slot)
    requires slot.week >= 0
    ensures Strings.Split(AutoScheduleRules.SlotKey(slot), '-') ==
      [Strings.NatToString(slot.week), DayName(slot.day), PeriodName(slot.period)]
  {
    var w, d, p := Strings.NatToString(slot.week), DayName(slot.day), PeriodName(slot.period);
    NoDashInNat(slot.week);
    assert '-' !in d && '-' !in p;
    assert AutoScheduleRules.SlotKey(slot) == w + ['-'] + (d + ['-'] + p);
    Strings.SplitAfterPart(w, d + ['-'] + p, '-');
    Strings.SplitAfterPart(d, p, '-');
  }

  /** A one-half combo error in a slot of a non-negative week reports that slot's week, day and period. */
  lemma PairProblemAtSlot(subjects: seq<Subject>, slot: Slot, pairId: string, first: string)
    requires slot.week >= 0
    ensures PairProblem(subjects, slot, pairId, first).week == Some(slot.week)
    ensures PairProblem(subjects, slot, pairId, first).day == Some(DayName(slot.day))
    ensures PairProblem(subjects, slot, pairId, first).period == Some(PeriodName(slot.period))
  {
    SlotKeySplit(slot);
    DigitsValueNat(slot.week);
  }
}
