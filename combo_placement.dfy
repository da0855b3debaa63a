/**
 * The combo placement checks of the semester timetable: every combo subject must share
 * its slot with its partner in the same group. The subject list is a parameter; the
 * schedule is the group-to-entries map, in its iteration order.
 */
module ComboPlacement {
  import opened Wrappers
  import opened Strings
  import opened Types
  import AutoScheduleRules
  import Sorting

  type Entry = AutoScheduleRules.GeneratedEntry

  datatype GroupSchedule = GroupSchedule(groupId: string, entries: seq<Entry>)

  /** One entry of a `slotMap`: a slot and the entries placed there, in order. */
  datatype SlotBucket = SlotBucket(slot: AutoScheduleRules.Slot, entries: seq<Entry>)

  function FindSubject(subjects: seq<Subject>, id: string): (r: Option<Subject>)
    ensures r.Some? ==> r.value in subjects && r.value.id == id
    ensures r.None? <==> forall s :: s in subjects ==> s.id != id
  {
    if subjects == [] then None else if subjects[0].id == id then Some(subjects[0]) else FindSubject(subjects[1..], id)
  }

  // ---------------------------------------------------------------------------
  // The slot map
  // ---------------------------------------------------------------------------

  /** The position of `slot`'s bucket, if it has one. */
  function BucketIndex(buckets: seq<SlotBucket>, slot: AutoScheduleRules.Slot): (r: Option<nat>)
    ensures r.Some? ==> r.value < |buckets| && buckets[r.value].slot == slot
    ensures r.None? ==> forall i :: 0 <= i < |buckets| ==> buckets[i].slot != slot
  {
    if buckets == [] then None
    else if buckets[0].slot == slot then Some(0)
    else match BucketIndex(buckets[1..], slot)
      case None => None
      case Some(i) => Some(i + 1)
  }

  /** `slotMap.get(key) || []`, then push and `set`: a new slot goes last. */
  function AddToSlotMap(buckets: seq<SlotBucket>, e: Entry): seq<SlotBucket>
  {
    match BucketIndex(buckets, AutoScheduleRules.SlotOf(e))
    case Some(i) => buckets[i := SlotBucket(buckets[i].slot, buckets[i].entries + [e])]
    case None => buckets + [SlotBucket(AutoScheduleRules.SlotOf(e), [e])]
  }

  function SlotMapOf(es: seq<Entry>): seq<SlotBucket>
  {
    if es == [] then [] else AddToSlotMap(SlotMapOf(es[..|es| - 1]), es[|es| - 1])
  }

  /** The slot-map loop over a group's entries. */
  method GroupBySlot(entries: seq<Entry>) returns (buckets: seq<SlotBucket>)
    ensures buckets == SlotMapOf(entries)
  {
    buckets := [];
    var i := 0;
    while i < |entries|
      invariant 0 <= i <= |entries| && buckets == SlotMapOf(entries[..i])
    {
      var e := entries[i];
      var k := 0;
      while k < |buckets| && buckets[k].slot != AutoScheduleRules.SlotOf(e)
        invariant 0 <= k <= |buckets|
        invariant forall j :: 0 <= j < k ==> buckets[j].slot != AutoScheduleRules.SlotOf(e)
      {
        k := k + 1;
      }
      FirstBucket(buckets, AutoScheduleRules.SlotOf(e), k);
      if k < |buckets| {
        buckets := buckets[k := SlotBucket(buckets[k].slot, buckets[k].entries + [e])];
      } else {
        buckets := buckets + [SlotBucket(AutoScheduleRules.SlotOf(e), [e])];
      }
      assert entries[..i + 1][..i] == entries[..i];
      i := i + 1;
    }
    assert entries[..i] == entries;
  }

  /** The linear search for a bucket stops where BucketIndex points. */
  lemma {:induction false} FirstBucket(buckets: seq<SlotBucket>, slot: AutoScheduleRules.Slot, k: nat)
    requires k <= |buckets| && (k < |buckets| ==> buckets[k].slot == slot)
    requires forall j :: 0 <= j < k ==> buckets[j].slot != slot
    ensures BucketIndex(buckets, slot) == if k < |buckets| then Some(k) else None
  {
    if buckets != [] && k > 0 {
      FirstBucket(buckets[1..], slot, k - 1);
    }
  }

  /** The bucket holds exactly the entries of `es` at its slot. */
  ghost predicate BucketOf(b: SlotBucket, es: seq<Entry>)
  {
    forall x :: x in b.entries <==> x in es && AutoScheduleRules.SlotOf(x) == b.slot
  }

  /** Each bucket holds exactly the entries of its slot, the slots are distinct, and every entry has its bucket. */
  ghost predicate BucketsExact(buckets: seq<SlotBucket>, es: seq<Entry>)
  {
    (forall i, j :: 0 <= i < j < |buckets| ==> buckets[i].slot != buckets[j].slot)
    && (forall i :: 0 <= i < |buckets| ==> BucketOf(buckets[i], es))
    && (forall x :: x in es ==> exists i :: 0 <= i < |buckets| && buckets[i].slot == AutoScheduleRules.SlotOf(x))
  }

  lemma AddToSlotMapExact(buckets: seq<SlotBucket>, es: seq<Entry>, e: Entry)
    requires BucketsExact(buckets, es)
    ensures BucketsExact(AddToSlotMap(buckets, e), es + [e])
  {
    var r := AddToSlotMap(buckets, e);
    match BucketIndex(buckets, AutoScheduleRules.SlotOf(e))
    case Some(k) =>
      forall x | x in es + [e] ensures exists i :: 0 <= i < |r| && r[i].slot == AutoScheduleRules.SlotOf(x) {
        if x in es {
          var i :| 0 <= i < |buckets| && buckets[i].slot == AutoScheduleRules.SlotOf(x);
          assert r[i].slot == buckets[i].slot;
        } else {
          assert r[k].slot == AutoScheduleRules.SlotOf(x);
        }
      }
    case None =>
      forall x | x in es + [e] ensures exists i :: 0 <= i < |r| && r[i].slot == AutoScheduleRules.SlotOf(x) {
        if x in es {
          var i :| 0 <= i < |buckets| && buckets[i].slot == AutoScheduleRules.SlotOf(x);
          assert r[i].slot == buckets[i].slot;
        } else {
          assert r[|buckets|].slot == AutoScheduleRules.SlotOf(x);
        }
      }
  }

  /** The test "this entry sits at `slot`". */
  function AtSlot(slot: AutoScheduleRules.Slot): Entry -> bool
  {
    (x: Entry) => AutoScheduleRules.SlotOf(x) == slot
  }

  /** Each bucket holds the entries of its slot in the order of `es`, with their repeats. */
  ghost predicate BucketsInOrder(buckets: seq<SlotBucket>, es: seq<Entry>)
  {
    forall i :: 0 <= i < |buckets| ==> buckets[i].entries == Sorting.Filter(es, AtSlot(buckets[i].slot))
  }

  /** Adding the last entry of `all` to the slot map of the others keeps every bucket in order. */
  lemma AddToSlotMapInOrder(buckets: seq<SlotBucket>, all: seq<Entry>)
    requires all != []
    requires BucketsExact(buckets, all[..|all| - 1]) && BucketsInOrder(buckets, all[..|all| - 1])
    ensures BucketsInOrder(AddToSlotMap(buckets, all[|all| - 1]), all)
  {
    var es, e := all[..|all| - 1], all[|all| - 1];
    assert es + [e] == all;
    var r := AddToSlotMap(buckets, e);
    var se := AutoScheduleRules.SlotOf(e);
    forall i | 0 <= i < |r| ensures r[i].entries == Sorting.Filter(all, AtSlot(r[i].slot)) {
      Sorting.FilterSnoc(es, e, AtSlot(r[i].slot));
      match BucketIndex(buckets, se)
      case Some(k) =>
        if i != k {
          assert buckets[i].slot != buckets[k].slot by {
            if i < k { assert buckets[i].slot != buckets[k].slot; } else { assert buckets[k].slot != buckets[i].slot; }
          }
        }
      case None =>
        if i == |buckets| {
          forall x | x in es ensures !AtSlot(se)(x) {
            var j :| 0 <= j < |buckets| && buckets[j].slot == AutoScheduleRules.SlotOf(x);
          }
          Sorting.FilterNone(es, AtSlot(se));
        }
    }
  }

  /** The slot map groups a group's entries by slot, each bucket keeping its entries in order. */
  lemma SlotMapExact(es: seq<Entry>)
    ensures BucketsExact(SlotMapOf(es), es)
    ensures BucketsInOrder(SlotMapOf(es), es)
  {
    SlotMapBuckets(es);
    SlotMapInOrder(es);
  }

  lemma {:induction false} SlotMapBuckets(es: seq<Entry>)
    ensures BucketsExact(SlotMapOf(es), es)
  {
    if es != [] {
      var init, e := es[..|es| - 1], es[|es| - 1];
      SlotMapBuckets(init);
      AddToSlotMapExact(SlotMapOf(init), init, e);
      assert init + [e] == es;
    }
  }

  lemma {:induction false} SlotMapInOrder(es: seq<Entry>)
    ensures BucketsInOrder(SlotMapOf(es), es)
  {
    if es != [] {
      var init, e := es[..|es| - 1], es[|es| - 1];
      SlotMapBuckets(init);
      SlotMapInOrder(init);
      AddToSlotMapInOrder(SlotMapOf(init), es);
    }
  }

  // ---------------------------------------------------------------------------
  // validateComboPlacement, first pass: a combo entry whose partner is not in its slot
  // ---------------------------------------------------------------------------

  const WEEK_OPEN: string := " - 第"
  const WEEK_CLOSE: string := "週 "
  const DAY_SUFFIX: string := "曜"
  const LABEL_END: string := ": "
  const PAIR_MISSING: string := " のペア科目が同時配置されていません"

  function SlotLabel(groupId: string, e: Entry): string
  {
    groupId + WEEK_OPEN + IntToString(e.week) + WEEK_CLOSE + DayName(e.day) + DAY_SUFFIX + PeriodName(e.period) + LABEL_END
  }

  function PairMessage(groupId: string, e: Entry, subject: Subject): string
  {
    SlotLabel(groupId, e) + subject.name + PAIR_MISSING
  }

  /** The id of the opposite-role subject of the same combo pair (role A looks for B, anything else for A). */
  function PairSubjectId(subjects: seq<Subject>, subject: Subject): (r: Option<string>)
    ensures r.Some? ==> exists p :: p in subjects && p.id == r.value && p.comboPairId == subject.comboPairId
  {
    var role := if subject.comboRole == Some(RoleA) then RoleB else RoleA;
    RoleSubjectId(subjects, subject.comboPairId, role)
  }

  /** The id of the first subject of combo pair `pairId` with role `role`. */
  function RoleSubjectId(subjects: seq<Subject>, pairId: Option<string>, role: ComboRole): (r: Option<string>)
    ensures r.Some? ==> exists p :: p in subjects && p.id == r.value && p.comboPairId == pairId
  {
    if subjects == [] then None
    else if subjects[0].comboPairId == pairId && subjects[0].comboRole == Some(role) then Some(subjects[0].id)
    else RoleSubjectId(subjects[1..], pairId, role)
  }

  /** The subject of a combo entry: found, and with a non-empty comboPairId. */
  function ComboSubject(subjects: seq<Subject>, e: Entry): (r: Option<Subject>)
    ensures r.Some? ==> r.value in subjects && r.value.id == e.subjectId && TruthyString(r.value.comboPairId)
  {
    match FindSubject(subjects, e.subjectId)
    case None => None
    case Some(s) => if TruthyString(s.comboPairId) then Some(s) else None
  }

  /** The first pass's verdict on one entry of a slot: its issue, if its partner subject exists and is missing there. */
  function PairIssue(groupId: string, slotEntries: seq<Entry>, e: Entry, subjects: seq<Subject>): seq<string>
  {
    match ComboSubject(subjects, e)
    case None => []
    case Some(s) =>
      match PairSubjectId(subjects, s)
      case None => []
      case Some(pid) =>
        if pid != "" && !HasSubjectEntry(slotEntries, pid) then [PairMessage(groupId, e, s)] else []
  }

  /** `es.find(e => e.subjectId === id)` finds an entry. */
  predicate HasSubjectEntry(es: seq<Entry>, id: string)
  {
    es != [] && (es[|es| - 1].subjectId == id || HasSubjectEntry(es[..|es| - 1], id))
  }

  function PairIssuesIn(groupId: string, slotEntries: seq<Entry>, es: seq<Entry>, subjects: seq<Subject>): seq<string>
  {
    if es == [] then []
    else PairIssuesIn(groupId, slotEntries, es[..|es| - 1], subjects) + PairIssue(groupId, slotEntries, es[|es| - 1], subjects)
  }

  /** The first-pass messages of one bucket, each entry checked against the bucket's entries. */
  function BucketIssue(groupId: string, b: SlotBucket, subjects: seq<Subject>): seq<string>
  {
    PairIssuesIn(groupId, b.entries, b.entries, subjects)
  }

  function BucketIssues(groupId: string, buckets: seq<SlotBucket>, subjects: seq<Subject>): seq<string>
  {
    if buckets == [] then []
    else BucketIssues(groupId, buckets[..|buckets| - 1], subjects) + BucketIssue(groupId, buckets[|buckets| - 1], subjects)
  }

  /** All first-pass issues, group by group and slot by slot. */
  function PairIssues(schedule: seq<GroupSchedule>, subjects: seq<Subject>): seq<string>
  {
    if schedule == [] then []
    else
      var g := schedule[|schedule| - 1];
      PairIssues(schedule[..|schedule| - 1], subjects) + BucketIssues(g.groupId, SlotMapOf(g.entries), subjects)
  }

  lemma InSingleton<T>(x: T, y: T)
    requires x in [y]
    ensures x == y
  {
  }

  lemma ConcatAssoc(a: seq<string>, b: seq<string>, c: seq<string>)
    ensures (a + b) + c == a + (b + c)
  {
  }

  lemma BucketIssuesSnoc(groupId: string, buckets: seq<SlotBucket>, k: nat, subjects: seq<Subject>)
    requires k < |buckets|
    ensures BucketIssues(groupId, buckets[..k + 1], subjects)
      == BucketIssues(groupId, buckets[..k], subjects) + PairIssuesIn(groupId, buckets[k].entries, buckets[k].entries, subjects)
  {
    assert buckets[..k + 1][..k] == buckets[..k];
  }

  lemma PairIssuesSnoc(schedule: seq<GroupSchedule>, g: nat, subjects: seq<Subject>)
    requires g < |schedule|
    ensures PairIssues(schedule[..g + 1], subjects)
      == PairIssues(schedule[..g], subjects) + BucketIssues(schedule[g].groupId, SlotMapOf(schedule[g].entries), subjects)
  {
    assert schedule[..g + 1][..g] == schedule[..g];
  }

  lemma PairIssuesInTake(groupId: string, slotEntries: seq<Entry>, i: nat, subjects: seq<Subject>)
    requires i < |slotEntries|
    ensures PairIssuesIn(groupId, slotEntries, slotEntries[..i + 1], subjects)
      == PairIssuesIn(groupId, slotEntries, slotEntries[..i], subjects) + PairIssue(groupId, slotEntries, slotEntries[i], subjects)
  {
    assert slotEntries[..i + 1][..i] == slotEntries[..i];
  }

  method CheckSlotPairs(groupId: string, slotEntries: seq<Entry>, subjects: seq<Subject>, issues0: seq<string>)
    returns (issues: seq<string>)
    ensures issues == issues0 + PairIssuesIn(groupId, slotEntries, slotEntries, subjects)
  {
    issues := issues0;
    var i := 0;
    while i < |slotEntries|
      invariant 0 <= i <= |slotEntries|
      invariant issues == issues0 + PairIssuesIn(groupId, slotEntries, slotEntries[..i], subjects)
    {
      var entry := slotEntries[i];
      PairIssuesInTake(groupId, slotEntries, i, subjects);
      ConcatAssoc(issues0, PairIssuesIn(groupId, slotEntries, slotEntries[..i], subjects), PairIssue(groupId, slotEntries, entry, subjects));
      issues := issues + PairIssue(groupId, slotEntries, entry, subjects);
      i := i + 1;
    }
    assert slotEntries[..i] == slotEntries;
  }

  method CheckGroupPairs(groupId: string, entries: seq<Entry>, subjects: seq<Subject>, issues0: seq<string>)
    returns (issues: seq<string>)
    ensures issues == issues0 + BucketIssues(groupId, SlotMapOf(entries), subjects)
  {
    var slotMap := GroupBySlot(entries);
    issues := issues0;
    var k := 0;
    while k < |slotMap|
      invariant 0 <= k <= |slotMap|
      invariant issues == issues0 + BucketIssues(groupId, slotMap[..k], subjects)
    {
      issues := CheckSlotPairs(groupId, slotMap[k].entries, subjects, issues);
      BucketIssuesSnoc(groupId, slotMap, k, subjects);
      ConcatAssoc(issues0, BucketIssues(groupId, slotMap[..k], subjects), PairIssuesIn(groupId, slotMap[k].entries, slotMap[k].entries, subjects));
      k := k + 1;
    }
    assert slotMap[..k] == slotMap;
  }

  // ---------------------------------------------------------------------------
  // validateComboPlacement, second pass: a combo entry alone in its slot
  // ---------------------------------------------------------------------------

  const ORPHAN_OPEN: string := " が片割れ配置（"
  const ORPHAN_CLOSE: string := "なし）"

  function OrphanMessage(groupId: string, e: Entry, subject: Subject, partner: Subject): string
  {
    SlotLabel(groupId, e) + subject.name + ORPHAN_OPEN + partner.name + ORPHAN_CLOSE
  }

  /** `x` is an entry of another subject of `subject`'s combo pair. */
  predicate PartnerEntry(subjects: seq<Subject>, subject: Subject, x: Entry)
  {
    match FindSubject(subjects, x.subjectId)
    case None => false
    case Some(o) => o.comboPairId == subject.comboPairId && o.id != subject.id
  }

  /** Some entry of `es` at `slot` is a partner entry of `subject`. */
  predicate HasPartnerEntry(subjects: seq<Subject>, subject: Subject, es: seq<Entry>, slot: AutoScheduleRules.Slot)
  {
    es != [] && (
      (AutoScheduleRules.SlotOf(es[|es| - 1]) == slot && PartnerEntry(subjects, subject, es[|es| - 1]))
      || HasPartnerEntry(subjects, subject, es[..|es| - 1], slot))
  }

  /** The first other subject of `subject`'s combo pair. */
  function PartnerSubject(subjects: seq<Subject>, subject: Subject): (r: Option<Subject>)
    ensures r.Some? ==> r.value in subjects && r.value.comboPairId == subject.comboPairId && r.value.id != subject.id
    ensures r.None? <==> forall p :: p in subjects ==> !(p.comboPairId == subject.comboPairId && p.id != subject.id)
  {
    if subjects == [] then None
    else if subjects[0].comboPairId == subject.comboPairId && subjects[0].id != subject.id then Some(subjects[0])
    else PartnerSubject(subjects[1..], subject)
  }

  /** The group's entries at `slot`, in order (`entries.filter`). */
  function SameSlot(entries: seq<Entry>, slot: AutoScheduleRules.Slot): (r: seq<Entry>)
    ensures forall x :: x in r <==> x in entries && AutoScheduleRules.SlotOf(x) == slot
  {
    if entries == [] then []
    else
      var last := entries[|entries| - 1];
      SameSlot(entries[..|entries| - 1], slot) + (if AutoScheduleRules.SlotOf(last) == slot then [last] else [])
  }

  /** The second pass's verdict: an issue when no partner entry shares the slot and a partner subject exists. */
  function OrphanIssue(groupId: string, entries: seq<Entry>, e: Entry, subjects: seq<Subject>): seq<string>
  {
    match ComboSubject(subjects, e)
    case None => []
    case Some(s) =>
      if HasPartnerEntry(subjects, s, entries, AutoScheduleRules.SlotOf(e)) then []
      else
        match PartnerSubject(subjects, s)
        case None => []
        case Some(p) => [OrphanMessage(groupId, e, s, p)]
  }

  function OrphanIssuesIn(groupId: string, entries: seq<Entry>, es: seq<Entry>, subjects: seq<Subject>): seq<string>
  {
    if es == [] then []
    else OrphanIssuesIn(groupId, entries, es[..|es| - 1], subjects) + OrphanIssue(groupId, entries, es[|es| - 1], subjects)
  }

  function OrphanIssues(schedule: seq<GroupSchedule>, subjects: seq<Subject>): seq<string>
  {
    if schedule == [] then []
    else
      OrphanIssues(schedule[..|schedule| - 1], subjects) + GroupOrphanIssues(schedule[|schedule| - 1], subjects)
  }

  /** The second-pass messages of one group, each entry checked against the group's entries. */
  function GroupOrphanIssues(g: GroupSchedule, subjects: seq<Subject>): seq<string>
  {
    OrphanIssuesIn(g.groupId, g.entries, g.entries, subjects)
  }

  lemma OrphanIssuesSnoc(schedule: seq<GroupSchedule>, g: nat, subjects: seq<Subject>)
    requires g < |schedule|
    ensures OrphanIssues(schedule[..g + 1], subjects)
      == OrphanIssues(schedule[..g], subjects) + OrphanIssuesIn(schedule[g].groupId, schedule[g].entries, schedule[g].entries, subjects)
  {
    assert schedule[..g + 1][..g] == schedule[..g];
  }

  lemma OrphanIssuesInSnoc(groupId: string, entries: seq<Entry>, es: seq<Entry>, i: nat, subjects: seq<Subject>)
    requires i < |es|
    ensures OrphanIssuesIn(groupId, entries, es[..i + 1], subjects)
      == OrphanIssuesIn(groupId, entries, es[..i], subjects) + OrphanIssue(groupId, entries, es[i], subjects)
  {
    assert es[..i + 1][..i] == es[..i];
  }

  /** The second pass's check of one entry against the entries of its slot. */
  method CheckEntryOrphan(groupId: string, entries: seq<Entry>, entry: Entry, subjects: seq<Subject>)
    returns (found: seq<string>)
    ensures found == OrphanIssue(groupId, entries, entry, subjects)
  {
    found := [];
    var subject := ComboSubject(subjects, entry);
    if subject.None? {
      return;
    }
    var s := subject.value;
    var slotEntries := SameSlot(entries, AutoScheduleRules.SlotOf(entry));
    var hasPartner := HasPartnerEntry(subjects, s, slotEntries, AutoScheduleRules.SlotOf(entry));
    SameSlotPartner(subjects, s, entries, AutoScheduleRules.SlotOf(entry));
    if !hasPartner {
      var partner := PartnerSubject(subjects, s);
      if partner.Some? {
        found := [OrphanMessage(groupId, entry, s, partner.value)];
      }
    }
  }

  /** The second pass over one group. */
  method CheckGroupOrphans(groupId: string, entries: seq<Entry>, subjects: seq<Subject>, issues0: seq<string>)
    returns (issues: seq<string>)
    ensures issues == issues0 + OrphanIssuesIn(groupId, entries, entries, subjects)
  {
    issues := issues0;
    var i := 0;
    while i < |entries|
      invariant 0 <= i <= |entries|
      invariant issues == issues0 + OrphanIssuesIn(groupId, entries, entries[..i], subjects)
    {
      var found := CheckEntryOrphan(groupId, entries, entries[i], subjects);
      OrphanIssuesInSnoc(groupId, entries, entries, i, subjects);
      ConcatAssoc(issues0, OrphanIssuesIn(groupId, entries, entries[..i], subjects), found);
      issues := issues + found;
      i := i + 1;
    }
    assert entries[..i] == entries;
  }

  // ---------------------------------------------------------------------------
  // validateComboPlacement
  // ---------------------------------------------------------------------------

  /** `[...new Set(issues)]`: the first occurrence of each issue, in order. */
  function Dedupe(s: seq<string>): (r: seq<string>)
    ensures forall x :: x in r <==> x in s
    ensures forall i, j :: 0 <= i < j < |r| ==> r[i] != r[j]
  {
    if s == [] then []
    else
      var d := Dedupe(s[..|s| - 1]);
      assert forall x :: x in s <==> x in s[..|s| - 1] || x == s[|s| - 1];
      if s[|s| - 1] in d then d else d + [s[|s| - 1]]
  }

  /** The first pass over every group. */
  method CheckAllPairs(schedule: seq<GroupSchedule>, subjects: seq<Subject>) returns (raw: seq<string>)
    ensures raw == PairIssues(schedule, subjects)
  {
    raw := [];
    var g := 0;
    while g < |schedule|
      invariant 0 <= g <= |schedule| && raw == PairIssues(schedule[..g], subjects)
    {
      raw := CheckGroupPairs(schedule[g].groupId, schedule[g].entries, subjects, raw);
      PairIssuesSnoc(schedule, g, subjects);
      g := g + 1;
    }
    assert schedule[..g] == schedule;
  }

  /** The second pass over every group. */
  method CheckAllOrphans(schedule: seq<GroupSchedule>, subjects: seq<Subject>, raw0: seq<string>) returns (raw: seq<string>)
    ensures raw == raw0 + OrphanIssues(schedule, subjects)
  {
    raw := raw0;
    var g := 0;
    while g < |schedule|
      invariant 0 <= g <= |schedule| && raw == raw0 + OrphanIssues(schedule[..g], subjects)
    {
      raw := CheckGroupOrphans(schedule[g].groupId, schedule[g].entries, subjects, raw);
      OrphanIssuesSnoc(schedule, g, subjects);
      ConcatAssoc(raw0, OrphanIssues(schedule[..g], subjects), OrphanIssuesIn(schedule[g].groupId, schedule[g].entries, schedule[g].entries, subjects));
      g := g + 1;
    }
    assert schedule[..g] == schedule;
  }

  method ValidateComboPlacement(schedule: seq<GroupSchedule>, subjects: seq<Subject>)
    returns (isValid: bool, issues: seq<string>)
    ensures isValid <==> PairIssues(schedule, subjects) + OrphanIssues(schedule, subjects) == []
    ensures issues == Dedupe(PairIssues(schedule, subjects) + OrphanIssues(schedule, subjects))
  {
    var raw := CheckAllPairs(schedule, subjects);
    raw := CheckAllOrphans(schedule, subjects, raw);
    isValid := |raw| == 0;
    issues := Dedupe(raw);
  }

  // ---------------------------------------------------------------------------
  // What the issues mean
  // ---------------------------------------------------------------------------

  /** `e` is a combo entry whose opposite-role partner subject exists but has no entry in `e`'s slot of the group. */
  predicate MissingPair(entries: seq<Entry>, e: Entry, subjects: seq<Subject>)
  {
    match ComboSubject(subjects, e)
    case None => false
    case Some(s) =>
      match PairSubjectId(subjects, s)
      case None => false
      case Some(pid) => pid != "" && !(exists x :: x in entries && AutoScheduleRules.SlotOf(x) == AutoScheduleRules.SlotOf(e) && x.subjectId == pid)
  }

  /** `e` is a combo entry with no partner-subject entry in its slot of the group, while a partner subject exists. */
  predicate Orphaned(entries: seq<Entry>, e: Entry, subjects: seq<Subject>)
  {
    match ComboSubject(subjects, e)
    case None => false
    case Some(s) =>
      !(exists x :: x in entries && AutoScheduleRules.SlotOf(x) == AutoScheduleRules.SlotOf(e) && PartnerEntry(subjects, s, x))
      && exists p :: p in subjects && p.comboPairId == s.comboPairId && p.id != s.id
  }

  lemma {:induction false} HasSubjectEntryIff(es: seq<Entry>, id: string)
    ensures HasSubjectEntry(es, id) <==> exists x :: x in es && x.subjectId == id
  {
    if es != [] {
      HasSubjectEntryIff(es[..|es| - 1], id);
      assert forall x :: x in es <==> x in es[..|es| - 1] || x == es[|es| - 1];
    }
  }

  lemma {:induction false} HasPartnerEntryIff(subjects: seq<Subject>, subject: Subject, es: seq<Entry>, slot: AutoScheduleRules.Slot)
    ensures HasPartnerEntry(subjects, subject, es, slot) <==>
      exists x :: x in es && AutoScheduleRules.SlotOf(x) == slot && PartnerEntry(subjects, subject, x)
  {
    if es != [] {
      HasPartnerEntryIff(subjects, subject, es[..|es| - 1], slot);
      assert forall x :: x in es <==> x in es[..|es| - 1] || x == es[|es| - 1];
    }
  }

  /** Looking for a partner among the slot's entries is looking among the group's entries at that slot. */
  lemma SameSlotPartner(subjects: seq<Subject>, subject: Subject, entries: seq<Entry>, slot: AutoScheduleRules.Slot)
    ensures HasPartnerEntry(subjects, subject, SameSlot(entries, slot), slot) == HasPartnerEntry(subjects, subject, entries, slot)
  {
    HasPartnerEntryIff(subjects, subject, SameSlot(entries, slot), slot);
    HasPartnerEntryIff(subjects, subject, entries, slot);
  }

  /** An entry's first-pass issue over its bucket is its issue over the group's same-slot entries. */
  lemma BucketPairIssue(groupId: string, entries: seq<Entry>, b: SlotBucket, e: Entry, subjects: seq<Subject>)
    requires BucketOf(b, entries) && e in b.entries
    ensures PairIssue(groupId, b.entries, e, subjects) == (if MissingPair(entries, e, subjects) then [PairMessage(groupId, e, ComboSubject(subjects, e).value)] else [])
  {
    match ComboSubject(subjects, e)
    case None =>
    case Some(s) =>
      match PairSubjectId(subjects, s)
      case None =>
      case Some(pid) => HasSubjectEntryIff(b.entries, pid);
  }

  lemma {:induction false} PairIssuesInMembers(groupId: string, slotEntries: seq<Entry>, es: seq<Entry>, subjects: seq<Subject>, msg: string)
    ensures msg in PairIssuesIn(groupId, slotEntries, es, subjects) <==> exists e :: e in es && msg in PairIssue(groupId, slotEntries, e, subjects)
  {
    if es != [] {
      var init := es[..|es| - 1];
      PairIssuesInMembers(groupId, slotEntries, init, subjects, msg);
      assert forall e :: e in es <==> e in init || e == es[|es| - 1];
    }
  }

  /** A message of the first pass over some buckets is the message of one of them. */
  lemma {:induction false} BucketIssuesMembers(groupId: string, buckets: seq<SlotBucket>, subjects: seq<Subject>, msg: string)
    ensures msg in BucketIssues(groupId, buckets, subjects) <==>
      exists i :: 0 <= i < |buckets| && msg in BucketIssue(groupId, buckets[i], subjects)
  {
    if buckets != [] {
      var init := buckets[..|buckets| - 1];
      BucketIssuesMembers(groupId, init, subjects, msg);
      if msg in BucketIssues(groupId, init, subjects) {
        var i :| 0 <= i < |init| && msg in BucketIssue(groupId, init[i], subjects);
        assert buckets[i] == init[i];
      }
      if exists i :: 0 <= i < |buckets| && msg in BucketIssue(groupId, buckets[i], subjects) {
        var i :| 0 <= i < |buckets| && msg in BucketIssue(groupId, buckets[i], subjects);
        if i < |init| {
          assert init[i] == buckets[i];
        }
      }
    }
  }

  /** Each first-pass message of a group belongs to an entry that misses its pair. */
  lemma GroupPairIssuesSound(groupId: string, entries: seq<Entry>, subjects: seq<Subject>, msg: string)
    requires msg in BucketIssues(groupId, SlotMapOf(entries), subjects)
    ensures exists e :: e in entries && MissingPair(entries, e, subjects) && msg == PairMessage(groupId, e, ComboSubject(subjects, e).value)
  {
    var buckets := SlotMapOf(entries);
    SlotMapExact(entries);
    BucketIssuesMembers(groupId, buckets, subjects, msg);
    var i :| 0 <= i < |buckets| && msg in BucketIssue(groupId, buckets[i], subjects);
    PairIssuesInMembers(groupId, buckets[i].entries, buckets[i].entries, subjects, msg);
    var e :| e in buckets[i].entries && msg in PairIssue(groupId, buckets[i].entries, e, subjects);
    var b := buckets[i];
    assert BucketOf(b, entries);
    BucketPairIssue(groupId, entries, b, e, subjects);
    var found := PairIssue(groupId, b.entries, e, subjects);
    if MissingPair(entries, e, subjects) {
      var m := PairMessage(groupId, e, ComboSubject(subjects, e).value);
      assert found == [m];
      InSingleton(msg, m);
    } else {
      assert false;
    }
  }

  /** Each entry of a group that misses its pair has its message in the group's first pass. */
  lemma GroupPairIssuesComplete(groupId: string, entries: seq<Entry>, subjects: seq<Subject>, e: Entry)
    requires e in entries && MissingPair(entries, e, subjects)
    ensures PairMessage(groupId, e, ComboSubject(subjects, e).value) in BucketIssues(groupId, SlotMapOf(entries), subjects)
  {
    var buckets := SlotMapOf(entries);
    SlotMapExact(entries);
    var msg := PairMessage(groupId, e, ComboSubject(subjects, e).value);
    BucketIssuesMembers(groupId, buckets, subjects, msg);
    var i :| 0 <= i < |buckets| && buckets[i].slot == AutoScheduleRules.SlotOf(e);
    BucketPairIssue(groupId, entries, buckets[i], e, subjects);
    PairIssuesInMembers(groupId, buckets[i].entries, buckets[i].entries, subjects, msg);
    assert msg in BucketIssue(groupId, buckets[i], subjects);
  }

  /** The first pass of one group reports exactly the messages of its entries that miss their pair. */
  lemma GroupPairIssuesMembers(groupId: string, entries: seq<Entry>, subjects: seq<Subject>, msg: string)
    ensures msg in BucketIssues(groupId, SlotMapOf(entries), subjects) <==>
      exists e :: e in entries && MissingPair(entries, e, subjects) && msg == PairMessage(groupId, e, ComboSubject(subjects, e).value)
  {
    if msg in BucketIssues(groupId, SlotMapOf(entries), subjects) {
      GroupPairIssuesSound(groupId, entries, subjects, msg);
    }
    if exists e :: e in entries && MissingPair(entries, e, subjects) && msg == PairMessage(groupId, e, ComboSubject(subjects, e).value) {
      var e :| e in entries && MissingPair(entries, e, subjects) && msg == PairMessage(groupId, e, ComboSubject(subjects, e).value);
      GroupPairIssuesComplete(groupId, entries, subjects, e);
    }
  }

  lemma {:induction false} OrphanIssuesInMembers(groupId: string, entries: seq<Entry>, es: seq<Entry>, subjects: seq<Subject>, msg: string)
    ensures msg in OrphanIssuesIn(groupId, entries, es, subjects) <==> exists e :: e in es && msg in OrphanIssue(groupId, entries, e, subjects)
  {
    if es != [] {
      var init := es[..|es| - 1];
      OrphanIssuesInMembers(groupId, entries, init, subjects, msg);
      assert forall e :: e in es <==> e in init || e == es[|es| - 1];
    }
  }

  /** The second-pass verdict on an entry is an issue exactly when the entry is orphaned. */
  lemma OrphanIssueMeaning(groupId: string, entries: seq<Entry>, e: Entry, subjects: seq<Subject>)
    ensures OrphanIssue(groupId, entries, e, subjects) != [] <==> Orphaned(entries, e, subjects)
  {
    match ComboSubject(subjects, e)
    case None =>
    case Some(s) => HasPartnerEntryIff(subjects, s, entries, AutoScheduleRules.SlotOf(e));
  }

  /** Every first-pass issue is the message of a group entry that misses its pair, and every such entry is reported. */
  lemma {:induction false} PairIssuesMeaning(schedule: seq<GroupSchedule>, subjects: seq<Subject>, msg: string)
    ensures msg in PairIssues(schedule, subjects) <==>
      exists g, e :: g in schedule && e in g.entries && MissingPair(g.entries, e, subjects) && msg == PairMessage(g.groupId, e, ComboSubject(subjects, e).value)
  {
    if schedule != [] {
      var init := schedule[..|schedule| - 1];
      var last := schedule[|schedule| - 1];
      PairIssuesMeaning(init, subjects, msg);
      GroupPairIssuesMembers(last.groupId, last.entries, subjects, msg);
      assert forall g :: g in schedule <==> g in init || g == last;
    }
  }

  /** A second-pass message is the message of one of the groups. */
  lemma {:induction false} OrphanIssuesGroups(schedule: seq<GroupSchedule>, subjects: seq<Subject>, msg: string)
    ensures msg in OrphanIssues(schedule, subjects) <==> exists g :: g in schedule && msg in GroupOrphanIssues(g, subjects)
  {
    if schedule != [] {
      var init := schedule[..|schedule| - 1];
      OrphanIssuesGroups(init, subjects, msg);
      assert forall g :: g in schedule <==> g in init || g == schedule[|schedule| - 1];
    }
  }

  /** Every second-pass issue is the verdict on a group entry, and every entry's verdict is reported. */
  lemma OrphanIssuesMeaning(schedule: seq<GroupSchedule>, subjects: seq<Subject>, msg: string)
    ensures msg in OrphanIssues(schedule, subjects) <==>
      exists g, e :: g in schedule && e in g.entries && msg in OrphanIssue(g.groupId, g.entries, e, subjects)
  {
    OrphanIssuesGroups(schedule, subjects, msg);
    if msg in OrphanIssues(schedule, subjects) {
      var g :| g in schedule && msg in GroupOrphanIssues(g, subjects);
      OrphanIssuesInMembers(g.groupId, g.entries, g.entries, subjects, msg);
    }
    if exists g, e :: g in schedule && e in g.entries && msg in OrphanIssue(g.groupId, g.entries, e, subjects) {
      var g, e :| g in schedule && e in g.entries && msg in OrphanIssue(g.groupId, g.entries, e, subjects);
      OrphanIssuesInMembers(g.groupId, g.entries, g.entries, subjects, msg);
      assert msg in GroupOrphanIssues(g, subjects);
    }
  }

  /** The schedule is valid exactly when no entry misses its pair and none is orphaned. */
  lemma ValidIff(schedule: seq<GroupSchedule>, subjects: seq<Subject>)
    ensures PairIssues(schedule, subjects) + OrphanIssues(schedule, subjects) == [] <==>
      forall g, e :: g in schedule && e in g.entries ==> !MissingPair(g.entries, e, subjects) && !Orphaned(g.entries, e, subjects)
  {
    var all := PairIssues(schedule, subjects) + OrphanIssues(schedule, subjects);
    if all == [] {
      forall g, e | g in schedule && e in g.entries
        ensures !MissingPair(g.entries, e, subjects) && !Orphaned(g.entries, e, subjects)
      {
        if MissingPair(g.entries, e, subjects) {
          PairIssuesMeaning(schedule, subjects, PairMessage(g.groupId, e, ComboSubject(subjects, e).value));
          assert false;
        }
        if Orphaned(g.entries, e, subjects) {
          OrphanIssueMeaning(g.groupId, g.entries, e, subjects);
          OrphanIssuesMeaning(schedule, subjects, OrphanIssue(g.groupId, g.entries, e, subjects)[0]);
          assert false;
        }
      }
    } else {
      var msg := all[0];
      PairIssuesMeaning(schedule, subjects, msg);
      OrphanIssuesMeaning(schedule, subjects, msg);
      if msg in PairIssues(schedule, subjects) {
        var g, e :| g in schedule && e in g.entries && MissingPair(g.entries, e, subjects) && msg == PairMessage(g.groupId, e, ComboSubject(subjects, e).value);
      } else {
        assert msg in OrphanIssues(schedule, subjects);
        var g, e :| g in schedule && e in g.entries && msg in OrphanIssue(g.groupId, g.entries, e, subjects);
        OrphanIssueMeaning(g.groupId, g.entries, e, subjects);
      }
    }
  }

  /** An entry whose subject is unknown or has no comboPairId neither misses a pair nor is orphaned. */
  lemma NonComboSilent(entries: seq<Entry>, e: Entry, subjects: seq<Subject>)
    requires forall s :: s in subjects && s.id == e.subjectId ==> !TruthyString(s.comboPairId)
    ensures !MissingPair(entries, e, subjects) && !Orphaned(entries, e, subjects)
  {
  }

  // ---------------------------------------------------------------------------
  // getComboStatistics
  // ---------------------------------------------------------------------------

  /** Raw counters: slots with a pair or a lone combo entry, the correct and incorrect ones, and Thursday 1限/2限 pairs. */
  datatype Counts = Counts(total: nat, correct: nat, incorrect: nat, thursday1: nat, thursday2: nat)

  function Plus(a: Counts, b: Counts): Counts
  {
    Counts(a.total + b.total, a.correct + b.correct, a.incorrect + b.incorrect, a.thursday1 + b.thursday1, a.thursday2 + b.thursday2)
  }

  predicate IsComboEntry(subjects: seq<Subject>, e: Entry)
  {
    ComboSubject(subjects, e).Some?
  }

  function ComboEntries(es: seq<Entry>, subjects: seq<Subject>): (r: seq<Entry>)
    ensures forall x :: x in r <==> x in es && IsComboEntry(subjects, x)
  {
    if es == [] then []
    else ComboEntries(es[..|es| - 1], subjects) + (if IsComboEntry(subjects, es[|es| - 1]) then [es[|es| - 1]] else [])
  }

  function PairIdOf(subjects: seq<Subject>, e: Entry): Option<string>
  {
    match FindSubject(subjects, e.subjectId)
    case None => None
    case Some(s) => s.comboPairId
  }

  /** The counters of one slot. */
  function BucketCounts(b: SlotBucket, subjects: seq<Subject>): Counts
  {
    var combo := ComboEntries(b.entries, subjects);
    if |combo| == 2 then
      if PairIdOf(subjects, combo[0]) == PairIdOf(subjects, combo[1]) then
        Counts(1, 1, 0,
          if combo[0].day == Thu && combo[0].period == P1 then 1 else 0,
          if combo[0].day == Thu && combo[0].period == P2 then 1 else 0)
      else Counts(0, 0, 0, 0, 0)
    else if |combo| == 1 then Counts(1, 0, 1, 0, 0)
    else Counts(0, 0, 0, 0, 0)
  }

  function BucketsCounts(buckets: seq<SlotBucket>, subjects: seq<Subject>): Counts
  {
    if buckets == [] then Counts(0, 0, 0, 0, 0)
    else Plus(BucketsCounts(buckets[..|buckets| - 1], subjects), BucketCounts(buckets[|buckets| - 1], subjects))
  }

  function ScheduleCounts(schedule: seq<GroupSchedule>, subjects: seq<Subject>): Counts
  {
    if schedule == [] then Counts(0, 0, 0, 0, 0)
    else Plus(ScheduleCounts(schedule[..|schedule| - 1], subjects), BucketsCounts(SlotMapOf(schedule[|schedule| - 1].entries), subjects))
  }

  datatype ComboStatistics = ComboStatistics(
    totalComboPairs: real, correctPlacements: real, incorrectPlacements: int, thursdayPeriod1: real, thursdayPeriod2: real)

  /** The returned statistics: everything halved except incorrectPlacements. */
  function Halved(c: Counts): ComboStatistics
  {
    ComboStatistics(c.total as real / 2.0, c.correct as real / 2.0, c.incorrect, c.thursday1 as real / 2.0, c.thursday2 as real / 2.0)
  }

  /** The counting of one slot of the slot map. */
  method CountSlot(b: SlotBucket, subjects: seq<Subject>, c0: Counts) returns (c: Counts)
    ensures c == Plus(c0, BucketCounts(b, subjects))
  {
    c := c0;
    var comboEntries := ComboEntries(b.entries, subjects);
    if |comboEntries| == 2 {
      var entry1, entry2 := comboEntries[0], comboEntries[1];
      if PairIdOf(subjects, entry1) == PairIdOf(subjects, entry2) {
        c := c.(correct := c.correct + 1, total := c.total + 1);
        if entry1.day == Thu {
          if entry1.period == P1 {
            c := c.(thursday1 := c.thursday1 + 1);
          }
          if entry1.period == P2 {
            c := c.(thursday2 := c.thursday2 + 1);
          }
        }
      }
    } else if |comboEntries| == 1 {
      c := c.(incorrect := c.incorrect + 1, total := c.total + 1);
    }
  }

  lemma BucketsCountsSnoc(buckets: seq<SlotBucket>, k: nat, subjects: seq<Subject>)
    requires k < |buckets|
    ensures BucketsCounts(buckets[..k + 1], subjects) == Plus(BucketsCounts(buckets[..k], subjects), BucketCounts(buckets[k], subjects))
  {
    assert buckets[..k + 1][..k] == buckets[..k];
  }

  lemma ScheduleCountsSnoc(schedule: seq<GroupSchedule>, g: nat, subjects: seq<Subject>)
    requires g < |schedule|
    ensures ScheduleCounts(schedule[..g + 1], subjects) == Plus(ScheduleCounts(schedule[..g], subjects), BucketsCounts(SlotMapOf(schedule[g].entries), subjects))
  {
    assert schedule[..g + 1][..g] == schedule[..g];
  }

  lemma PlusAssoc(a: Counts, b: Counts, c: Counts)
    ensures Plus(Plus(a, b), c) == Plus(a, Plus(b, c))
  {
  }

  method CountGroup(entries: seq<Entry>, subjects: seq<Subject>, c0: Counts) returns (c: Counts)
    ensures c == Plus(c0, BucketsCounts(SlotMapOf(entries), subjects))
  {
    var slotMap := GroupBySlot(entries);
    c := c0;
    var k := 0;
    while k < |slotMap|
      invariant 0 <= k <= |slotMap| && c == Plus(c0, BucketsCounts(slotMap[..k], subjects))
    {
      ghost var before := c;
      c := CountSlot(slotMap[k], subjects, c);
      BucketsCountsSnoc(slotMap, k, subjects);
      PlusAssoc(c0, BucketsCounts(slotMap[..k], subjects), BucketCounts(slotMap[k], subjects));
      k := k + 1;
    }
    assert slotMap[..k] == slotMap;
  }

  method GetComboStatistics(schedule: seq<GroupSchedule>, subjects: seq<Subject>) returns (stats: ComboStatistics)
    ensures stats == Halved(ScheduleCounts(schedule, subjects))
  {
    var c := Counts(0, 0, 0, 0, 0);
    var g := 0;
    while g < |schedule|
      invariant 0 <= g <= |schedule| && c == ScheduleCounts(schedule[..g], subjects)
    {
      c := CountGroup(schedule[g].entries, subjects, c);
      ScheduleCountsSnoc(schedule, g, subjects);
      g := g + 1;
    }
    assert schedule[..g] == schedule;
    stats := Halved(c);
  }

  /** The raw counters: every counted slot is correct or incorrect, and the Thursday pairs are correct ones. */
  predicate Balanced(c: Counts)
  {
    c.total == c.correct + c.incorrect && c.thursday1 + c.thursday2 <= c.correct
  }

  lemma {:induction false} BucketsBalanced(buckets: seq<SlotBucket>, subjects: seq<Subject>)
    ensures Balanced(BucketsCounts(buckets, subjects))
  {
    if buckets != [] {
      BucketsBalanced(buckets[..|buckets| - 1], subjects);
    }
  }

  /**
   * totalComboPairs is correctPlacements plus half of incorrectPlacements: the lone entries are
   * counted once each but only the pair counts are halved.
   */
  lemma {:induction false} StatisticsBalance(schedule: seq<GroupSchedule>, subjects: seq<Subject>)
    ensures var st := Halved(ScheduleCounts(schedule, subjects));
      st.totalComboPairs == st.correctPlacements + st.incorrectPlacements as real / 2.0
      && st.thursdayPeriod1 + st.thursdayPeriod2 <= st.correctPlacements
  {
    if schedule != [] {
      StatisticsBalance(schedule[..|schedule| - 1], subjects);
      BucketsBalanced(SlotMapOf(schedule[|schedule| - 1].entries), subjects);
    }
  }

  /** A slot whose only combo entries are two of one pair counts as one correct placement; one lone combo entry as one incorrect. */
  lemma BucketCountsMeaning(b: SlotBucket, subjects: seq<Subject>)
    ensures var combo := ComboEntries(b.entries, subjects);
      (BucketCounts(b, subjects).correct == 1 <==> |combo| == 2 && PairIdOf(subjects, combo[0]) == PairIdOf(subjects, combo[1]))
      && (BucketCounts(b, subjects).incorrect == 1 <==> |combo| == 1)
  {
  }
}
