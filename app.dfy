/**
 * The application shell: which settings tabs are complete, the gate that refuses to
 * generate a timetable until all four are, the add/update/delete handlers of the
 * teacher, subject and classroom lists, and the group records built from a generated
 * timetable.
 */
module App {
  import opened Wrappers
  import opened Types
  import Strings
  import Sorting
  import AutoScheduleRules

  // ---------- tab completeness ----------

  /** A name counts as filled in when something other than white space is left after `trim()`. */
  predicate Named(name: string)
  {
    Strings.Trim(name) != ""
  }

  /** A list tab is complete when it holds at least one item and every item is named. */
  predicate ListComplete<T>(items: seq<T>, nameOf: T -> string)
  {
    |items| >= 1 && forall i :: 0 <= i < |items| ==> Named(nameOf(items[i]))
  }

  /** The items still unnamed, the count the refusal message reports. */
  function Unnamed<T>(items: seq<T>, nameOf: T -> string): seq<T>
  {
    Sorting.Filter(items, (x: T) => !Named(nameOf(x)))
  }

  /** A non-empty list is complete exactly when no item is unnamed. */
  lemma ListCompleteCount<T>(items: seq<T>, nameOf: T -> string)
    ensures ListComplete(items, nameOf) <==> |items| >= 1 && |Unnamed(items, nameOf)| == 0
  {
    var u := Unnamed(items, nameOf);
    if |u| > 0 {
      assert u[0] in items && !Named(nameOf(u[0]));
      var k :| 0 <= k < |items| && items[k] == u[0];
    }
    if |items| >= 1 && !ListComplete(items, nameOf) {
      var k :| 0 <= k < |items| && !Named(nameOf(items[k]));
      assert items[k] in u;
    }
  }

  predicate BasicSettingsComplete(title: string, startDate: string, endDate: string)
  {
    Named(title) && startDate != "" && endDate != ""
  }

  datatype TabStatus = TabStatus(teachers: bool, subjects: bool, classrooms: bool, basicSettings: bool, allComplete: bool)

  function TeacherName(t: Teacher): string { t.name }
  function SubjectName(s: Subject): string { s.name }
  function ClassroomName(c: Classroom): string { c.name }

  /** checkTabCompletion. */
  function CheckTabCompletion(teachers: seq<Teacher>, subjects: seq<Subject>, classrooms: seq<Classroom>,
                              title: string, startDate: string, endDate: string): (r: TabStatus)
    ensures r.teachers <==> |teachers| >= 1 && forall i :: 0 <= i < |teachers| ==> Named(teachers[i].name)
    ensures r.subjects <==> |subjects| >= 1 && forall i :: 0 <= i < |subjects| ==> Named(subjects[i].name)
    ensures r.classrooms <==> |classrooms| >= 1 && forall i :: 0 <= i < |classrooms| ==> Named(classrooms[i].name)
    ensures r.basicSettings <==> Named(title) && startDate != "" && endDate != ""
    ensures r.allComplete <==> r.teachers && r.subjects && r.classrooms && r.basicSettings
  {
    var t := ListComplete(teachers, TeacherName);
    var s := ListComplete(subjects, SubjectName);
    var c := ListComplete(classrooms, ClassroomName);
    var b := BasicSettingsComplete(title, startDate, endDate);
    TabStatus(t, s, c, b, t && s && c && b)
  }

  // ---------- the generation gate ----------

  /** The line of the refusal message for one incomplete list tab. */
  function ListDetail(tab: string, count: nat, unnamed: nat, unnamedText: string, emptyText: string): string
  {
    tab + " (" + (if count > 0 then Strings.NatToString(unnamed) + unnamedText else emptyText) + ")"
  }

  /** The basic-settings fields still missing, in the order the message lists them. */
  function MissingBasic(title: string, startDate: string, endDate: string): (r: seq<string>)
    ensures r == [] <==> BasicSettingsComplete(title, startDate, endDate)
  {
    (if !Named(title) then ["タイトル"] else [])
    + (if startDate == "" then ["開始日"] else [])
    + (if endDate == "" then ["終了日"] else [])
  }

  /** The items of the refusal message, one per incomplete tab in tab order. */
  function IncompleteDetails(teachers: seq<Teacher>, subjects: seq<Subject>, classrooms: seq<Classroom>,
                             title: string, startDate: string, endDate: string): seq<string>
  {
    var st := CheckTabCompletion(teachers, subjects, classrooms, title, startDate, endDate);
    (if !st.teachers then [ListDetail("教師管理", |teachers|, |Unnamed(teachers, TeacherName)|,
                                     "人の教師に名前が未入力", "教師が1人も登録されていません")] else [])
    + (if !st.subjects then [ListDetail("科目管理", |subjects|, |Unnamed(subjects, SubjectName)|,
                                       "科目に名前が未入力", "科目が1つも登録されていません")] else [])
    + (if !st.classrooms then [ListDetail("教室管理", |classrooms|, |Unnamed(classrooms, ClassroomName)|,
                                         "教室に名前が未入力", "教室が1つも登録されていません")] else [])
    + (if !st.basicSettings then ["基本設定 (" + Strings.Join(MissingBasic(title, startDate, endDate), "、") + "が未入力)"] else [])
  }

  /** The outcome of pressing "generate": refused with the message items, or allowed to run. */
  datatype Gate = Refused(details: seq<string>) | Proceed

  /** The refusal check at the head of handleGenerateTimetable. */
  function GenerationGate(teachers: seq<Teacher>, subjects: seq<Subject>, classrooms: seq<Classroom>,
                          title: string, startDate: string, endDate: string): (r: Gate)
    ensures r.Proceed? <==> CheckTabCompletion(teachers, subjects, classrooms, title, startDate, endDate).allComplete
  {
    if !CheckTabCompletion(teachers, subjects, classrooms, title, startDate, endDate).allComplete
    then Refused(IncompleteDetails(teachers, subjects, classrooms, title, startDate, endDate))
    else Proceed
  }

  /**
   * A refusal lists one item per incomplete tab and at least one, a list item tells whether
   * the list is empty or how many items are unnamed, and the basic-settings item names at
   * least one missing field.
   */
  lemma RefusalExplains(teachers: seq<Teacher>, subjects: seq<Subject>, classrooms: seq<Classroom>,
                        title: string, startDate: string, endDate: string)
    ensures var st := CheckTabCompletion(teachers, subjects, classrooms, title, startDate, endDate);
      var d := IncompleteDetails(teachers, subjects, classrooms, title, startDate, endDate);
      && |d| == (if st.teachers then 0 else 1) + (if st.subjects then 0 else 1)
              + (if st.classrooms then 0 else 1) + (if st.basicSettings then 0 else 1)
      && (GenerationGate(teachers, subjects, classrooms, title, startDate, endDate).Refused? ==> |d| >= 1)
      && (!st.teachers && |teachers| >= 1 ==> |Unnamed(teachers, TeacherName)| >= 1)
      && (!st.subjects && |subjects| >= 1 ==> |Unnamed(subjects, SubjectName)| >= 1)
      && (!st.classrooms && |classrooms| >= 1 ==> |Unnamed(classrooms, ClassroomName)| >= 1)
      && (!st.basicSettings ==> MissingBasic(title, startDate, endDate) != [])
  {
    ListCompleteCount(teachers, TeacherName);
    ListCompleteCount(subjects, SubjectName);
    ListCompleteCount(classrooms, ClassroomName);
  }

  // ---------- list handlers ----------

  /** handleAdd*: the new item goes at the end. */
  function AddItem<T>(items: seq<T>, x: T): (r: seq<T>)
    ensures |r| == |items| + 1 && r[..|items|] == items && r[|items|] == x
  {
    items + [x]
  }

  /** handleUpdate*: every item with the new item's id is replaced by it. */
  function UpdateItem<T>(items: seq<T>, x: T, idOf: T -> string): (r: seq<T>)
    ensures |r| == |items|
    ensures forall i :: 0 <= i < |items| ==> r[i] == if idOf(items[i]) == idOf(x) then x else items[i]
  {
    if items == [] then []
    else [if idOf(items[0]) == idOf(x) then x else items[0]] + UpdateItem(items[1..], x, idOf)
  }

  /** handleDelete*: every item with the id goes, the rest stay in order. */
  function DeleteItem<T>(items: seq<T>, id: string, idOf: T -> string): seq<T>
  {
    Sorting.Filter(items, (y: T) => idOf(y) != id)
  }

  /** An update keeps every position's id, so it never adds or drops an item of any id. */
  lemma UpdateKeepsIds<T>(items: seq<T>, x: T, idOf: T -> string)
    ensures forall i :: 0 <= i < |items| ==> idOf(UpdateItem(items, x, idOf)[i]) == idOf(items[i])
    ensures (forall i :: 0 <= i < |items| ==> idOf(items[i]) != idOf(x)) ==> UpdateItem(items, x, idOf) == items
  {
  }

  /** Updating twice with the same item is updating once. */
  lemma UpdateIdempotent<T>(items: seq<T>, x: T, idOf: T -> string)
    ensures UpdateItem(UpdateItem(items, x, idOf), x, idOf) == UpdateItem(items, x, idOf)
  {
    var once := UpdateItem(items, x, idOf);
    UpdateKeepsIds(items, x, idOf);
    assert forall i :: 0 <= i < |once| ==> UpdateItem(once, x, idOf)[i] == once[i];
  }

  /** Deleting an id after updating it deletes the same items as deleting it at once. */
  lemma {:induction false} DeleteAfterUpdate<T>(items: seq<T>, x: T, idOf: T -> string)
    ensures DeleteItem(UpdateItem(items, x, idOf), idOf(x), idOf) == DeleteItem(items, idOf(x), idOf)
  {
    if items != [] {
      DeleteAfterUpdate(items[1..], x, idOf);
      assert UpdateItem(items, x, idOf)[1..] == UpdateItem(items[1..], x, idOf);
    }
  }

  /** Deleting the id of an item just added, when no other item had it, gives the list back. */
  lemma DeleteUndoesAdd<T>(items: seq<T>, x: T, idOf: T -> string)
    requires forall i :: 0 <= i < |items| ==> idOf(items[i]) != idOf(x)
    ensures DeleteItem(AddItem(items, x), idOf(x), idOf) == items
  {
    var p := (y: T) => idOf(y) != idOf(x);
    Sorting.FilterDropsLast(items, x, p);
    Sorting.FilterAll(items, p);
  }

  /** After a delete no item has the id, and every item of another id keeps its number of copies. */
  lemma DeleteSpec<T>(items: seq<T>, id: string, idOf: T -> string)
    ensures forall y :: y in DeleteItem(items, id, idOf) ==> idOf(y) != id
    ensures forall y :: idOf(y) != id ==> multiset(DeleteItem(items, id, idOf))[y] == multiset(items)[y]
  {
    forall y | idOf(y) != id ensures multiset(DeleteItem(items, id, idOf))[y] == multiset(items)[y] {
      Sorting.FilterMultiset(items, (z: T) => idOf(z) != id, y);
    }
  }

  // ---------- group records ----------

  datatype GroupStatus = Complete | Incomplete

  /** A group of the semester timetable as the shell stores it. */
  datatype GroupRecord = GroupRecord(
    name: string, department: Department, grade: Grade, status: GroupStatus,
    schedule: seq<AutoScheduleRules.GeneratedEntry>)

  /** The display names of the four known group ids. */
  function GroupName(groupId: string): Option<string>
  {
    if groupId == "it-1" then Some("ITソリューション 1年")
    else if groupId == "it-2" then Some("ITソリューション 2年")
    else if groupId == "design-1" then Some("地域観光デザイン 1年")
    else if groupId == "design-2" then Some("地域観光デザイン 2年")
    else None
  }

  /** The record built for one generated group. */
  function GroupRecordFor(groupId: string, schedule: seq<AutoScheduleRules.GeneratedEntry>): (r: GroupRecord)
    ensures r.department == ITSolution <==> Strings.Contains(groupId, "it")
    ensures r.department != ITSolution ==> r.department == TourismDesign
    ensures r.grade == FirstYear <==> Strings.Contains(groupId, "1")
    ensures r.grade != FirstYear ==> r.grade == SecondYear
    ensures r.status == Complete && r.schedule == schedule
    ensures r.name == GroupName(groupId).GetOr(groupId)
  {
    GroupRecord(
      GroupName(groupId).GetOr(groupId),
      if Strings.Contains(groupId, "it") then ITSolution else TourismDesign,
      if Strings.Contains(groupId, "1") then FirstYear else SecondYear,
      Complete,
      schedule)
  }

  predicate NameMatchesFields(g: GroupRecord)
  {
    g.name == DepartmentName(g.department) + " " + GradeName(g.grade)
  }

  /** For the four known groups the department and grade derived from the id agree with the display name. */
  lemma KnownGroupsConsistent(schedule: seq<AutoScheduleRules.GeneratedEntry>)
    ensures NameMatchesFields(GroupRecordFor("it-1", schedule))
    ensures NameMatchesFields(GroupRecordFor("it-2", schedule))
    ensures NameMatchesFields(GroupRecordFor("design-1", schedule))
    ensures NameMatchesFields(GroupRecordFor("design-2", schedule))
  {
    assert Strings.OccursAt("it-1", "it", 0) && Strings.OccursAt("it-1", "1", 3);
    assert Strings.OccursAt("it-2", "it", 0) && Strings.OccursAt("design-1", "1", 7);
    Strings.ContainsChar("it-2", "1", 0);
    Strings.ContainsChar("design-1", "it", 1);
    Strings.ContainsChar("design-2", "it", 1);
    Strings.ContainsChar("design-2", "1", 0);
  }

  /** Every entry of the generated schedules, group after group. */
  function AllEntries(schedules: seq<(string, seq<AutoScheduleRules.GeneratedEntry>)>): seq<AutoScheduleRules.GeneratedEntry>
  {
    if schedules == [] then [] else schedules[0].1 + AllEntries(schedules[1..])
  }

  lemma {:induction false} AllEntriesSnoc(schedules: seq<(string, seq<AutoScheduleRules.GeneratedEntry>)>,
                                          g: (string, seq<AutoScheduleRules.GeneratedEntry>))
    ensures AllEntries(schedules + [g]) == AllEntries(schedules) + g.1
  {
    if schedules != [] {
      assert (schedules + [g])[1..] == schedules[1..] + [g];
      AllEntriesSnoc(schedules[1..], g);
    }
  }

  lemma AllEntriesTake(schedules: seq<(string, seq<AutoScheduleRules.GeneratedEntry>)>, k: nat)
    requires k < |schedules|
    ensures |AllEntries(schedules[..k + 1])| == |AllEntries(schedules[..k])| + |schedules[k].1|
  {
    assert schedules[..k + 1] == schedules[..k] + [schedules[k]];
    AllEntriesSnoc(schedules[..k], schedules[k]);
  }

  /**
   * The forEach over the generated Map (whose ids are distinct) that fills the `groups`
   * object, and the reported total, the sum of the schedule lengths over the groups.
   */
  method BuildGroups(schedules: seq<(string, seq<AutoScheduleRules.GeneratedEntry>)>)
    returns (groups: map<string, GroupRecord>, total: nat)
    requires forall i, j :: 0 <= i < j < |schedules| ==> schedules[i].0 != schedules[j].0
    ensures groups.Keys == set i | 0 <= i < |schedules| :: schedules[i].0
    ensures forall i :: 0 <= i < |schedules| ==> groups[schedules[i].0] == GroupRecordFor(schedules[i].0, schedules[i].1)
    ensures total == |AllEntries(schedules)|
  {
    groups := map[];
    var k := 0;
    while k < |schedules|
      invariant 0 <= k <= |schedules|
      invariant groups.Keys == set i | 0 <= i < k :: schedules[i].0
      invariant forall i :: 0 <= i < k ==> groups[schedules[i].0] == GroupRecordFor(schedules[i].0, schedules[i].1)
    {
      var (groupId, schedule) := schedules[k];
      groups := groups[groupId := GroupRecordFor(groupId, schedule)];
      k := k + 1;
    }
    total := 0;
    k := 0;
    while k < |schedules|
      invariant 0 <= k <= |schedules|
      invariant total == |AllEntries(schedules[..k])|
    {
      AllEntriesTake(schedules, k);
      total := total + |groups[schedules[k].0].schedule|;
      k := k + 1;
    }
    assert schedules[..k] == schedules;
  }
}
