/**
 * The basic-settings screen: the holiday list (add one date, remove one date, add the
 * national holidays of the term) and the schedule-adjustment requests (add one request
 * built from the form, remove one by id, toggle a period in the form, the default
 * description of a request). Each list update is a function on the old list; the form
 * itself is a class whose methods store those results in its fields, as the component's
 * state setters do.
 */
module BasicSettings {
  import opened Wrappers
  import opened Types
  import Strings
  import Sorting

  // ---------- the holiday list ----------

  /** The holiday list's order: `sort()` on date strings, code-unit order. */
  function SortDates(s: seq<string>): (r: seq<string>)
    ensures multiset(r) == multiset(s)
  {
    Sorting.SortBy(s, (a: string, b: string) => Strings.LexLeq(a, b))
  }

  /** A holiday list kept sorted and free of repeats. */
  predicate OrderedDates(s: seq<string>)
  {
    Sorting.SortedBy(s, (a: string, b: string) => Strings.LexLeq(a, b)) && Sorting.Distinct(s)
  }

  lemma SortDatesSorted(s: seq<string>)
    ensures Sorting.SortedBy(SortDates(s), (a: string, b: string) => Strings.LexLeq(a, b))
  {
    Sorting.StringOrderTotalPreorder();
    Sorting.SortBySorted(s, (a: string, b: string) => Strings.LexLeq(a, b));
  }

  /** addHoliday: an empty or already listed date is ignored; otherwise the date is added and the list sorted. */
  function AddHolidayTo(holidays: seq<string>, date: string): seq<string>
  {
    if date != "" && date !in holidays then SortDates(holidays + [date]) else holidays
  }

  lemma AddHolidaySpec(holidays: seq<string>, date: string)
    ensures date == "" || date in holidays ==> AddHolidayTo(holidays, date) == holidays
    ensures date != "" && date !in holidays ==>
      && multiset(AddHolidayTo(holidays, date)) == multiset(holidays) + multiset{date}
      && Sorting.SortedBy(AddHolidayTo(holidays, date), (a: string, b: string) => Strings.LexLeq(a, b))
    ensures OrderedDates(holidays) ==> OrderedDates(AddHolidayTo(holidays, date))
  {
    if date != "" && date !in holidays {
      SortDatesSorted(holidays + [date]);
      if Sorting.Distinct(holidays) {
        Sorting.DistinctAppend(holidays, [date]);
        Sorting.DistinctPermutation(holidays + [date], AddHolidayTo(holidays, date));
      }
    }
  }

  /** removeHoliday: every copy of the date goes, the others stay in order. */
  function RemoveHolidayFrom(holidays: seq<string>, date: string): seq<string>
  {
    Sorting.Filter(holidays, (h: string) => h != date)
  }

  lemma RemoveHolidaySpec(holidays: seq<string>, date: string)
    ensures date !in RemoveHolidayFrom(holidays, date)
    ensures forall x :: x != date ==> multiset(RemoveHolidayFrom(holidays, date))[x] == multiset(holidays)[x]
    ensures date !in holidays ==> RemoveHolidayFrom(holidays, date) == holidays
    ensures OrderedDates(holidays) ==> OrderedDates(RemoveHolidayFrom(holidays, date))
  {
    var p := (h: string) => h != date;
    forall x | x != date ensures multiset(RemoveHolidayFrom(holidays, date))[x] == multiset(holidays)[x] {
      Sorting.FilterMultiset(holidays, p, x);
    }
    if date !in holidays {
      Sorting.FilterAll(holidays, p);
    }
    if OrderedDates(holidays) {
      Sorting.FilterSorted(holidays, p, (a: string, b: string) => Strings.LexLeq(a, b));
      Sorting.FilterDistinct(holidays, p);
    }
  }

  /**
   * Removing a date just added gives the list back (less that date, if it was already
   * there), when the list was sorted and free of repeats.
   */
  lemma RemoveUndoesAdd(holidays: seq<string>, date: string)
    requires OrderedDates(holidays)
    ensures RemoveHolidayFrom(AddHolidayTo(holidays, date), date) == RemoveHolidayFrom(holidays, date)
    ensures date !in holidays ==> RemoveHolidayFrom(AddHolidayTo(holidays, date), date) == holidays
  {
    RemoveHolidaySpec(holidays, date);
    if date != "" && date !in holidays {
      var added := AddHolidayTo(holidays, date);
      AddHolidaySpec(holidays, date);
      RemoveHolidaySpec(added, date);
      forall x ensures x in RemoveHolidayFrom(added, date) <==> x in holidays {
        AddRemoveMember(holidays, date, x);
      }
      OrderedDatesUnique(RemoveHolidayFrom(added, date), holidays);
    }
  }

  lemma AddRemoveMember(holidays: seq<string>, date: string, x: string)
    requires date != "" && date !in holidays
    ensures x in RemoveHolidayFrom(AddHolidayTo(holidays, date), date) <==> x in holidays
  {
    var added := AddHolidayTo(holidays, date);
    AddHolidaySpec(holidays, date);
    RemoveHolidaySpec(added, date);
    if x != date {
      assert x in RemoveHolidayFrom(added, date) <==> x in multiset(RemoveHolidayFrom(added, date));
      assert x in added <==> x in multiset(added);
    }
  }

  /** Two sorted, repeat-free date lists with the same dates are the same list. */
  lemma OrderedDatesUnique(a: seq<string>, b: seq<string>)
    requires OrderedDates(a) && OrderedDates(b) && forall x :: x in a <==> x in b
    ensures a == b
  {
    Sorting.SameMembersSameMultiset(a, b);
    forall x, y | Strings.LexLeq(x, y) && Strings.LexLeq(y, x) ensures x == y {
      Strings.LexLeqAntisymmetric(x, y);
    }
    Sorting.SortedUnique(a, b, (x: string, y: string) => Strings.LexLeq(x, y));
  }

  /** The term's holidays not yet listed, in the order they are given (the `!holidays.includes` filter). */
  function NewDates(holidays: seq<string>, periodHolidays: seq<string>): seq<string>
  {
    Sorting.Filter(periodHolidays, (d: string) => d !in holidays)
  }

  /** addDefaultHolidays: appends the holidays of the term not yet listed and sorts; nothing new, nothing changes. */
  function AddDefaultsTo(holidays: seq<string>, periodHolidays: seq<string>): seq<string>
  {
    var unlisted := NewDates(holidays, periodHolidays);
    if |unlisted| > 0 then SortDates(holidays + unlisted) else holidays
  }

  lemma AddDefaultsMember(holidays: seq<string>, periodHolidays: seq<string>, x: string)
    ensures x in AddDefaultsTo(holidays, periodHolidays) <==> x in holidays || x in periodHolidays
  {
    var unlisted := NewDates(holidays, periodHolidays);
    Sorting.FilterMultiset(periodHolidays, (d: string) => d !in holidays, x);
    if |unlisted| > 0 {
      assert multiset(holidays + unlisted) == multiset(holidays) + multiset(unlisted);
      assert x in AddDefaultsTo(holidays, periodHolidays) <==> x in multiset(AddDefaultsTo(holidays, periodHolidays));
    } else {
      assert x !in multiset(unlisted);
    }
  }

  lemma AddDefaultsSpec(holidays: seq<string>, periodHolidays: seq<string>)
    ensures forall x :: x in AddDefaultsTo(holidays, periodHolidays) <==> x in holidays || x in periodHolidays
    ensures (forall x :: x in periodHolidays ==> x in holidays) ==> AddDefaultsTo(holidays, periodHolidays) == holidays
    ensures (exists x :: x in periodHolidays && x !in holidays) ==>
      Sorting.SortedBy(AddDefaultsTo(holidays, periodHolidays), (a: string, b: string) => Strings.LexLeq(a, b))
    ensures OrderedDates(holidays) && Sorting.Distinct(periodHolidays) ==> OrderedDates(AddDefaultsTo(holidays, periodHolidays))
  {
    var unlisted := NewDates(holidays, periodHolidays);
    forall x ensures x in AddDefaultsTo(holidays, periodHolidays) <==> x in holidays || x in periodHolidays {
      AddDefaultsMember(holidays, periodHolidays, x);
    }
    if exists x :: x in periodHolidays && x !in holidays {
      var x :| x in periodHolidays && x !in holidays;
      assert x in unlisted;
      SortDatesSorted(holidays + unlisted);
    } else {
      Sorting.FilterNone(periodHolidays, (d: string) => d !in holidays);
    }
    if OrderedDates(holidays) && Sorting.Distinct(periodHolidays) && |unlisted| > 0 {
      AddDefaultsDistinct(holidays, periodHolidays);
    }
  }

  lemma AddDefaultsDistinct(holidays: seq<string>, periodHolidays: seq<string>)
    requires Sorting.Distinct(holidays) && Sorting.Distinct(periodHolidays)
    ensures Sorting.Distinct(AddDefaultsTo(holidays, periodHolidays))
  {
    var unlisted := NewDates(holidays, periodHolidays);
    if |unlisted| > 0 {
      Sorting.FilterDistinct(periodHolidays, (d: string) => d !in holidays);
      Sorting.DistinctAppend(holidays, unlisted);
      Sorting.DistinctPermutation(holidays + unlisted, AddDefaultsTo(holidays, periodHolidays));
    }
  }

  // ---------- the request form ----------

  /** The order of `sort()` on period labels: code-unit order of '1限'..'4限'. */
  predicate PeriodLabelLe(a: Period, b: Period)
  {
    Strings.LexLeq(PeriodName(a), PeriodName(b))
  }

  /** Sorting the labels as strings orders the periods by their position in PERIODS. */
  lemma PeriodLabelOrder(a: Period, b: Period)
    ensures PeriodLabelLe(a, b) <==> PeriodIndex(a) <= PeriodIndex(b)
  {
    assert PeriodName(a)[0] == ['1', '2', '3', '4'][PeriodIndex(a)];
    assert PeriodName(b)[0] == ['1', '2', '3', '4'][PeriodIndex(b)];
    if a == b {
      assert Strings.LexLeq(PeriodName(a)[1..], PeriodName(b)[1..]);
    }
  }

  /** A request form's period selection: ordered as PERIODS, without repeats. */
  predicate OrderedPeriods(ps: seq<Period>)
  {
    Sorting.SortedBy(ps, (a: Period, b: Period) => PeriodLabelLe(a, b)) && Sorting.Distinct(ps)
  }

  /** togglePeriodSelection: a selected period is removed, another one added and the labels sorted. */
  function TogglePeriod(ps: seq<Period>, p: Period): seq<Period>
  {
    if p in ps then Sorting.Filter(ps, (q: Period) => q != p)
    else Sorting.SortBy(ps + [p], (a: Period, b: Period) => PeriodLabelLe(a, b))
  }

  lemma PeriodLabelTotalPreorder()
    ensures Sorting.TotalPreorder((a: Period, b: Period) => PeriodLabelLe(a, b))
    ensures forall a: Period, b: Period :: PeriodLabelLe(a, b) && PeriodLabelLe(b, a) ==> a == b
  {
    forall a: Period, b: Period ensures PeriodLabelLe(a, b) <==> PeriodIndex(a) <= PeriodIndex(b) {
      PeriodLabelOrder(a, b);
    }
  }

  /** Toggling flips the toggled period's membership, leaves every other period's, and keeps the selection ordered. */
  lemma TogglePeriodSpec(ps: seq<Period>, p: Period)
    ensures p in TogglePeriod(ps, p) <==> p !in ps
    ensures forall q :: q != p ==> (q in TogglePeriod(ps, p) <==> q in ps)
    ensures OrderedPeriods(ps) ==> OrderedPeriods(TogglePeriod(ps, p))
  {
    var le := (a: Period, b: Period) => PeriodLabelLe(a, b);
    var r := TogglePeriod(ps, p);
    if p in ps {
      var keep := (q: Period) => q != p;
      forall q ensures q in r <==> q in ps && q != p {
        Sorting.FilterMultiset(ps, keep, q);
      }
      if OrderedPeriods(ps) {
        Sorting.FilterSorted(ps, keep, le);
        Sorting.FilterDistinct(ps, keep);
      }
    } else {
      assert multiset(r) == multiset(ps + [p]);
      forall q ensures q in r <==> q in ps || q == p {
        assert q in multiset(r) <==> q in multiset(ps + [p]);
      }
      PeriodLabelTotalPreorder();
      Sorting.SortBySorted(ps + [p], le);
      if Sorting.Distinct(ps) {
        Sorting.DistinctAppend(ps, [p]);
        Sorting.DistinctPermutation(ps + [p], r);
      }
    }
  }

  /** Toggling the same period twice restores an ordered selection. */
  lemma ToggleTwice(ps: seq<Period>, p: Period)
    requires OrderedPeriods(ps)
    ensures TogglePeriod(TogglePeriod(ps, p), p) == ps
  {
    var le := (a: Period, b: Period) => PeriodLabelLe(a, b);
    var once := TogglePeriod(ps, p);
    var twice := TogglePeriod(once, p);
    TogglePeriodSpec(ps, p);
    TogglePeriodSpec(once, p);
    forall q ensures q in twice <==> q in ps {
      if q != p {
        assert q in twice <==> q in once;
      }
    }
    Sorting.SameMembersSameMultiset(twice, ps);
    PeriodLabelTotalPreorder();
    Sorting.SortedUnique(twice, ps, le);
  }

  /** The period list of a description, the labels joined with '・'. */
  function PeriodsText(ps: seq<Period>): string
  {
    Strings.Join(PeriodNames(ps), "・")
  }

  const ONLY_SUFFIX := "のみで授業を実施"
  const START_SUFFIX := "から授業開始"
  const END_SUFFIX := "まで授業実施"
  const EXCLUDE_SUFFIX := "は授業なし"

  /** A label of `ps[i]`, or the text "undefined" of a missing element. */
  function LabelAt(ps: seq<Period>, i: int): string
  {
    if 0 <= i < |ps| then PeriodName(ps[i]) else "undefined"
  }

  /** generateDescription: the default description of a request, by its kind. */
  function GenerateDescription(kind: ScheduleRequestType, ps: seq<Period>): (r: string)
    ensures kind == PeriodsOnly ==> |r| >= |ONLY_SUFFIX| && r[|r| - |ONLY_SUFFIX|..] == ONLY_SUFFIX
    ensures kind == StartFrom ==> |r| >= |START_SUFFIX| && r[|r| - |START_SUFFIX|..] == START_SUFFIX
    ensures kind == EndUntil ==> |r| >= |END_SUFFIX| && r[|r| - |END_SUFFIX|..] == END_SUFFIX
    ensures kind == ExcludePeriods ==> |r| >= |EXCLUDE_SUFFIX| && r[|r| - |EXCLUDE_SUFFIX|..] == EXCLUDE_SUFFIX
  {
    match kind
    case PeriodsOnly => PeriodsText(ps) + ONLY_SUFFIX
    case StartFrom => LabelAt(ps, 0) + START_SUFFIX
    case EndUntil => LabelAt(ps, |ps| - 1) + END_SUFFIX
    case ExcludePeriods => PeriodsText(ps) + EXCLUDE_SUFFIX
  }

  lemma NoDotInLabels(ps: seq<Period>)
    ensures forall k :: 0 <= k < |PeriodNames(ps)| ==> '・' !in PeriodNames(ps)[k]
  {
    forall k | 0 <= k < |PeriodNames(ps)| ensures '・' !in PeriodNames(ps)[k] {
      assert PeriodNames(ps)[k] == PeriodName(ps[k]);
    }
  }

  /**
   * The selected periods can be read back from a list-kind description: the text before
   * the suffix split at '・' is the labels in selection order. The one-period kinds begin
   * with the label of the first (start-from) or the last (end-until) selected period.
   */
  lemma DescriptionNamesPeriods(kind: ScheduleRequestType, ps: seq<Period>)
    requires ps != []
    ensures var d := GenerateDescription(kind, ps);
      && (kind == PeriodsOnly ==> Strings.Split(d[..|d| - |ONLY_SUFFIX|], '・') == PeriodNames(ps))
      && (kind == ExcludePeriods ==> Strings.Split(d[..|d| - |EXCLUDE_SUFFIX|], '・') == PeriodNames(ps))
      && (kind == StartFrom ==> d[..2] == PeriodName(ps[0]))
      && (kind == EndUntil ==> d[..2] == PeriodName(ps[|ps| - 1]))
  {
    match kind
    case PeriodsOnly => ListTextSplits(ps, ONLY_SUFFIX);
    case ExcludePeriods => ListTextSplits(ps, EXCLUDE_SUFFIX);
    case StartFrom => LabelPrefix(PeriodName(ps[0]), START_SUFFIX);
    case EndUntil => LabelPrefix(PeriodName(ps[|ps| - 1]), END_SUFFIX);
  }

  lemma ListTextSplits(ps: seq<Period>, suffix: string)
    requires ps != []
    ensures var d := PeriodsText(ps) + suffix; Strings.Split(d[..|d| - |suffix|], '・') == PeriodNames(ps)
  {
    var d := PeriodsText(ps) + suffix;
    assert d[..|d| - |suffix|] == PeriodsText(ps);
    NoDotInLabels(ps);
    Strings.SplitJoin(PeriodNames(ps), '・');
  }

  /** Every period label is two characters long, so it is the first two characters of a text it begins. */
  lemma LabelPrefix(text: string, suffix: string)
    requires exists p: Period :: text == PeriodName(p)
    ensures (text + suffix)[..2] == text
  {
    var p: Period :| text == PeriodName(p);
    assert |PeriodName(p)| == 2;
  }

  /** addScheduleRequest: without a date or periods nothing happens; otherwise one request is appended. */
  function AddRequestTo(requests: seq<ScheduleRequest>, id: string, date: string, kind: ScheduleRequestType,
                        ps: seq<Period>, description: string): (r: seq<ScheduleRequest>)
    ensures date == "" || ps == [] ==> r == requests
    ensures date != "" && ps != [] ==>
      && |r| == |requests| + 1 && r[..|requests|] == requests
      && r[|requests|].id == id && r[|requests|].date == date && r[|requests|].kind == kind
      && r[|requests|].periods == ps
      && r[|requests|].description == (if description != "" then description else GenerateDescription(kind, ps))
  {
    if date == "" || ps == [] then requests
    else requests + [ScheduleRequest(id, date, kind, ps, if description != "" then description else GenerateDescription(kind, ps))]
  }

  /** removeScheduleRequest: drops the requests with that id and keeps the rest in order. */
  function RemoveRequestFrom(requests: seq<ScheduleRequest>, id: string): seq<ScheduleRequest>
  {
    Sorting.Filter(requests, (q: ScheduleRequest) => q.id != id)
  }

  lemma RemoveRequestSpec(requests: seq<ScheduleRequest>, id: string)
    ensures forall q :: q in RemoveRequestFrom(requests, id) ==> q.id != id
    ensures forall q: ScheduleRequest :: q.id != id ==> multiset(RemoveRequestFrom(requests, id))[q] == multiset(requests)[q]
    ensures (forall q :: q in requests ==> q.id != id) ==> RemoveRequestFrom(requests, id) == requests
  {
    var p := (q: ScheduleRequest) => q.id != id;
    forall q: ScheduleRequest | q.id != id ensures multiset(RemoveRequestFrom(requests, id))[q] == multiset(requests)[q] {
      Sorting.FilterMultiset(requests, p, q);
    }
    if forall q :: q in requests ==> q.id != id {
      Sorting.FilterAll(requests, p);
    }
  }

  /** Removing a request by a unlisted id it was just added under gives the old list back. */
  lemma RemoveUndoesAddRequest(requests: seq<ScheduleRequest>, id: string, date: string, kind: ScheduleRequestType,
                               ps: seq<Period>, description: string)
    requires forall q :: q in requests ==> q.id != id
    ensures RemoveRequestFrom(AddRequestTo(requests, id, date, kind, ps, description), id) == requests
  {
    var p := (q: ScheduleRequest) => q.id != id;
    Sorting.FilterAll(requests, p);
    if date != "" && ps != [] {
      var added := AddRequestTo(requests, id, date, kind, ps, description);
      Sorting.FilterDropsLast(requests, added[|requests|], p);
      assert added == requests + [added[|requests|]];
    }
  }

  /**
   * The component's state. Each handler stores a new list computed from the old one;
   * `id` of a new request, built from the clock and a random number, is a parameter.
   */
  class SettingsForm {
    var holidays: seq<string>
    var newHoliday: string
    var scheduleRequests: seq<ScheduleRequest>
    var newRequestDate: string
    var newRequestType: ScheduleRequestType
    var newRequestPeriods: seq<Period>
    var newRequestDescription: string

    /** The form as the screen opens it, with the saved lists. */
    constructor (initialHolidays: seq<string>, initialRequests: seq<ScheduleRequest>)
      ensures holidays == initialHolidays && scheduleRequests == initialRequests
      ensures newHoliday == "" && newRequestDate == "" && newRequestType == PeriodsOnly
      ensures newRequestPeriods == [P1] && newRequestDescription == ""
    {
      holidays := initialHolidays;
      newHoliday := "";
      scheduleRequests := initialRequests;
      newRequestDate := "";
      newRequestType := PeriodsOnly;
      newRequestPeriods := [P1];
      newRequestDescription := "";
    }

    method AddHoliday()
      modifies this
      ensures holidays == AddHolidayTo(old(holidays), old(newHoliday))
      ensures newHoliday == if old(newHoliday) != "" && old(newHoliday) !in old(holidays) then "" else old(newHoliday)
      ensures scheduleRequests == old(scheduleRequests) && newRequestPeriods == old(newRequestPeriods)
      ensures newRequestDate == old(newRequestDate) && newRequestType == old(newRequestType)
      ensures newRequestDescription == old(newRequestDescription)
    {
      if newHoliday != "" && newHoliday !in holidays {
        holidays := SortDates(holidays + [newHoliday]);
        newHoliday := "";
      }
    }

    method RemoveHoliday(date: string)
      modifies this
      ensures holidays == RemoveHolidayFrom(old(holidays), date)
      ensures newHoliday == old(newHoliday) && scheduleRequests == old(scheduleRequests)
      ensures newRequestPeriods == old(newRequestPeriods) && newRequestDate == old(newRequestDate)
      ensures newRequestType == old(newRequestType) && newRequestDescription == old(newRequestDescription)
    {
      holidays := RemoveHolidayFrom(holidays, date);
    }

    /** `periodHolidays` is the term's holiday list, computed from the start and end dates outside the form. */
    method AddDefaultHolidays(periodHolidays: seq<string>)
      modifies this
      ensures holidays == AddDefaultsTo(old(holidays), periodHolidays)
      ensures newHoliday == old(newHoliday) && scheduleRequests == old(scheduleRequests)
      ensures newRequestPeriods == old(newRequestPeriods) && newRequestDate == old(newRequestDate)
      ensures newRequestType == old(newRequestType) && newRequestDescription == old(newRequestDescription)
    {
      var unlisted := NewDates(holidays, periodHolidays);
      if |unlisted| > 0 {
        holidays := SortDates(holidays + unlisted);
      }
    }

    /** Appends the request the form describes and resets the form; without a date or periods, does nothing. */
    method AddScheduleRequest(id: string)
      modifies this
      ensures scheduleRequests == AddRequestTo(old(scheduleRequests), id, old(newRequestDate), old(newRequestType),
                                               old(newRequestPeriods), old(newRequestDescription))
      ensures old(newRequestDate) == "" || old(newRequestPeriods) == [] ==>
        && newRequestDate == old(newRequestDate) && newRequestType == old(newRequestType)
        && newRequestPeriods == old(newRequestPeriods) && newRequestDescription == old(newRequestDescription)
      ensures old(newRequestDate) != "" && old(newRequestPeriods) != [] ==>
        && newRequestDate == "" && newRequestType == PeriodsOnly
        && newRequestPeriods == [P1] && newRequestDescription == ""
      ensures holidays == old(holidays) && newHoliday == old(newHoliday)
    {
      if newRequestDate == "" || |newRequestPeriods| == 0 {
        return;
      }
      var description := if newRequestDescription != "" then newRequestDescription
        else GenerateDescription(newRequestType, newRequestPeriods);
      var request := ScheduleRequest(id, newRequestDate, newRequestType, newRequestPeriods, description);
      scheduleRequests := scheduleRequests + [request];
      newRequestDate := "";
      newRequestType := PeriodsOnly;
      newRequestPeriods := [P1];
      newRequestDescription := "";
    }

    method RemoveScheduleRequest(id: string)
      modifies this
      ensures scheduleRequests == RemoveRequestFrom(old(scheduleRequests), id)
      ensures holidays == old(holidays) && newHoliday == old(newHoliday)
      ensures newRequestPeriods == old(newRequestPeriods) && newRequestDate == old(newRequestDate)
      ensures newRequestType == old(newRequestType) && newRequestDescription == old(newRequestDescription)
    {
      scheduleRequests := RemoveRequestFrom(scheduleRequests, id);
    }

    method TogglePeriodSelection(p: Period)
      modifies this
      ensures newRequestPeriods == TogglePeriod(old(newRequestPeriods), p)
      ensures holidays == old(holidays) && newHoliday == old(newHoliday)
      ensures scheduleRequests == old(scheduleRequests) && newRequestDate == old(newRequestDate)
      ensures newRequestType == old(newRequestType) && newRequestDescription == old(newRequestDescription)
    {
      newRequestPeriods := TogglePeriod(newRequestPeriods, p);
    }
  }
}
