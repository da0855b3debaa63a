# A verified model of the college timetable scheduler

This project models, in Dafny, the scheduling core of a web application that builds the half-year
timetables of a Japanese college (four groups: ITソリューション 1年/2年 and 地域観光デザイン 1年/2年;
days 月–金, periods 1限–4限, weeks of the term). It also models the small validators, list
maintainers and text transformers around that core, and the one-shot Python script that rewrites the
classroom lists of the mock data. Each module states contracts for its operations and proves them;
where a contract is weaker than what the source does, "## Left out" says so.

## Modules

One Dafny module per source file, written in the source's own style:

- `Types` (types.dfy): src/types/index.ts. The day, period and request-kind unions, `Subject`,
  `Teacher` and its constraints, `ScheduleRequest`, and the constant tables `DAYS_OF_WEEK`, `PERIODS`
  and `TIME_PERIODS`.
- `AutoScheduleRules` (auto_schedule_rules.dfy): the read-only rules of src/utils/autoScheduleGenerator.ts.
  These are the round-robin weekly distribution, the schedule-request check, the consecutive-slot
  check, the day and period priorities and the group lookups.
- `AutoSchedule` (auto_schedule.dfy): the `AutoScheduleGenerator` class. Its fields `usedSlots`,
  `teacherSchedule` and `classroomSchedule` are updated in place, as in the source. Its methods are
  the booking helpers, the classroom and teacher searches, the all-or-nothing consecutive
  placement, the combo placement with rollback, and the nested week/day/period fill loops.
  Together they keep the invariant that no teacher, classroom or group slot is booked twice.
- `TimetableGenerator` (timetable_generator.dfy): the older generator class of
  src/utils/timetableGenerator.ts, with its teacher/student clash checks, classroom search and
  move validators.
- `PriorityScheduler` (priority_scheduler.dfy), `FionaMakeup` (fiona_makeup.dfy), `Holidays`
  (holidays.dfy) and `SubjectNames` (subject_names.dfy): the remaining files under src/utils.
- `ComboPlacement` (combo_placement.dfy) and `ConsistencyChecker` (consistency_checker.dfy): the two
  combo-pair validators.
- `SemesterTimetable` (semester_timetable.dfy): the screen's drag-and-drop move validator and the
  move update, as a `Screen` class.
- `BasicSettings` (basic_settings.dfy): the settings form, as a `SettingsForm` class.
- `App` (app.dfy): the tab-completeness gate, the CRUD handlers and the group records.
- `ExportHelpers` (export_helpers.dfy): the Excel matrix and the subject colours.
- `FixClassrooms` (fix_classrooms.dfy): fix_classrooms.py.
- `Wrappers`, `Strings`, `Sorting` and `Grouping`: helpers that give JavaScript's built-ins their
  meaning:
  - `Strings` covers `includes`, `indexOf`, `replace`, `split`, `join`, `trim` and number rendering;
  - `Sorting` covers the stable `Array.prototype.sort`, `filter`, `find` and `findIndex`;
  - `Grouping` covers a `Map<K, V[]>` filled by `push`.

Slot keys such as `` `${week}-${day}-${period}` `` are modelled as tuples. The key text is also
modelled where the source reads it back. This is how the model shows three things about the
source as written:
- the `split('-')` lookups of the group-day and group-week loads never match a group id such as
  `it-1`, so the random draw of the period priority is never consulted;
- `checkPrerequisiteCompleted` never succeeds;
- the 1/19 check of ConsistencyChecker.tsx, which expects `15-月-14-15`, never finds a key.
  Whenever 鈴木俊良 requires confirmation it therefore reports its error.

In fix_classrooms.py, `re.sub` without a count rewrites every record of a subject
(`FixClassrooms.SubAll`). Rewriting twice with one table entry gives the same text as rewriting
once (`FixClassrooms.SubAllIdempotent`).

## Model

| member | source | states |
|---|---|---|
| Types.DaysOfWeekExact | src/types/index.ts:213 | DAYS_OF_WEEK is 月, 火, 水, 木, 金 in that order, holds every weekday exactly once, and no label is 土 or 日 |
| Types.PeriodsExact | src/types/index.ts:214 | PERIODS is 1限 … 4限 in order, each period exactly once |
| Types.DayNameInjective | src/types/index.ts:6 | distinct days have distinct Japanese labels and distinct English names |
| Types.PeriodNameInjective | src/types/index.ts:5 | distinct periods have distinct labels |
| Types.TimePeriodsOrdered | src/types/index.ts:206-211 | every TIME_PERIODS entry is a valid HH:MM pair, each period starts before it ends and ends before the next one starts |
| Types.RequestTypeNamesDistinct | src/types/index.ts:192-196 | the four schedule-request kinds have four distinct wire names |
| Holidays.JsRemainder | src/utils/holidayCalculator.ts:53 | JavaScript `%`: equal to the mathematical remainder for a non-negative dividend and strictly between -n and n otherwise |
| Holidays.NthWeekdayIsNth | src/utils/holidayCalculator.ts:48-59 | getNthWeekday's result lies on the requested weekday; stepping back week-1 weeks gives the first such day of the month (between the 1st and the 7th), and no earlier day has that weekday |
| Holidays.FixedHolidaysInAcademicYear | src/utils/holidayCalculator.ts:122-149 | every fixed holiday gets a valid month and lands in the academic year (April to March) that starts in `year`; the year is `year + 1` exactly for January to March |
| Holidays.FixedYearHolidays | src/utils/holidayCalculator.ts:101-149 | the forEach over the fixed list gives one dated entry per fixed holiday, in list order |
| Holidays.CalculatedEntries | src/utils/holidayCalculator.ts:151-213 | exactly eight movable holidays are pushed (成人の日 twice, 海の日, スポーツの日, 敬老の日, 春分の日 twice, 秋分の日) |
| Holidays.SubstitutesExactlyForSundays | src/utils/holidayCalculator.ts:72-92 | a substitute holiday exists exactly for each holiday on a Sunday, dated the next day and named 振替休日（name）, and every substitute has type substitute |
| Holidays.CalculateSubstituteHolidays | src/utils/holidayCalculator.ts:72-92 | the forEach loop returns exactly the substitute list |
| Holidays.CalculateYearHolidays | src/utils/holidayCalculator.ts:97-219 | the year's list is the fixed entries, then the movable ones, then their substitutes |
| Holidays.InPeriod | src/utils/holidayCalculator.ts:243-246 | a holiday is kept exactly when its date lies between start and end, both included |
| Holidays.CollectYearHolidays | src/utils/holidayCalculator.ts:237-240 | the year loop concatenates the lists of the years startYear … endYear in year order |
| Holidays.UniqueByDateDistinct | src/utils/holidayCalculator.ts:249-254 | the reduce keeps at most one holiday per date |
| Holidays.UniqueByDateFirst | src/utils/holidayCalculator.ts:249-254 | every holiday the reduce keeps is the first holiday of its date in its input |
| Holidays.UniqueByDateDates | src/utils/holidayCalculator.ts:249-254 | the reduce keeps only input holidays and drops no date |
| Holidays.SortByDateFacts | src/utils/holidayCalculator.ts:256 | the sort by date is a permutation, keeps the same elements and orders them by date |
| Holidays.PeriodListCorrect | src/utils/holidayCalculator.ts:243-256 | the period list has distinct dates, is sorted by date, holds only holidays of the period and holds a holiday for every date in the period that has one |
| Holidays.PeriodListKeepsFirst | src/utils/holidayCalculator.ts:249-256 | each holiday of the period list is the first one of its date among the holidays of the period |
| Holidays.SortedDistinctDates | src/utils/holidayCalculator.ts:256 | sorting a list with distinct dates keeps the dates distinct |
| Holidays.HolidaysInPeriodCorrect | src/utils/holidayCalculator.ts:227-257 | the same facts for the list built from the years the period touches |
| Holidays.GetHolidaysInPeriodBase | src/utils/holidayCalculator.ts:227-257 | the method returns the filtered, de-duplicated and sorted list |
| Holidays.GetHolidaysInPeriod | src/utils/holidayCalculator.ts:265-268 | the dates of that list, in the same order and one per holiday |
| SubjectNames.SplitCombined | src/utils/subjectNameNormalizer.ts:41-51 | splitCombinedSubject gives no split exactly when the name lacks "I/II", and otherwise the pair `base I`, `base II` of one base |
| SubjectNames.SplitCombinedSpaced | src/utils/subjectNameNormalizer.ts:41-51 | a name `p I/II q` splits into `p+q I` and `p+q II` |
| SubjectNames.SplitCombinedUnspaced | src/utils/subjectNameNormalizer.ts:41-51 | a name `pI/IIq` with no " I/II" in it and no "I/II" before `p` ends splits into `p+q I` and `p+q II` |
| SubjectNames.FirstSpacedOccurrence | src/utils/subjectNameNormalizer.ts:46 | the first " I/II" of `p I/II q` is found right after `p` |
| SubjectNames.IsNormalized | src/utils/subjectNameNormalizer.ts:58-77 | an accepted name has no full-width Ⅰ or Ⅱ, no "I/II" and no I or II left without its space |
| SubjectNames.SpaceBeforeIComplete | src/utils/subjectNameNormalizer.ts:24 | after the global I-replacement no I-match is left |
| SubjectNames.SpaceBeforeIIComplete | src/utils/subjectNameNormalizer.ts:25 | after the global II-replacement no II-match is left |
| SubjectNames.SpaceBeforeIIKeepsNoIMatch | src/utils/subjectNameNormalizer.ts:24-25 | the II-replacement creates no new I-match |
| SubjectNames.SpaceBeforeIChars | src/utils/subjectNameNormalizer.ts:24 | the I-replacement inserts only spaces |
| SubjectNames.SpaceBeforeIIChars | src/utils/subjectNameNormalizer.ts:25 | the II-replacement inserts only spaces |
| SubjectNames.SpaceBeforeINoMatch | src/utils/subjectNameNormalizer.ts:24 | without an I-match the replacement changes nothing |
| SubjectNames.SpaceBeforeIINoMatch | src/utils/subjectNameNormalizer.ts:25 | without an II-match the replacement changes nothing |
| SubjectNames.NormalizeNoRomanNumerals | src/utils/subjectNameNormalizer.ts:18-20 | normalizeSubjectName's output never holds Ⅰ or Ⅱ |
| SubjectNames.NoFullWidthNumerals | src/utils/subjectNameNormalizer.ts:18-20 | a name without Ⅰ or Ⅱ passes the full-width replacement unchanged |
| SubjectNames.NormalizeLeavesNoMatch | src/utils/subjectNameNormalizer.ts:16-34 | the output has no I or II left without its space |
| SubjectNames.NormalizedIsFixedPoint | src/utils/subjectNameNormalizer.ts:16-77 | a name isNormalizedSubjectName accepts is left unchanged by normalizeSubjectName |
| SubjectNames.NormalizeIdempotent | src/utils/subjectNameNormalizer.ts:16-34 | normalising twice is normalising once |
| SubjectNames.NormalizeAccepted | src/utils/subjectNameNormalizer.ts:16-77 | a normalised name is accepted exactly when it holds no "I/II" |
| SubjectNames.NormalizeExample | src/utils/subjectNameNormalizer.ts:22-24 | キャリア実践I becomes キャリア実践 I, the example the source's comment gives |
| FixClassrooms.PatternFor | fix_classrooms.py:79 | the pattern of one table entry starts with the name clause `name: '<name>',` and looks for the classroom-list marker after it |
| FixClassrooms.FirstCloseSpec | fix_classrooms.py:79 | the `[^\]]*\]` tail stops at the first `]`, and fails only when no `]` follows |
| FixClassrooms.ListAfterSpec | fix_classrooms.py:79 | the lazy `.*?availableClassroomIds: \[` finds the first marker after the name, and the list runs from its `[` to the first `]`; no match when there is no such pair |
| FixClassrooms.FirstMatchFound | fix_classrooms.py:79-83 | a match starts at the first occurrence of the name clause, its list opens at the first marker after it and closes at the first `]` after that |
| FixClassrooms.FirstMatchNone | fix_classrooms.py:79-83 | no match means no name clause is followed by a marker and then a `]` |
| FixClassrooms.SubAll | fix_classrooms.py:81-83 | `re.sub` keeps the text before the first match's list, puts the new list in its place and goes on after it; with no match the text is unchanged |
| FixClassrooms.SubAllNoHead | fix_classrooms.py:83 | a text that never mentions the name clause is left unchanged |
| FixClassrooms.RenderListText | fix_classrooms.py:80 | `str(ids).replace("'", '"')` is the ids in table order, double-quoted, joined by `, ` in brackets |
| FixClassrooms.RenderListBracketed | fix_classrooms.py:80 | ids without quotes or brackets render as one bracketed list with no inner `]` |
| FixClassrooms.FirstMatchAfterRewrite | fix_classrooms.py:79-83 | after one rewrite the first match is at the same place and spans exactly the new list |
| FixClassrooms.SubAllIdempotent | fix_classrooms.py:79-83 | rewriting a second time with the same entry changes nothing |
| FixClassrooms.LongerNameNoHead | fix_classrooms.py:79 | the `',` after the name keeps the entry for `次世代地域リーダー学 I` from matching the record `次世代地域リーダー学 I/II` or any other longer name |
| FixClassrooms.FixClassrooms | fix_classrooms.py:73-84 | the loop rewrites the file text once per table entry, in table order |
| AutoScheduleRules.CalculateWeeklyDistribution | src/utils/autoScheduleGenerator.ts:1048-1077 | the round-robin loop over the weeks ends with exactly the closed-form distribution: the sessions handed out split evenly, the first weeks one more |
| AutoScheduleRules.RoundRobinClosedForm | src/utils/autoScheduleGenerator.ts:1056-1071 | after some full rounds and a partial one the weekly counts are the closed form |
| AutoScheduleRules.ZeroDistribution | src/utils/autoScheduleGenerator.ts:1051-1056 | with no sessions to hand out every week stays at zero |
| AutoScheduleRules.DistributedCount | src/utils/autoScheduleGenerator.ts:1056-1071 | the loop hands out every session, or stops when every week is at its maximum |
| AutoScheduleRules.DistributionSum | src/utils/autoScheduleGenerator.ts:1048-1077 | the weekly counts add up to the sessions handed out, which is all of them when the weeks have room |
| AutoScheduleRules.DistributionBounded | src/utils/autoScheduleGenerator.ts:1058-1062 | no week gets more than the weekly maximum, and none a negative count |
| AutoScheduleRules.DistributionBalanced | src/utils/autoScheduleGenerator.ts:1054-1066 | earlier weeks never get fewer sessions than later ones, and any two weeks differ by at most one |
| AutoScheduleRules.AddBooking | src/utils/autoScheduleGenerator.ts:984-996 | adding a booking creates the id's set on first use and adds the slot to it; every other id's set is unchanged |
| AutoScheduleRules.RemoveBooking | src/utils/autoScheduleGenerator.ts:951-957 | removing deletes the slot from the id's set, and leaves the map untouched when the id has no set |
| AutoScheduleRules.RollbackRestores | src/utils/autoScheduleGenerator.ts:951-996 | booking a free classroom slot and removing it again leaves every lookup as it was |
| AutoScheduleRules.FirstRequestFor | src/utils/autoScheduleGenerator.ts:1126 | the request found is the first one for the date; none is found exactly when no request has that date |
| AutoScheduleRules.RequestViolatedByFirst | src/utils/autoScheduleGenerator.ts:1122-1173 | with no request for the date nothing is forbidden; otherwise only the first request for the date decides |
| AutoScheduleRules.RequestOpenPeriods | src/utils/autoScheduleGenerator.ts:1133-1170 | periods-only leaves open exactly the listed periods, exclude-periods exactly the others, start-from the periods from its first listed one on, end-until those up to its last listed one (all of them forbidden when its list is empty) |
| AutoScheduleRules.PeriodsFrom | src/utils/autoScheduleGenerator.ts:1144-1146 | the slice of PERIODS from an index holds exactly the periods at that index or later |
| AutoScheduleRules.NoneBookedFromCorrect | src/utils/autoScheduleGenerator.ts:488-506 | the run check's loop finds every slot of the run free exactly when none of them is booked |
| AutoScheduleRules.ConsecutiveSlotsCorrect | src/utils/autoScheduleGenerator.ts:488-506 | checkConsecutiveSlots fails when the run would pass 4限, and otherwise holds exactly when none of the run's slots is booked for the teacher |
| AutoScheduleRules.SlotKeyHasNoDo | src/utils/autoScheduleGenerator.ts:1000 | a slot key is built from digits, `-`, a day label and a period label and never holds ド |
| AutoScheduleRules.PrerequisiteNeverCompleted | src/utils/autoScheduleGenerator.ts:1025-1038 | checkPrerequisiteCompleted never succeeds, because `usedSlots` keys never contain the subject name ドローン座学 unless a group id holds ド |
| AutoScheduleRules.AcceptedSlotRespectsConstraints | src/utils/autoScheduleGenerator.ts:318-458 | a slot checkTeacherConstraints accepts avoids the unavailable days, is on an available day when a list is given, is below every truthy weekly and daily limit, and keeps the Kinoshita, Miyazaki and Morita rules |
| AutoScheduleRules.FirstAvailableTeacherCorrect | src/utils/autoScheduleGenerator.ts:293-316 | the teacher found is one of the subject's teachers, accepted and free at the slot, with no earlier such teacher in the list; none is found exactly when no teacher of the subject qualifies |
| AutoScheduleRules.FirstAvailableTeacherNone | src/utils/autoScheduleGenerator.ts:293-316 | getAvailableTeacher returns null exactly when none of the subject's teachers is acceptable |
| AutoScheduleRules.FirstAvailableTeacherSome | src/utils/autoScheduleGenerator.ts:293-316 | a teacher found is the first acceptable one of the subject's teachers |
| AutoScheduleRules.FirstFreeClassroomCorrect | src/utils/autoScheduleGenerator.ts:959-982 | the classroom found is allowed (listed, or any when the list is empty) and free, with no earlier such classroom; none is found exactly when every allowed classroom is booked |
| AutoScheduleRules.FirstFreeClassroomNone | src/utils/autoScheduleGenerator.ts:959-982 | getAvailableClassroom returns null exactly when every allowed classroom is booked at the slot |
| AutoScheduleRules.FirstFreeClassroomSome | src/utils/autoScheduleGenerator.ts:959-982 | a classroom found is the first allowed and free one |
| AutoScheduleRules.SplitLookupsNeverMatch | src/utils/autoScheduleGenerator.ts:605-626 | for a group id holding `-` the split-based lookups getGroupDayPeriods and getGroupWeeklyLoad always find nothing |
| AutoScheduleRules.AdjacencySum | src/utils/autoScheduleGenerator.ts:569-578 | the adjacency bonus from the periods already in use is never negative |
| AutoScheduleRules.FreePeriodScore | src/utils/autoScheduleGenerator.ts:556-585 | a period not yet used that day scores above a used one |
| AutoScheduleRules.PeriodPriorityIsPermutation | src/utils/autoScheduleGenerator.ts:531-594 | calculatePeriodPriority lists each of the four periods exactly once |
| AutoScheduleRules.BalancedPeriodOrderIsPermutation | src/utils/autoScheduleGenerator.ts:655-669 | getBalancedPeriodOrder lists each of the four periods exactly once |
| AutoScheduleRules.PeriodPriorityUsedLast | src/utils/autoScheduleGenerator.ts:531-594 | periods the group already uses that day come after every period it does not use |
| AutoScheduleRules.PeriodPriorityFixedForGeneratedGroups | src/utils/autoScheduleGenerator.ts:531-594 | for every generated group the period order is 1限 to 4限, whatever the random draw |
| AutoScheduleRules.StartIndexes | src/utils/autoScheduleGenerator.ts:673 | the candidate starts are 0 up to the bound, and none when the bound is not positive |
| AutoScheduleRules.ConsecutiveStartPriorityAscending | src/utils/autoScheduleGenerator.ts:671-701 | earlier starts always score higher, so the priority order is 0, 1, … in order |
| AutoScheduleRules.DayCompareIsByCount | src/utils/autoScheduleGenerator.ts:508-529 | on records built from one lookup the comparator orders by the group's class count alone |
| AutoScheduleRules.DayPriorityCorrect | src/utils/autoScheduleGenerator.ts:508-529 | the day order is a rearrangement of the available days, busiest day first |
| AutoScheduleRules.RelevantSubjectsCorrect | src/utils/autoScheduleGenerator.ts:109-124 | a subject is scheduled for a group exactly when it matches the department (or 共通) and the grade (or 全学年) |
| AutoScheduleRules.GroupsFacts | src/utils/autoScheduleGenerator.ts:67-115 | every generated group id holds `-` and no ド; the 1年 groups target the first year and the 2年 groups the second |
| AutoSchedule.AppendFreeEntry | src/utils/autoScheduleGenerator.ts:258-261 | placing an entry whose teacher and classroom are free at its slot, and booking both, keeps every placed entry booked and no teacher or classroom double-booked |
| AutoSchedule.BookedMonotone | src/utils/autoScheduleGenerator.ts:984-996 | booking more slots never unbooks an entry |
| AutoSchedule.SubjectIds | src/utils/autoScheduleGenerator.ts:147-149 | a placement for a subject adds entries of the subject itself and, for a combo, of its partner |
| AutoSchedule.AppendUnused | src/utils/autoScheduleGenerator.ts:199-205 | entries on slots the group had not used, two sharing a slot only as an adjacent combo pair, keep the group's timetable marked and free of other shared slots |
| AutoSchedule.CalendarAppend | src/utils/autoScheduleGenerator.ts:207-217 | entries clear of holidays and forbidden periods, appended to such entries, stay clear |
| AutoSchedule.BookTeachersSlots | src/utils/autoScheduleGenerator.ts:838-843 | booking the entries in turn adds exactly their slots to each teacher's set |
| AutoSchedule.BookClassroomsSlots | src/utils/autoScheduleGenerator.ts:838-843 | booking the entries in turn adds exactly their slots to each classroom's set |
| AutoSchedule.PrefixMissesNext | src/utils/autoScheduleGenerator.ts:838-843 | booking earlier entries of a run with distinct slots leaves the next entry's teacher and classroom free |
| AutoSchedule.BookedPair | src/utils/autoScheduleGenerator.ts:936-945 | a combo pair with different teachers and classrooms, all free, keeps the log booked and free of double bookings |
| AutoSchedule.PairSlots | src/utils/autoScheduleGenerator.ts:937-940 | a combo pair at one unused, allowed slot may join the group's timetable, marking that one slot |
| AutoSchedule.TotalSessions | src/utils/autoScheduleGenerator.ts:141 | `totalClasses \|\| 16` is never zero and is totalClasses whenever that is non-zero |
| AutoSchedule.ComboPartner | src/utils/autoScheduleGenerator.ts:147-149 | a partner exists exactly for a combo lesson with a non-empty comboSubjectId that some subject has, and it is the first subject with that id |
| AutoSchedule.OwnedDays | src/utils/autoScheduleGenerator.ts:94-172 | with Monday avoided, an entry falls on a Monday only if a subject of 木下 placed it; every entry a subject of 木下 placed is on Monday or Friday |
| AutoSchedule.GroupIdsDistinct | src/utils/autoScheduleGenerator.ts:67-72 | the four generated groups have four distinct ids |
| AutoSchedule.RunReady | src/utils/autoScheduleGenerator.ts:766-831 | entries ready for the slots of a run are on distinct slots, free, unused by the group, clear of holidays and forbidden periods, and on the run's day |
| AutoSchedule.AutoScheduleGenerator.constructor | src/utils/autoScheduleGenerator.ts:38-47 | a new generator holds the given teachers, subjects and classrooms, with nothing booked |
| AutoSchedule.AutoScheduleGenerator.AddToTeacherSchedule | src/utils/autoScheduleGenerator.ts:984-989 | adds the slot to the teacher's bookings and changes nothing else |
| AutoSchedule.AutoScheduleGenerator.AddToClassroomSchedule | src/utils/autoScheduleGenerator.ts:991-996 | adds the slot to the classroom's bookings and changes nothing else |
| AutoSchedule.AutoScheduleGenerator.RemoveFromClassroomSchedule | src/utils/autoScheduleGenerator.ts:951-957 | removes the slot from the classroom's bookings when it has a set, and changes nothing else |
| AutoSchedule.AutoScheduleGenerator.Book | src/utils/autoScheduleGenerator.ts:258-261 | recording a placed entry with free teacher and classroom marks the group's slot and books both, keeping the no-double-booking invariant |
| AutoSchedule.AutoScheduleGenerator.BookAll | src/utils/autoScheduleGenerator.ts:835-843 | the booking loop over a run's entries appends them, marks their slots and books their teachers and classrooms, keeping the invariant |
| AutoSchedule.AutoScheduleGenerator.CandidateFacts | src/utils/autoScheduleGenerator.ts:199-239 | a slot gets a teacher exactly when it is unused by the group, not a holiday, not forbidden by a request and some teacher of the subject is acceptable; the entry then found sits at the slot with that teacher and a free, allowed classroom |
| AutoSchedule.AutoScheduleGenerator.RunEntries | src/utils/autoScheduleGenerator.ts:815-829 | the entries prepared for a feasible run are one per period of the run, in order |
| AutoSchedule.AutoScheduleGenerator.FirstFeasibleStart | src/utils/autoScheduleGenerator.ts:766-847 | the start chosen is the first start index whose whole run is feasible; none means no start's run is |
| AutoSchedule.AutoScheduleGenerator.PrepareTeacher | src/utils/autoScheduleGenerator.ts:776-805 | the teacher checks for one slot, in the loops' order, give the candidate teacher |
| AutoSchedule.AutoScheduleGenerator.PrepareEntry | src/utils/autoScheduleGenerator.ts:776-829 | the teacher checks, then the classroom search, give the candidate entry for the slot |
| AutoSchedule.AutoScheduleGenerator.GetConsecutiveStartPriority | src/utils/autoScheduleGenerator.ts:671-701 | whatever the weekly load and the days that reach 4限, the start indexes come out ascending |
| AutoSchedule.AutoScheduleGenerator.PrepareRun | src/utils/autoScheduleGenerator.ts:770-831 | the check loop for one start gives entries exactly when the run is feasible, and then the candidate entry of each period in order |
| AutoSchedule.AutoScheduleGenerator.FindFeasibleStart | src/utils/autoScheduleGenerator.ts:766-833 | the start loop finds entries exactly when some start is feasible, and then it is the first feasible start with its run's entries, which are distinct, free, unused and clear of the calendar |
| AutoSchedule.AutoScheduleGenerator.TryDayConsecutivePlacement | src/utils/autoScheduleGenerator.ts:749-850 | places nothing and changes nothing when no start of the day is feasible, and otherwise places and books exactly the first feasible run, returning the sessions needed |
| AutoSchedule.AutoScheduleGenerator.FirstRunDay | src/utils/autoScheduleGenerator.ts:734-743 | the day chosen is the first of the given days with a feasible run |
| AutoSchedule.AutoScheduleGenerator.TryConsecutivePlacement | src/utils/autoScheduleGenerator.ts:717-747 | nothing for a combo subject or when no day has a feasible run; otherwise the run of the first such day is placed |
| AutoSchedule.AutoScheduleGenerator.ComboFacts | src/utils/autoScheduleGenerator.ts:852-949 | a combo pair sits at the slot with teacher 1 on subject 1 and another, acceptable teacher of subject 2 on subject 2, in two different classrooms, all free; with subject 1's classroom booked first, subject 2 never gets the same one |
| AutoSchedule.AutoScheduleGenerator.PlaceComboClass | src/utils/autoScheduleGenerator.ts:852-949 | succeeds exactly when the pair exists; then both entries are appended, the group's slot marked and both teachers and classrooms booked; on failure nothing is placed and the temporary classroom booking is rolled back |
| AutoSchedule.AutoScheduleGenerator.PickComboTeacherAndRoom | src/utils/autoScheduleGenerator.ts:865-888 | the first four checks of the combo placement, each an early failure |
| AutoSchedule.AutoScheduleGenerator.CompleteComboClass | src/utils/autoScheduleGenerator.ts:890-948 | books the first classroom, then either rolls it back when the second is missing or equal, or places and books both entries |
| AutoSchedule.AutoScheduleGenerator.BookComboPair | src/utils/autoScheduleGenerator.ts:937-945 | the success bookings: the pair appended, the group's slot marked, both teachers and the second classroom booked |
| AutoSchedule.AutoScheduleGenerator.BookPairResources | src/utils/autoScheduleGenerator.ts:941-945 | the two teacher bookings and the second classroom's |
| AutoSchedule.AutoScheduleGenerator.TryPlaceAt | src/utils/autoScheduleGenerator.ts:199-282 | one slot of the period loop: the checks, then a plain entry with a free classroom or the combo pair; one entry, two or none are added, all at the slot |
| AutoSchedule.AutoScheduleGenerator.PlaceSingle | src/utils/autoScheduleGenerator.ts:233-264 | the plain branch succeeds exactly when a classroom is found, and then appends and books the candidate entry; otherwise nothing changes |
| AutoSchedule.AutoScheduleGenerator.PlaceComboAt | src/utils/autoScheduleGenerator.ts:266-281 | the combo branch places the pair placeComboClass finds at the slot |
| AutoSchedule.AutoScheduleGenerator.ComboPairReady | src/utils/autoScheduleGenerator.ts:268-270 | a pair placed at a slot whose checks passed can join the group's timetable |
| AutoSchedule.AutoScheduleGenerator.FillDay | src/utils/autoScheduleGenerator.ts:194-283 | the periods of one day in priority order; the week's count never passes its target once anything is placed, and every entry added is on that day |
| AutoSchedule.AutoScheduleGenerator.FillPeriods | src/utils/autoScheduleGenerator.ts:196-283 | the period loop stops at the week's target; each success counts one session, a combo pair two entries |
| AutoSchedule.AutoScheduleGenerator.FillWeek | src/utils/autoScheduleGenerator.ts:184-285 | the day loop in calculateDayPriority order, keeping the group invariant and the week's target |
| AutoSchedule.AutoScheduleGenerator.FillDays | src/utils/autoScheduleGenerator.ts:190-285 | the loop over the days in priority order keeps every entry on the subject's days |
| AutoSchedule.AutoScheduleGenerator.ConsecutiveAttempt | src/utils/autoScheduleGenerator.ts:175-181 | the consecutive attempt with two sessions places none or both, never for a combo |
| AutoSchedule.AutoScheduleGenerator.ScheduleWeek | src/utils/autoScheduleGenerator.ts:160-285 | one week of a subject adds 0 or 2 consecutive sessions, or at most the week's target, all in that week on the subject's days |
| AutoSchedule.AutoScheduleGenerator.ScheduleSubject | src/utils/autoScheduleGenerator.ts:133-286 | a combo subject already placed as a partner is skipped; otherwise the entries added are of it or its partner in weeks 1 to the last week on its days, at most one session over its total, and a placed combo marks both subjects done |
| AutoSchedule.AutoScheduleGenerator.ScheduleWeeks | src/utils/autoScheduleGenerator.ts:159-286 | the week loop over the weekly shares keeps the group invariant and every entry within the weeks |
| AutoSchedule.AutoScheduleGenerator.GenerateGroupSchedule | src/utils/autoScheduleGenerator.ts:88-291 | a group's timetable has its slots marked, slots shared only by combo pairs, no entry on a holiday or in a forbidden period, and every entry placed by a relevant subject on that subject's days |
| AutoSchedule.AutoScheduleGenerator.ScheduleSubjects | src/utils/autoScheduleGenerator.ts:133-287 | the subject loop keeps the group invariant and every entry owned by a relevant subject |
| AutoSchedule.AutoScheduleGenerator.GenerateSchedule | src/utils/autoScheduleGenerator.ts:49-86 | the holidays and requests default to empty; the result maps exactly the four group ids to their timetables, and across all groups no teacher or classroom is booked twice at one slot |
| AutoSchedule.AutoScheduleGenerator.Configure | src/utils/autoScheduleGenerator.ts:53-63 | installs the holidays, the requests, the calendar and the draws, and empties the booking maps |
| AutoSchedule.AutoScheduleGenerator.GenerateAllGroups | src/utils/autoScheduleGenerator.ts:74-83 | the loop over the four groups records each group's timetable |
| AutoSchedule.AutoScheduleGenerator.GenerateOneGroup | src/utils/autoScheduleGenerator.ts:76-79 | one group's generation, stated as the group loop relies on it |
| AutoSchedule.AutoScheduleGenerator.AddGroup | src/utils/autoScheduleGenerator.ts:74-82 | one round of the group loop: usedSlots emptied, the group generated and its timetable recorded under its id |
| AutoSchedule.AutoScheduleGenerator.GenerateGroups | src/utils/autoScheduleGenerator.ts:74-83 | the group loop, from empty booking maps, records all four groups |
| AutoSchedule.AutoScheduleGenerator.GetAvailableTeacher | src/utils/autoScheduleGenerator.ts:293-316 | the loop with early return finds exactly the first acceptable teacher of the subject |
| AutoSchedule.AutoScheduleGenerator.GetAvailableClassroom | src/utils/autoScheduleGenerator.ts:959-982 | the loop with early return finds exactly the first allowed, free classroom |
| TimetableGenerator.IndexById | src/utils/timetableGenerator.ts:32-34 | `new Map(list.map(x => [x.id, x]))` holds every element's id, each under its own id, and the last element with a given id wins |
| TimetableGenerator.KeyOrder | src/utils/timetableGenerator.ts:33-50 | the map's keys in insertion order are distinct and exactly the ids of the list |
| TimetableGenerator.ValuesInOrder | src/utils/timetableGenerator.ts:50 | `Array.from(map.values())` gives one value per key, in key insertion order |
| TimetableGenerator.ValuesKeyed | src/utils/timetableGenerator.ts:33-50 | every value the iteration yields is stored under its own id |
| TimetableGenerator.AppendUnbooked | src/utils/timetableGenerator.ts:97-112 | an entry whose classroom is free at its date and period keeps the schedule free of classroom clashes |
| TimetableGenerator.SubjectCountSnoc | src/utils/timetableGenerator.ts:112-114 | pushing an entry raises its subject's entry count by one and no other |
| TimetableGenerator.SubjectCountConcat | src/utils/timetableGenerator.ts:112-133 | entry counts add over joined schedules |
| TimetableGenerator.ProgressStep | src/utils/timetableGenerator.ts:90-139 | trying one more slot below the target keeps the loop state: the entries pushed sit at the slots tried and belong to the subject or its known partner |
| TimetableGenerator.WellPlacedGrow | src/utils/timetableGenerator.ts:57-59 | appending what scheduleSubject placed keeps every entry at a generated slot and of a known subject |
| TimetableGenerator.KeyLeTotalPreorder | src/utils/timetableGenerator.ts:359-417 | the ascending comparators by day and by period are total preorders, so the sorts are well defined |
| TimetableGenerator.KeyGeTotalPreorder | src/utils/timetableGenerator.ts:50-54 | the descending comparator by constraint score is a total preorder |
| TimetableGenerator.SortedStepsIffRun | src/utils/timetableGenerator.ts:359-430 | after the stable sort by an integer key, every neighbour is one more than the one before exactly when the keys are consecutive integers, each once |
| TimetableGenerator.SortedKeysAscending | src/utils/timetableGenerator.ts:359-363 | the keys of the sorted entries ascend |
| TimetableGenerator.StepsIffRun | src/utils/timetableGenerator.ts:366-376 | an ascending arrangement steps by one exactly when its elements are consecutive integers, each once |
| TimetableGenerator.AscendingUnique | src/utils/timetableGenerator.ts:359-363 | two ascending arrangements of the same keys are equal |
| TimetableGenerator.SortByKeys | src/utils/timetableGenerator.ts:359-363 | sorting permutes the keys |
| TimetableGenerator.RunDistinct | src/utils/timetableGenerator.ts:420-430 | consecutive integers, each once, are pairwise distinct |
| TimetableGenerator.GetDayOffset | src/utils/timetableGenerator.ts:251-260 | the offset of a day is its position in DAYS_OF_WEEK, 月 to 金 as 0 to 4 |
| TimetableGenerator.Filter | src/utils/timetableGenerator.ts:347-351 | `filter` keeps exactly the elements that satisfy the test |
| TimetableGenerator.CheckSteps | src/utils/timetableGenerator.ts:366-430 | the check loop passes exactly when each key is one more than the one before it |
| TimetableGenerator.DaysBrokenIff | src/utils/timetableGenerator.ts:357-376 | the day check fails exactly when the days are not consecutive days, each taken once |
| TimetableGenerator.PeriodsBrokenIff | src/utils/timetableGenerator.ts:413-430 | the period check fails exactly when the periods are not consecutive periods, each taken once |
| TimetableGenerator.LastPeriodUnshared | src/utils/timetableGenerator.ts:409-430 | when the periods form a run, the moved entry shares its period with no other entry of the day |
| TimetableGenerator.TimetableGenerator.constructor | src/utils/timetableGenerator.ts:31-35 | the three lookup maps are keyed by id from the input lists, and the subjects iterate in insertion order |
| TimetableGenerator.TimetableGenerator.ValidateScheduling | src/utils/timetableGenerator.ts:143-196 | a slot passes exactly when the subject's first teacher exists, its day lists allow the day, and neither that teacher nor the subject's department and grade already has a class at that date and period; a missing teacher gives 教師が見つかりません |
| TimetableGenerator.TimetableGenerator.ValidSchedulingNoClash | src/utils/timetableGenerator.ts:166-187 | an entry placed where the check passes shares its date and period with no class of its teacher or its students |
| TimetableGenerator.TimetableGenerator.FirstUsableFrom | src/utils/timetableGenerator.ts:203-219 | the search from a position finds the first usable classroom id, or none when no later id is usable |
| TimetableGenerator.TimetableGenerator.AvailableClassroom | src/utils/timetableGenerator.ts:198-222 | the classroom of the first listed id that is not excluded, is known and is free at the slot; none exactly when no listed id qualifies |
| TimetableGenerator.TimetableGenerator.FindAvailableClassroom | src/utils/timetableGenerator.ts:198-222 | the loop with `continue` and early return finds exactly that classroom |
| TimetableGenerator.TimetableGenerator.UnconstrainedScore | src/utils/timetableGenerator.ts:224-249 | a subject whose first teacher has no constraint record scores 25 as a combo lesson and 0 otherwise |
| TimetableGenerator.TimetableGenerator.ComboScoreBonus | src/utils/timetableGenerator.ts:244-246 | turning a lesson into a combo lesson raises its score by exactly 25 |
| TimetableGenerator.TimetableGenerator.SortedSubjects | src/utils/timetableGenerator.ts:50-54 | the subjects are tried in a rearrangement of the map's values by non-increasing constraint score |
| TimetableGenerator.TimetableGenerator.DaySlotAt | src/utils/timetableGenerator.ts:70-78 | the k-th slot of a day is that day's k-th period, dated week × 7 plus the day offset |
| TimetableGenerator.TimetableGenerator.SemesterSlots | src/utils/timetableGenerator.ts:64-84 | the slots of a semester number 20 per week |
| TimetableGenerator.TimetableGenerator.SemesterSlotAt | src/utils/timetableGenerator.ts:64-84 | slot 20w + 4·day + period is that period of that day in week w, dated w × 7 + day after the start |
| TimetableGenerator.TimetableGenerator.PushDaySlots | src/utils/timetableGenerator.ts:70-79 | the innermost loop appends one slot per period of the day |
| TimetableGenerator.TimetableGenerator.PushWeekSlots | src/utils/timetableGenerator.ts:69-80 | the middle loop appends the slots of 月 to 金 of one week |
| TimetableGenerator.TimetableGenerator.GenerateTimeSlots | src/utils/timetableGenerator.ts:64-84 | the outer loop builds exactly the semester's slots week by week |
| TimetableGenerator.TimetableGenerator.Admission | src/utils/timetableGenerator.ts:94-101 | a slot is admitted exactly when it passes validateScheduling and a classroom is free; the teacher is then the subject's first and the classroom is free at the slot |
| TimetableGenerator.TimetableGenerator.Book | src/utils/timetableGenerator.ts:102-114 | pushes the entry with the next id, records the subject's new count, and keeps the schedule free of classroom clashes |
| TimetableGenerator.TimetableGenerator.ScheduleAt | src/utils/timetableGenerator.ts:93-139 | one slot of the loop places exactly when the slot is admitted, then sets the subject's count; otherwise the counts are unchanged |
| TimetableGenerator.TimetableGenerator.PlaceAdmitted | src/utils/timetableGenerator.ts:100-137 | the subject's entry with its first teacher in a free classroom, its count, and the combo partner's entry when one exists |
| TimetableGenerator.TimetableGenerator.PlaceComboPartner | src/utils/timetableGenerator.ts:116-136 | the partner subject, when known, gets at most one entry at the same slot in another free classroom, and its count goes up by one from its old count or 0 |
| TimetableGenerator.TimetableGenerator.ScheduleSubject | src/utils/timetableGenerator.ts:86-141 | the slot loop only appends entries, all at the tried slots and of the subject or its partner, and keeps the schedule free of classroom clashes |
| TimetableGenerator.TimetableGenerator.Generate | src/utils/timetableGenerator.ts:37-62 | generate returns the schedule it built, free of classroom clashes, every entry at a slot of the 16-week grid and of a known subject |
| TimetableGenerator.TimetableGenerator.ValidateSpecialTimeConstraint | src/utils/timetableGenerator.ts:382-396 | a teacher who starts at 13:15 may only teach 3限, with the message naming the teacher; any other start allows every period |
| TimetableGenerator.TimetableGenerator.SameDayEntries | src/utils/timetableGenerator.ts:402-410 | the teacher's other entries on the new slot's weekday, then the moved entry at its new slot |
| TimetableGenerator.TimetableGenerator.ValidateConsecutiveConstraint | src/utils/timetableGenerator.ts:398-434 | a failure carries the teacher's consecutive-classes message |
| TimetableGenerator.TimetableGenerator.ConsecutiveIff | src/utils/timetableGenerator.ts:398-434 | the check passes exactly when the teacher does not ask for consecutive classes or the periods of the day's entries are consecutive, each once |
| TimetableGenerator.TimetableGenerator.ConsecutivePeriodFree | src/utils/timetableGenerator.ts:398-434 | after a passing check the teacher has no other entry that day in the new slot's period |
| TimetableGenerator.TimetableGenerator.SequentialEntries | src/utils/timetableGenerator.ts:347-355 | the teacher's other entries of the listed sequential subjects, then the moved entry at its new slot |
| TimetableGenerator.TimetableGenerator.ValidateSequentialConstraint | src/utils/timetableGenerator.ts:329-380 | a failure needs a sequential-subjects record and carries the message with the subjects joined by → |
| TimetableGenerator.TimetableGenerator.SequentialIff | src/utils/timetableGenerator.ts:329-380 | the check fails exactly when the moved subject is listed, the days must be consecutive, and the days of the listed entries are not consecutive days, each once |
| TimetableGenerator.TimetableGenerator.WeeklyEntries | src/utils/timetableGenerator.ts:440-454 | the teacher's other entries in the week of the new slot's date |
| TimetableGenerator.TimetableGenerator.ValidateWeeklyLimitConstraint | src/utils/timetableGenerator.ts:436-467 | with a non-zero weekly limit, the teacher's other entries that week plus the moved one may not exceed it; the message names the limit |
| TimetableGenerator.TimetableGenerator.ValidateComboConstraint | src/utils/timetableGenerator.ts:469-488 | a subject with a non-empty partner needs an entry of the partner at the same date and period; the message names the partner, or 関連科目 |
| TimetableGenerator.TimetableGenerator.ValidateConstraints | src/utils/timetableGenerator.ts:262-327 | an unknown subject or teacher gives データが見つかりません, and a classroom held by another entry at that time always rejects |
| TimetableGenerator.TimetableGenerator.ValidateConstraintsIff | src/utils/timetableGenerator.ts:262-327 | a move passes exactly when its subject and teacher are known and every check passes: scheduling, a free classroom, sequential, special time, consecutive, weekly limit and, for combo lessons, the partner |
| TimetableGenerator.TimetableGenerator.MoveInPlaceRejected | src/utils/timetableGenerator.ts:167-175 | re-validating an entry in its own slot fails when its teacher is the subject's first, because validateScheduling does not leave the moved entry out |
| PriorityScheduler.Records | src/utils/priorityScheduler.ts:32-173 | one record per teacher, in teacher order |
| PriorityScheduler.PushThursdayPairs | src/utils/priorityScheduler.ts:88-122 | the Thursday loops push the 3限 and 4限 lessons of each week in order, skipping New Year's Day when asked |
| PriorityScheduler.SuzukiLessons | src/utils/priorityScheduler.ts:48-74 | 鈴木俊良's table becomes one デザインとプレゼンテーション lesson per row, in order |
| PriorityScheduler.CollectFixedLessons | src/utils/priorityScheduler.ts:42-126 | the lessons pushed for a teacher with a fixed array are exactly the fixed lessons for that teacher's name |
| PriorityScheduler.AddUpPriority | src/utils/priorityScheduler.ts:33-166 | the loop body's running priority ends at the teacher's priority |
| PriorityScheduler.TeacherRecord | src/utils/priorityScheduler.ts:33-172 | the loop body pushes the teacher's record: its priority and its fixed lessons, or none when there are none |
| PriorityScheduler.SortTeachersByPriority | src/utils/priorityScheduler.ts:29-177 | returns the teachers' records stably sorted by decreasing priority |
| PriorityScheduler.GetFixedScheduleTeachers | src/utils/priorityScheduler.ts:182-185 | the sorted records that carry fixed lessons, in sorted order |
| PriorityScheduler.PeriodNumbers | src/utils/priorityScheduler.ts:204 | each comma-separated part has its first 限 removed and is trimmed |
| PriorityScheduler.LessonsConflict | src/utils/priorityScheduler.ts:199-214 | the inner loop finds a conflict exactly when some lesson of the record blocks the slot |
| PriorityScheduler.IsSlotConflictWithFixed | src/utils/priorityScheduler.ts:190-217 | the nested loops report a conflict exactly when some fixed lesson of some record is in the same week and day and either has no period or lists the slot's period number |
| PriorityScheduler.ByPriorityTotal | src/utils/priorityScheduler.ts:176 | the comparator `b.priority - a.priority` is a total preorder |
| PriorityScheduler.PriorityOrderSorted | src/utils/priorityScheduler.ts:168-176 | the order holds exactly the teachers' records, rearranged, by non-increasing priority |
| PriorityScheduler.PriorityOrderRecords | src/utils/priorityScheduler.ts:168-176 | every record of the order belongs to one of the teachers, with that teacher's priority and fixed lessons |
| PriorityScheduler.FixedScheduleTeachersOrder | src/utils/priorityScheduler.ts:182-185 | the filtered records stay in non-increasing priority, and a record is kept exactly when it carries fixed lessons |
| PriorityScheduler.PriorityRequireConfirmed | src/utils/priorityScheduler.ts:36-39 | requireConfirmed adds exactly 1000 |
| PriorityScheduler.PriorityNgDay | src/utils/priorityScheduler.ts:150-153 | each NG day adds 50 |
| PriorityScheduler.PriorityNgPeriod | src/utils/priorityScheduler.ts:150-153 | each NG period adds 30 |
| PriorityScheduler.PriorityNgDate | src/utils/priorityScheduler.ts:150-153 | each NG date adds 20 |
| PriorityScheduler.PriorityAvailableDays | src/utils/priorityScheduler.ts:155-161 | against no list, one or two available days add 200, three add 100, and an empty list or four or more add nothing |
| PriorityScheduler.PriorityUnconstrained | src/utils/priorityScheduler.ts:29-166 | a teacher without constraints and without the three special names gets 1000 with requireConfirmed and 0 otherwise |
| PriorityScheduler.ThursdayPairsContent | src/utils/priorityScheduler.ts:88-122 | the pairs of a week range are the 3限 and 4限 lessons of exactly the weeks not skipped for New Year's Day |
| PriorityScheduler.FixedLessonsPresent | src/utils/priorityScheduler.ts:42-171 | a record carries fixed lessons exactly when the teacher has a fixed array and is 鈴木俊良, 田上寛美 or 孫寧平 |
| PriorityScheduler.LessonBlocksOwnPeriod | src/utils/priorityScheduler.ts:200-208 | a lesson fixed at a period blocks that period of its week and day |
| PriorityScheduler.SuzukiPeriods | src/utils/priorityScheduler.ts:48-67 | 鈴木俊良's lessons are at 1限, 3限 or 4限 |
| PriorityScheduler.SunPeriods | src/utils/priorityScheduler.ts:86-123 | 孫寧平's lessons are at 3限 or 4限 |
| PriorityScheduler.FixedLessonPeriods | src/utils/priorityScheduler.ts:42-126 | every collected fixed lesson is at 1限, 3限 or 4限 |
| PriorityScheduler.FixedLessonBlocksOwnSlot | src/utils/priorityScheduler.ts:42-126 | every collected fixed lesson blocks its own slot |
| PriorityScheduler.OwnSlotConflicts | src/utils/priorityScheduler.ts:190-217 | a slot that a fixed lesson of one of the records occupies is reported as a conflict |
| PriorityScheduler.WholeDayBlocks | src/utils/priorityScheduler.ts:209-212 | a lesson with no period, or an empty one, blocks every period of its day |
| PriorityScheduler.SummaryPartsHeads | src/utils/priorityScheduler.ts:225-247 | no summary part starts with the first character of 制約なし |
| PriorityScheduler.SummaryNoneIff | src/utils/priorityScheduler.ts:222-250 | the summary is 制約なし exactly when no constraint part applies |
| FionaMakeup.FindMondayCandidates | src/utils/fionaMondayMakeup.ts:118-160 | week by week, the Mondays that are not holidays, not excluded dates, not 12/22, not 1/26 onwards in January and not 2/1 to 2/6 |
| FionaMakeup.CandidatesFacts | src/utils/fionaMondayMakeup.ts:132-157 | the candidates are Mondays of weeks 1 to the last week with their own dates, in strictly ascending week order, and pairwise distinct when the Mondays are |
| FionaMakeup.PlanOf | src/utils/fionaMondayMakeup.ts:53-105 | the k-th session of the plan is on the k-th candidate: the third at 4限 for 90 minutes, every other one at 3限 for 75 minutes |
| FionaMakeup.FillFrom | src/utils/fionaMondayMakeup.ts:88-105 | the top-up uses at least as many candidates as it starts from and no more than exist |
| FionaMakeup.PlannedCount | src/utils/fionaMondayMakeup.ts:53-105 | the plan never uses more candidates than exist |
| FionaMakeup.PlanDateOf | src/utils/fionaMondayMakeup.ts:74-91 | a candidate's date has a session exactly when the candidate is among those used, and a 3限 one unless it is the third |
| FionaMakeup.AssignThirdPeriods | src/utils/fionaMondayMakeup.ts:53-66 | the first loop gives 3限 sessions to the first two candidates, or to all when fewer exist |
| FionaMakeup.AssignFourthPeriod | src/utils/fionaMondayMakeup.ts:68-85 | the second loop gives 4限 to the first candidate without a 3限 session, which is the third |
| FionaMakeup.TopUpPass | src/utils/fionaMondayMakeup.ts:89-104 | one pass adds 3限 sessions on unused candidates in order until the total suffices or the candidates run out |
| FionaMakeup.TopUp | src/utils/fionaMondayMakeup.ts:88-105 | the top-up loop ends at the planned count |
| FionaMakeup.PlannedCountIs | src/utils/fionaMondayMakeup.ts:88-105 | the count the loops stop at is the planned count |
| FionaMakeup.FillFromFacts | src/utils/fionaMondayMakeup.ts:88-105 | the top-up stops at the first count whose minutes reach the need, or when the candidates run out |
| FionaMakeup.PlanWeeksAscend | src/utils/fionaMondayMakeup.ts:109 | the sessions are already in week order, so the closing sort by week keeps them as they are |
| FionaMakeup.GenerateMakeupPlan | src/utils/fionaMondayMakeup.ts:32-113 | the plan needs 15 minutes per week, holds the sessions of the planned candidates with their total, and is complete exactly when the total reaches the need |
| FionaMakeup.PlannedCountFacts | src/utils/fionaMondayMakeup.ts:53-105 | every Monday is used up to two, then a third for the 4限, then as many more as the minutes need; fewer only when the candidates ran out |
| FionaMakeup.PlanTight | src/utils/fionaMondayMakeup.ts:88-104 | beyond the first three sessions the plan never overshoots the need by a whole 75-minute session |
| FionaMakeup.PerfectPlan | src/utils/fionaMondayMakeup.ts:53-85 | with three Mondays and at most 240 minutes to make up, the plan is exactly 3限, 3限, 4限 on the first three Mondays, 240 minutes in all |
| FionaMakeup.PlanTotal | src/utils/fionaMondayMakeup.ts:64-101 | the running total is the sum of the sessions' minutes |
| FionaMakeup.PlanSessions | src/utils/fionaMondayMakeup.ts:53-105 | at most one 4限 session, the third; no two sessions share a Monday; each is on its candidate's date and week |
| FionaMakeup.SessionLines | src/utils/fionaMondayMakeup.ts:179-182 | one line per session, in order |
| FionaMakeup.PushSessionLines | src/utils/fionaMondayMakeup.ts:179-182 | the loop appends exactly those lines |
| FionaMakeup.FormatMakeupPlan | src/utils/fionaMondayMakeup.ts:165-197 | the text is the header, the session lines and the notes, joined with line breaks |
| FionaMakeup.BodyOpensNoNote | src/utils/fionaMondayMakeup.ts:168-182 | no header or session line can be mistaken for a note |
| FionaMakeup.FormatNotes | src/utils/fionaMondayMakeup.ts:184-194 | the perfect-plan line appears exactly when the total is 240 minutes, and the advice line exactly when the plan is incomplete, after the shortage line |
| ComboPlacement.FindSubject | src/utils/testComboPlacement.ts:35 | the subject found has the entry's id and is one of the subjects; nothing is found exactly when no subject has that id |
| ComboPlacement.BucketIndex | src/utils/testComboPlacement.ts:27 | the slot-map lookup finds a bucket of that slot, and finds none exactly when no bucket has it |
| ComboPlacement.GroupBySlot | src/utils/testComboPlacement.ts:23-30 | the loop builds the slot map of the group's entries |
| ComboPlacement.SlotMapExact | src/utils/testComboPlacement.ts:23-30 | the slot map has one bucket per distinct slot, every bucket holds exactly the entries of its slot, in their order and with their repeats, and every entry's slot has a bucket |
| ComboPlacement.PairSubjectId | src/utils/testComboPlacement.ts:39-41 | the partner id looked up by role belongs to a subject of the same combo pair |
| ComboPlacement.ComboSubject | src/utils/testComboPlacement.ts:35-36 | an entry is a combo entry only when its subject exists and has a non-empty comboPairId |
| ComboPlacement.CheckSlotPairs | src/utils/testComboPlacement.ts:34-52 | the loop over one slot's entries appends exactly that slot's missing-pair messages to the issues |
| ComboPlacement.CheckGroupPairs | src/utils/testComboPlacement.ts:23-53 | one group's pass appends the missing-pair messages of every bucket of its slot map |
| ComboPlacement.PartnerSubject | src/utils/testComboPlacement.ts:77-79 | the partner found has the same comboPairId and another id; none is found exactly when no such subject exists |
| ComboPlacement.SameSlot | src/utils/testComboPlacement.ts:63-67 | the filter keeps exactly the group's entries at the entry's week, day and period |
| ComboPlacement.CheckEntryOrphan | src/utils/testComboPlacement.ts:59-86 | one entry of the orphan pass contributes exactly its orphan message, if any |
| ComboPlacement.CheckGroupOrphans | src/utils/testComboPlacement.ts:58-87 | one group's orphan pass appends the orphan messages of its entries in order |
| ComboPlacement.Dedupe | src/utils/testComboPlacement.ts:92 | the de-duplicated issues hold the same messages, each exactly once |
| ComboPlacement.CheckAllPairs | src/utils/testComboPlacement.ts:21-54 | the first pass over every group collects all missing-pair messages |
| ComboPlacement.CheckAllOrphans | src/utils/testComboPlacement.ts:57-88 | the second pass over every group appends all orphan messages |
| ComboPlacement.ValidateComboPlacement | src/utils/testComboPlacement.ts:4-94 | isValid holds exactly when neither pass reports anything, and the issues are both passes' messages without duplicates |
| ComboPlacement.HasSubjectEntryIff | src/utils/testComboPlacement.ts:44 | the pair-entry search succeeds exactly when some entry of the slot has the partner's id |
| ComboPlacement.HasPartnerEntryIff | src/utils/testComboPlacement.ts:69-74 | hasPartner holds exactly when an entry at the same slot has a subject of the same pair with another id |
| ComboPlacement.SameSlotPartner | src/utils/testComboPlacement.ts:63-74 | searching the filtered entries equals searching all the group's entries at that slot |
| ComboPlacement.BucketPairIssue | src/utils/testComboPlacement.ts:43-50 | inside a bucket, an entry is reported exactly when no entry of its slot in the whole group carries the partner subject |
| ComboPlacement.GroupPairIssuesMembers | src/utils/testComboPlacement.ts:23-53 | a message is among a group's pair issues exactly when it is the message of an entry whose partner is missing from its slot |
| ComboPlacement.GroupPairIssuesSound | src/utils/testComboPlacement.ts:33-53 | every pair issue of a group names an entry whose partner really is missing |
| ComboPlacement.GroupPairIssuesComplete | src/utils/testComboPlacement.ts:33-53 | every entry whose partner is missing is reported |
| ComboPlacement.OrphanIssueMeaning | src/utils/testComboPlacement.ts:69-86 | an entry gets an orphan message exactly when no partner entry shares its slot while a partner subject exists |
| ComboPlacement.PairIssuesMeaning | src/utils/testComboPlacement.ts:21-54 | a message is a pair issue of the schedule exactly when some group has an entry with a missing partner and that message |
| ComboPlacement.OrphanIssuesMeaning | src/utils/testComboPlacement.ts:57-88 | a message is an orphan issue exactly when some entry of some group produces it |
| ComboPlacement.ValidIff | src/utils/testComboPlacement.ts:90-91 | the schedule is valid exactly when no entry of any group misses its partner or is orphaned |
| ComboPlacement.NonComboSilent | src/utils/testComboPlacement.ts:36-60 | an entry whose subject has no comboPairId is never reported |
| ComboPlacement.ComboEntries | src/utils/testComboPlacement.ts:121-124 | keeps exactly the slot's entries whose subject has a comboPairId |
| ComboPlacement.CountSlot | src/utils/testComboPlacement.ts:121-144 | one slot adds its counts to the counters |
| ComboPlacement.CountGroup | src/utils/testComboPlacement.ts:111-145 | one group adds the counts of every slot of its slot map |
| ComboPlacement.GetComboStatistics | src/utils/testComboPlacement.ts:97-155 | the statistics are the raw counts over all groups, each halved except incorrectPlacements |
| ComboPlacement.BucketsBalanced | src/utils/testComboPlacement.ts:126-144 | every counted slot is correct or incorrect, and Thursday 1限/2限 pairs are among the correct ones |
| ComboPlacement.StatisticsBalance | src/utils/testComboPlacement.ts:148-154 | totalComboPairs equals correctPlacements plus half of incorrectPlacements, and the Thursday counts do not exceed correctPlacements |
| ComboPlacement.BucketCountsMeaning | src/utils/testComboPlacement.ts:126-144 | a slot counts as one correct placement exactly when it holds two combo entries of one pair, and as one incorrect exactly when it holds a single combo entry |
| ExportHelpers.CellText | src/utils/exportHelpers.ts:67-72 | a cell with no entry is the empty string |
| ExportHelpers.CellTextEmpty | src/utils/exportHelpers.ts:67-72 | a cell is empty exactly when the lookup finds nothing (a filled cell holds two line breaks) |
| ExportHelpers.CellTextSplits | src/utils/exportHelpers.ts:69 | a filled cell splits at its line breaks back into subject, teacher and classroom, when none of them holds a line break |
| ExportHelpers.CreateTimetableMatrix | src/utils/exportHelpers.ts:52-78 | 1 + periods rows; the header is '' and the days; row i+1 is period i followed by one cell per day, each the cell text of the lookup for that day and period |
| ExportHelpers.SubjectTypeColor | src/utils/exportHelpers.ts:128-133 | orange exactly when the name contains [合同]; blue exactly when it does not but contains [共通]; pink exactly when it contains neither but [コンビ]; white exactly when it contains none |
| ExportHelpers.UntaggedIsWhite | src/utils/exportHelpers.ts:132 | a name without any '[' is white |
| ExportHelpers.TaggedColor | src/utils/exportHelpers.ts:129-131 | an untagged name with [合同], [共通] or [コンビ] appended is orange, blue or pink respectively |
| ExportHelpers.OnlyBracketAtEnd | src/utils/exportHelpers.ts:129-131 | a tag appended to an untagged name is the only tag of its length found in it, so the tags do not shadow one another |
| BasicSettings.SortDates | src/components/BasicSettings.tsx:98 | sorting the holiday list rearranges it without adding or losing a date |
| BasicSettings.SortDatesSorted | src/components/BasicSettings.tsx:98-117 | the sorted list is in code-unit order of the date strings |
| BasicSettings.AddHolidaySpec | src/components/BasicSettings.tsx:96-102 | an empty or already listed date changes nothing; another date is added exactly once and the list is sorted; a sorted repeat-free list stays so |
| BasicSettings.RemoveHolidaySpec | src/components/BasicSettings.tsx:104-107 | the date is gone, every other date keeps its number of occurrences, an unlisted date changes nothing, and a sorted repeat-free list stays so |
| BasicSettings.RemoveUndoesAdd | src/components/BasicSettings.tsx:96-107 | on a sorted repeat-free list, removing a date just added gives back the list without that date, and the old list when the date was new |
| BasicSettings.AddRemoveMember | src/components/BasicSettings.tsx:96-107 | adding then removing a new date leaves exactly the old dates |
| BasicSettings.OrderedDatesUnique | src/components/BasicSettings.tsx:98-117 | two sorted repeat-free holiday lists with the same dates are equal, so the result of the handlers is determined by its dates |
| BasicSettings.AddDefaultsMember | src/components/BasicSettings.tsx:109-120 | after adding the term's holidays, a date is listed exactly when it was listed before or is a holiday of the term |
| BasicSettings.AddDefaultsSpec | src/components/BasicSettings.tsx:109-120 | the dates are the old ones and the term's; nothing new leaves the list as it is; otherwise it is sorted; a sorted repeat-free list stays so |
| BasicSettings.AddDefaultsDistinct | src/components/BasicSettings.tsx:114-117 | adding the term's holidays to a repeat-free list introduces no repeat |
| BasicSettings.PeriodLabelOrder | src/components/BasicSettings.tsx:173 | sorting the labels 1限..4限 as strings orders them as PERIODS |
| BasicSettings.PeriodLabelTotalPreorder | src/components/BasicSettings.tsx:173 | the label order is total, transitive and antisymmetric on periods |
| BasicSettings.TogglePeriodSpec | src/components/BasicSettings.tsx:169-175 | toggling flips the membership of the toggled period, leaves every other period's, and keeps an ordered selection ordered |
| BasicSettings.ToggleTwice | src/components/BasicSettings.tsx:169-175 | toggling the same period twice restores an ordered selection |
| BasicSettings.GenerateDescription | src/components/BasicSettings.tsx:153-167 | each request kind's description ends with its own fixed suffix |
| BasicSettings.NoDotInLabels | src/components/BasicSettings.tsx:154 | no period label contains the separator '・' |
| BasicSettings.DescriptionNamesPeriods | src/components/BasicSettings.tsx:153-167 | the periods can be read back from the description: for the list kinds, the text before the suffix split at '・' is the labels in selection order; for start-from and end-until, its first two characters are the first or last label |
| BasicSettings.ListTextSplits | src/components/BasicSettings.tsx:154 | the joined labels split back at '・' into the labels |
| BasicSettings.AddRequestTo | src/components/BasicSettings.tsx:123-138 | without a date or periods the list is unchanged; otherwise one request is appended with the form's date, kind and periods and the given description or, when empty, the generated one |
| BasicSettings.RemoveRequestSpec | src/components/BasicSettings.tsx:147-151 | no request with the id remains, every other request keeps its number of occurrences, and an unused id changes nothing |
| BasicSettings.RemoveUndoesAddRequest | src/components/BasicSettings.tsx:123-151 | removing a request by the fresh id it was added under gives the old list back |
| BasicSettings.SettingsForm.constructor | src/components/BasicSettings.tsx:44-53 | the form opens with the saved lists, an empty holiday field, and a request form of kind periods-only with 1限 selected |
| BasicSettings.SettingsForm.AddHoliday | src/components/BasicSettings.tsx:96-102 | the holidays become the added list and the field is cleared exactly when the date was taken; nothing else changes |
| BasicSettings.SettingsForm.RemoveHoliday | src/components/BasicSettings.tsx:104-107 | the holidays lose the date; nothing else changes |
| BasicSettings.SettingsForm.AddDefaultHolidays | src/components/BasicSettings.tsx:109-120 | the term's missing holidays are added; nothing else changes |
| BasicSettings.SettingsForm.AddScheduleRequest | src/components/BasicSettings.tsx:123-145 | the request list gains the described request and the form is reset to periods-only and 1限, or nothing changes without a date or periods |
| BasicSettings.SettingsForm.RemoveScheduleRequest | src/components/BasicSettings.tsx:147-151 | the requests with the id are removed; nothing else changes |
| BasicSettings.SettingsForm.TogglePeriodSelection | src/components/BasicSettings.tsx:169-175 | the selection is toggled; nothing else changes |
| App.ListCompleteCount | src/App.tsx:108-144 | a non-empty list tab is complete exactly when the count of unnamed items the message reports is zero |
| App.CheckTabCompletion | src/App.tsx:106-133 | each list tab is complete exactly when it has an item and every item's name is non-blank after trimming; the basic settings exactly when the title is non-blank and both dates are set; allComplete exactly when all four are |
| App.MissingBasic | src/App.tsx:158-161 | the list of missing basic fields is empty exactly when the basic settings are complete |
| App.GenerationGate | src/App.tsx:140-167 | generation proceeds exactly when every tab is complete, and is refused otherwise |
| App.RefusalExplains | src/App.tsx:141-165 | a refusal lists one item per incomplete tab and at least one; a non-empty incomplete list reports at least one unnamed item; incomplete basic settings name at least one missing field |
| App.AddItem | src/App.tsx:342-354 | the new item is appended after the old ones |
| App.UpdateItem | src/App.tsx:343-356 | the list keeps its length and each item with the new item's id is replaced by it, the others stay |
| App.UpdateKeepsIds | src/App.tsx:343-356 | an update keeps every position's id, and an update whose id is not listed changes nothing |
| App.UpdateIdempotent | src/App.tsx:343-356 | updating twice with the same item is updating once |
| App.DeleteAfterUpdate | src/App.tsx:343-346 | deleting an id after updating it removes the same items as deleting it directly |
| App.DeleteUndoesAdd | src/App.tsx:342-346 | deleting a freshly added item's id when no other item had it gives the list back |
| App.DeleteSpec | src/App.tsx:345-358 | after a delete no item has the id, and every item of another id keeps its number of copies |
| App.GroupRecordFor | src/App.tsx:193-208 | the department is IT exactly when the id contains "it", the grade 1年 exactly when it contains "1", the status complete, the schedule the group's, and the name the known display name or the id |
| App.KnownGroupsConsistent | src/App.tsx:194-204 | for it-1, it-2, design-1 and design-2 the derived department and grade agree with the display name |
| App.BuildGroups | src/App.tsx:193-237 | the groups object has exactly the generated group ids, each with its record, and the reported total is the number of entries of all schedules |
| ConsistencyChecker.Tagged | src/components/ConsistencyChecker.tsx:57-60 | the entries visited so far in a group, each paired with that group's id |
| ConsistencyChecker.CollectComboSlots | src/components/ConsistencyChecker.tsx:55-87 | the first pass builds exactly the slot map of the combo entries of all groups and the joint-classroom errors in visiting order |
| ConsistencyChecker.ComboUsesAt | src/components/ConsistencyChecker.tsx:65-71 | a (subject, group) use is recorded under a slot exactly when some visited combo entry at that slot has it |
| ConsistencyChecker.ComboSlotsExact | src/components/ConsistencyChecker.tsx:55-71 | the slot map has distinct keys, every combo entry's use is in the bucket of its slot whatever its group, and every recorded use comes from such an entry |
| ConsistencyChecker.JointProblemsCount | src/components/ConsistencyChecker.tsx:73-85 | there is one joint-classroom error per joint all-grade entry outside its fixed classroom |
| ConsistencyChecker.JointProblemsNameEntries | src/components/ConsistencyChecker.tsx:76-83 | each joint-classroom error carries the subject name, week, day, period and group of a misplaced entry |
| ConsistencyChecker.JointProblemsAreErrors | src/components/ConsistencyChecker.tsx:77 | joint-classroom problems are errors |
| ConsistencyChecker.PairKvs | src/components/ConsistencyChecker.tsx:100-105 | each combo subject of the slot is pushed under its pair id, in subject-list order |
| ConsistencyChecker.PairProblems | src/components/ConsistencyChecker.tsx:107-122 | at most one error per pair id of the slot, each an error without a group |
| ConsistencyChecker.SlotProblems | src/components/ConsistencyChecker.tsx:90-123 | the second pass reports errors only |
| ConsistencyChecker.GroupPairs | src/components/ConsistencyChecker.tsx:99-105 | the loop builds the grouping of the slot's combo subjects by pair id |
| ConsistencyChecker.CheckSlotPairs | src/components/ConsistencyChecker.tsx:107-122 | one slot's loop reports the one-half errors of its pairs, in pair order |
| ConsistencyChecker.CheckComboPairs | src/components/ConsistencyChecker.tsx:90-123 | the loop over the slot map reports the one-half errors of every slot in order |
| ConsistencyChecker.PairValues | src/components/ConsistencyChecker.tsx:100-105 | a pair id collects one id per subject pushed with that pair id, and only ids of those subjects |
| ConsistencyChecker.PairKeyPresent | src/components/ConsistencyChecker.tsx:95-97 | every pair id met in a slot is the non-empty pair id of a listed subject that occurs there |
| ConsistencyChecker.FoundAll | src/components/ConsistencyChecker.tsx:108 | every id collected for a pair occurs in the slot, so the found filter keeps them all |
| ConsistencyChecker.PairCount | src/components/ConsistencyChecker.tsx:95-105 | a pair id collects as many ids as there are listed subjects of that pair in the slot |
| ConsistencyChecker.PairErrorIff | src/components/ConsistencyChecker.tsx:107-109 | a pair of a slot is reported exactly when exactly one listed subject of that pair occurs in the slot |
| ConsistencyChecker.SuzukiProblems | src/components/ConsistencyChecker.tsx:125-158 | the fixed-schedule check reports at most two problems, both errors |
| ConsistencyChecker.CollectTeacherKeys | src/components/ConsistencyChecker.tsx:129-139 | the loop collects exactly the slot keys of the teacher's entries across all groups |
| ConsistencyChecker.AddGroupKeys | src/components/ConsistencyChecker.tsx:133-138 | the inner loop adds exactly the slot keys of the teacher's entries in one group to the keys found so far |
| ConsistencyChecker.TeacherKeysSlots | src/components/ConsistencyChecker.tsx:134-136 | every collected key is the slot key of one of the teacher's entries |
| ConsistencyChecker.CheckSuzuki | src/components/ConsistencyChecker.tsx:125-158 | the fixed-schedule check's errors are those of its specification |
| ConsistencyChecker.NoDashInNat | src/components/ConsistencyChecker.tsx:66 | a week number renders without '-' |
| ConsistencyChecker.DashNeverBefore15 | src/components/ConsistencyChecker.tsx:135-142 | inside a slot key, no '-' is followed by "15" |
| ConsistencyChecker.Jan19NeverFound | src/components/ConsistencyChecker.tsx:142-145 | no slot key contains '15-月-14-15', since period labels are 1限..4限 |
| ConsistencyChecker.Jan19AlwaysReported | src/components/ConsistencyChecker.tsx:126-150 | whenever the teacher exists and requires confirmation, the 1/19 error is reported first, whatever the schedule |
| ConsistencyChecker.Jan21FoundAtWeek15 | src/components/ConsistencyChecker.tsx:143-152 | an entry of the teacher in week 15 on Wednesday 1限 satisfies the 1/21 check |
| ConsistencyChecker.ConfirmationWarning | src/components/ConsistencyChecker.tsx:162-177 | at most one warning per name; none exactly when the teacher is unknown, has no constraints, or has a confirmed day; otherwise the all-empty text when ng and wish are empty too, else the missing-confirmed text |
| ConsistencyChecker.ConfirmationWarnings | src/components/ConsistencyChecker.tsx:161-178 | at most one warning per listed name, all of them warnings |
| ConsistencyChecker.CheckConfirmations | src/components/ConsistencyChecker.tsx:161-178 | the loop over the six listed names yields the confirmation warnings |
| ConsistencyChecker.Problems | src/components/ConsistencyChecker.tsx:44-52 | without timetable data, or without groups, the only problem is the no-data error |
| ConsistencyChecker.CheckConsistency | src/components/ConsistencyChecker.tsx:41-182 | the reported problems are joint, combo-pair, fixed-schedule and confirmation problems in that order |
| ConsistencyChecker.CountsPartition | src/components/ConsistencyChecker.tsx:184-185 | every problem is counted once, as an error or as a warning |
| ConsistencyChecker.SeverityCounts | src/components/ConsistencyChecker.tsx:184-185 | with data present, the warnings are exactly the confirmation warnings and every other problem is an error |
| ConsistencyChecker.DigitsValueNat | src/components/ConsistencyChecker.tsx:117 | parsing the decimal rendering of a week gives the week back |
| ConsistencyChecker.SlotKeySplit | src/components/ConsistencyChecker.tsx:66-91 | splitting a slot key at '-' gives its week, day and period |
| ConsistencyChecker.PairProblemAtSlot | src/components/ConsistencyChecker.tsx:114-120 | a one-half error carries the slot's own week, day and period |
| SemesterTimetable.GroupIndex | src/components/SemesterTimetable.tsx:324 | the lookup `groups[activeTab]` finds the first group stored under the key, and finds none exactly when no group has it |
| SemesterTimetable.WithScheduleSpec | src/components/SemesterTimetable.tsx:441-444 | replacing the active group's schedule keeps every key in place, is read back, and leaves every other group as it was |
| SemesterTimetable.GroupIndexSameKeys | src/components/SemesterTimetable.tsx:441-444 | after a schedule replacement every key is still found at the same position |
| SemesterTimetable.JapaneseDay | src/components/SemesterTimetable.tsx:270-275 | the reverse map turns each English day name into its Japanese label |
| SemesterTimetable.CountTeacherWeeklyClasses | src/components/SemesterTimetable.tsx:450-459 | the count never exceeds the active group's entries |
| SemesterTimetable.CountExcludesTarget | src/components/SemesterTimetable.tsx:454-458 | the count plus the teacher's entries at the target day and period is the teacher's entries of the target week |
| SemesterTimetable.CountIgnoresTargetCell | src/components/SemesterTimetable.tsx:457 | an entry already at the target cell does not change the count |
| SemesterTimetable.ComboConflict | src/components/SemesterTimetable.tsx:461-491 | no conflict exactly when no group conflicts; otherwise the name of the first conflicting group in key order |
| SemesterTimetable.GroupConflictsIff | src/components/SemesterTimetable.tsx:469-480 | a group conflicts exactly when it is not the active one and holds, at the target cell, the same lesson or its Essential English/ビジネス日本語 partner |
| SemesterTimetable.FindComboConflict | src/components/SemesterTimetable.tsx:468-490 | the loop returns the first conflicting group's name, or none |
| SemesterTimetable.TeacherRejectionNone | src/components/SemesterTimetable.tsx:254-319 | the teacher checks let a move through exactly when the unavailable days, available days, Fiona, Morita and Kinoshita rules all allow it |
| SemesterTimetable.RoomRejectionNone | src/components/SemesterTimetable.tsx:324-330 | no conflicting entry is found exactly when no other entry of the active group uses the classroom at the target |
| SemesterTimetable.ClassroomRejectionNone | src/components/SemesterTimetable.tsx:322-336 | the classroom check passes exactly when the classroom is unknown or free at the target |
| SemesterTimetable.ComboConflictNone | src/components/SemesterTimetable.tsx:344-348 | the cross-group check passes exactly when no other group holds the lesson at the target |
| SemesterTimetable.PairRejectionNone | src/components/SemesterTimetable.tsx:350-382 | the pair check passes exactly when there is no partner entry, its subject or classroom is unknown, or its classroom is free at the target |
| SemesterTimetable.DropAcceptedIff | src/components/SemesterTimetable.tsx:250-448 | a drop is carried out exactly when the teacher, classroom, cross-group and pair checks all allow it |
| SemesterTimetable.ClassroomConflictReported | src/components/SemesterTimetable.tsx:322-336 | once the teacher allows the move, a classroom taken at the target is refused with the name of the first entry using it |
| SemesterTimetable.ComboConflictReported | src/components/SemesterTimetable.tsx:339-348 | once teacher and classroom allow a combo move, the first other group holding the lesson at the target is named in the refusal |
| SemesterTimetable.MoveTo | src/components/SemesterTimetable.tsx:397-409 | the moved entry sits at the target cell and keeps its id, date, subject, teacher, classroom and name |
| SemesterTimetable.MoveId | src/components/SemesterTimetable.tsx:397-409 | the schedule keeps its length |
| SemesterTimetable.MoveIdIdempotent | src/components/SemesterTimetable.tsx:397-409 | moving the same id to the same cell twice is moving it once |
| SemesterTimetable.MoveIdBack | src/components/SemesterTimetable.tsx:397-409 | moving an id's entries to another cell and back restores the schedule when they all started at the same cell |
| SemesterTimetable.MovedScheduleSpec | src/components/SemesterTimetable.tsx:394-439 | after a drop only the dragged entry and its partner change, and only their cell; length, order and all other entries stay |
| SemesterTimetable.PairEntrySpec | src/components/SemesterTimetable.tsx:412-422 | the partner that moves along is an entry of the subject's comboSubjectId at the dragged entry's old cell, and only for a combo entry |
| SemesterTimetable.Placeholder | src/components/SemesterTimetable.tsx:495-509 | the placeholder sits at the clicked week, day and period |
| SemesterTimetable.PlaceholderFillsCell | src/components/SemesterTimetable.tsx:511-520 | adding puts exactly one more entry into the target cell and none into any other cell |
| SemesterTimetable.WeekDayTotalPreorder | src/components/SemesterTimetable.tsx:688-694 | the progress sort's week-then-day order is a total preorder |
| SemesterTimetable.ProgressCurrent | src/components/SemesterTimetable.tsx:685-708 | current is the 1-based position of the entry among its subject's entries ordered by week and day: every earlier one is another entry not after it, every later one not before it |
| SemesterTimetable.SameCourseEntriesMembers | src/components/SemesterTimetable.tsx:686-687 | the progress list holds exactly the schedule's entries with the same subject name and teacher name |
| SemesterTimetable.StatusMap | src/components/SemesterTimetable.tsx:237-240 | the status map has exactly the group keys |
| SemesterTimetable.Screen.constructor | src/components/SemesterTimetable.tsx:212-214 | the screen starts with no data, the it-1 tab and no statuses |
| SemesterTimetable.Screen.Load | src/components/SemesterTimetable.tsx:216-248 | the loaded semester is stored and every group's status is copied, key by key; the tab stays |
| SemesterTimetable.Screen.HandleDrop | src/components/SemesterTimetable.tsx:250-448 | the error is the first broken rule; on success the active group's schedule becomes the moved schedule and nothing else changes; on an error nothing changes |
| SemesterTimetable.Screen.HandleAddEntry | src/components/SemesterTimetable.tsx:493-530 | the placeholder is appended to the active group and that group is marked incomplete; without data nothing changes |

## Left out

- JavaScript `Date` arithmetic and time zones are not modelled. This covers calculateDate, calculateWeeks, generateTimeSlots' date stepping, the Monday stepping of findMondayCandidates, the year and date loops of holidayCalculator.ts and priorityScheduler.ts, and `toISOString`. Dates are ISO strings. The calendar is a parameter: `dateOf` of the AutoScheduleGenerator, `dateAt` and `inWeekOf` of the TimetableGenerator, `mondayOf` of the make-up planner, and weekday inputs of the holiday functions.
- The floating-point equinox formulas (calculateSpringEquinox, calculateAutumnEquinox) are not modelled, because they are floating point. The equinox days are inputs.
- `Math.random()` is not modelled. The early-finish draw of shouldPrioritizeEarlyFinish is the function parameter `draw`.
- `Date.now()`/`Math.random()` entry and request ids are not modelled. They are parameters (`id`, `now`) or a counter (`issued`).
- FionaMakeup.GenerateMakeupPlan: requires that the Mondays of distinct weeks have distinct dates (`DistinctMondays`). Real calendars guarantee this, but the parameter `mondayOf` could break it, and the source's top-up loop then never ends.
- AutoSchedule.AutoScheduleGenerator.ScheduleSubject: the number of sessions placed for a subject is not bounded by its total. The consecutive attempt always asks for two sessions, so an odd total can be passed by one.
- The `Map` and object iteration order is modelled as insertion order in a sequence of pairs. Tuple keys replace the slot-key strings except where the text is read back.
- The mock data (src/data/mockData.ts) is not part of this model. `mockSubjects` and the other lists are parameters.
- The 41-entry classroom table of fix_classrooms.py is a parameter of `FixClassrooms.FixClassrooms`. Reading and writing the file and the console lines are left out.
- Regular expressions are not modelled as an engine. The one pattern of each source (fix_classrooms.py:79 and the patterns of subjectNameNormalizer.ts) is modelled as string searches.
- Python's `repr` escaping inside `str(classroom_ids)` is left out. The list rendering assumes ids without quotes or backslashes.
- Idempotence of the whole classroom table is left out. Only idempotence for one entry is proved: a key's new list could in principle be matched again by an earlier key's pattern.
- `parseInt` is modelled only on the digit pieces of a slot key, the only text it receives there.
- `fixedSchedule` in ConsistencyChecker.tsx is read but never used, so it is not modelled.
- Console logging and alerts are left out, including reportNormalizationStatus. The refusal alert of App.tsx is modelled as its list of items.
- Excel and PDF generation, browser downloads, localStorage, `fetch`, the 3-second delay, and the parent callbacks of the components are left out as I/O. `SemesterTimetable.Screen.Load` takes the loaded data as an argument.
- The generator call inside handleGenerateTimetable is left out of `App`. Its result is the input of `App.BuildGroups`, and the generator itself is `AutoSchedule`.
- React state, re-rendering and asynchronous setters are left out. Each handler is one atomic update.
- SemesterTimetable's shallow copy `{ ...prev }` shares its `groups` object with the previous state. The model returns a new value instead, so that aliasing is not captured.
- A drop onto a holiday cell is refused by the cell (`canDrop`) before handleDrop runs. That is UI wiring and is left out.
- `SemesterTimetable.Screen.Valid` requires the active tab to name a loaded group. The source would throw on `groups[activeTab].schedule` for a missing tab, and that path is not modelled.
