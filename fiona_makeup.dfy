/**
 * Fiona's Monday make-up planner. Her Thursday classes start at 13:15, fifteen minutes
 * late, so each teaching week leaves fifteen minutes to make up on Mondays: two 3限
 * sessions of 75 minutes, one 4限 session of 90 minutes, and more 3限 sessions while the
 * total falls short.
 *
 * The Monday of week `w` is the parameter `mondayOf(w)`: its `toISOString` date and the
 * local month and day `getMonth`/`getDate` read.
 */
module FionaMakeup {
  import opened Wrappers
  import opened Strings
  import Sorting

  const SHORTAGE_PER_WEEK: int := 15
  const REGULAR_CLASS_MINUTES: int := 90
  const MONDAY_3RD_PERIOD_MINUTES: int := 75

  /** A Monday: its date string and its calendar month and day. */
  datatype CalendarDay = CalendarDay(date: string, month: int, day: int)

  datatype Candidate = Candidate(date: string, week: int)

  datatype MakeupSession = MakeupSession(date: string, period: string, minutes: int, week: int)

  datatype FionaMakeupPlan = FionaMakeupPlan(requiredMinutes: int, makeupSessions: seq<MakeupSession>, totalMakeupMinutes: int, isComplete: bool)

  /** The Mondays findMondayCandidates skips: holidays, excluded dates, 12/22, January 26 onwards, February 1-6. */
  predicate Excluded(d: CalendarDay, holidays: seq<string>, excludeDates: seq<string>)
  {
    d.date in holidays || d.date in excludeDates
    || (d.month == 12 && d.day == 22)
    || (d.month == 1 && d.day >= 26 && d.day <= 28)
    || (d.month == 1 && d.day >= 29)
    || (d.month == 2 && d.day <= 6)
  }

  /** The candidate Mondays among weeks 1..w, in week order. */
  function CandidatesUpTo(w: int, mondayOf: int -> CalendarDay, holidays: seq<string>, excludeDates: seq<string>): seq<Candidate>
    decreases w
  {
    if w < 1 then []
    else
      CandidatesUpTo(w - 1, mondayOf, holidays, excludeDates)
      + (if Excluded(mondayOf(w), holidays, excludeDates) then [] else [Candidate(mondayOf(w).date, w)])
  }

  /** findMondayCandidates: week by week, skipping the excluded Mondays. */
  method FindMondayCandidates(totalWeeks: int, mondayOf: int -> CalendarDay, holidays: seq<string>, excludeDates: seq<string>)
    returns (candidates: seq<Candidate>)
    ensures candidates == CandidatesUpTo(totalWeeks, mondayOf, holidays, excludeDates)
  {
    candidates := [];
    var week := 1;
    while week <= totalWeeks
      invariant 1 <= week && (week <= totalWeeks + 1 || week == 1)
      invariant candidates == CandidatesUpTo(week - 1, mondayOf, holidays, excludeDates)
    {
      var monday := mondayOf(week);
      if monday.date in holidays || monday.date in excludeDates {
        week := week + 1;
        continue;
      }
      if monday.month == 12 && monday.day == 22 {
        week := week + 1;
        continue;
      }
      if monday.month == 1 && monday.day >= 26 && monday.day <= 28 {
        week := week + 1;
        continue;
      }
      if monday.month == 1 && monday.day >= 29 {
        week := week + 1;
        continue;
      }
      if monday.month == 2 && monday.day <= 6 {
        week := week + 1;
        continue;
      }
      candidates := candidates + [Candidate(monday.date, week)];
      week := week + 1;
    }
  }

  /** The session the plan gives the `k`-th candidate: 4限 of 90 minutes for the third, 3限 of 75 minutes otherwise. */
  function SessionFor(c: Candidate, k: nat): MakeupSession
  {
    if k == 2 then MakeupSession(c.date, "4限", REGULAR_CLASS_MINUTES, c.week)
    else MakeupSession(c.date, "3限", MONDAY_3RD_PERIOD_MINUTES, c.week)
  }

  /** The sessions of the first `m` candidates. */
  function PlanOf(cands: seq<Candidate>, m: nat): (r: seq<MakeupSession>)
    requires m <= |cands|
    ensures |r| == m && forall k :: 0 <= k < m ==> r[k] == SessionFor(cands[k], k)
  {
    seq(m, k requires 0 <= k < m => SessionFor(cands[k], k))
  }

  /** The minutes of the sessions of the first `m` candidates. */
  function Minutes(m: nat): int
  {
    75 * m + (if m >= 3 then 15 else 0)
  }

  /** From `k` sessions on, one more 3限 each until the total reaches `required` or the candidates run out. */
  function FillFrom(n: nat, required: int, k: nat): (m: nat)
    requires k <= n
    ensures k <= m <= n
    decreases n - k
  {
    if k >= n || Minutes(k) >= required then k else FillFrom(n, required, k + 1)
  }

  /** How many candidates the plan uses. */
  function PlannedCount(n: nat, required: int): (m: nat)
    ensures m <= n
  {
    if n <= 2 then n else FillFrom(n, required, 3)
  }

  function Min(a: nat, b: nat): nat
  {
    if a <= b then a else b
  }

  /** Distinct weeks have distinct Mondays. */
  predicate DistinctMondays(totalWeeks: int, mondayOf: int -> CalendarDay)
  {
    forall w1, w2 :: 1 <= w1 < w2 <= totalWeeks ==> mondayOf(w1).date != mondayOf(w2).date
  }

  /** The candidates' weeks strictly ascend. */
  predicate CandidatesAscend(cands: seq<Candidate>)
  {
    forall i, j :: 0 <= i < j < |cands| ==> cands[i].week < cands[j].week
  }

  /** The candidates' dates are pairwise distinct. */
  predicate DistinctDates(cands: seq<Candidate>)
  {
    forall i, j :: 0 <= i < j < |cands| ==> cands[i].date != cands[j].date
  }

  /** `makeupSessions.some(s => s.date === date && (period is absent or s.period === period))`. */
  predicate HasSession(sessions: seq<MakeupSession>, date: string, period: Option<string>)
  {
    exists s :: s in sessions && s.date == date && (period.None? || s.period == period.value)
  }

  /** A session of the first `k` candidates is on the date of a candidate below `k`. */
  lemma PlanDateOf(cands: seq<Candidate>, k: nat, j: nat, period: Option<string>)
    requires k <= |cands| && j < |cands| && DistinctDates(cands)
    ensures HasSession(PlanOf(cands, k), cands[j].date, None) <==> j < k
    ensures j < k && j != 2 ==> HasSession(PlanOf(cands, k), cands[j].date, Some("3限"))
  {
    var plan := PlanOf(cands, k);
    if HasSession(plan, cands[j].date, None) {
      var s :| s in plan && s.date == cands[j].date;
      var i :| 0 <= i < k && plan[i] == s;
      assert cands[i].date == cands[j].date;
    }
    if j < k {
      assert plan[j] in plan;
    }
  }

  /** The first loop: a 3限 session for each of the first two candidates. */
  method AssignThirdPeriods(cands: seq<Candidate>) returns (sessions: seq<MakeupSession>, total: int)
    ensures sessions == PlanOf(cands, Min(2, |cands|)) && total == Minutes(Min(2, |cands|))
  {
    sessions := [];
    total := 0;
    var placed := 0;
    var i := 0;
    while i < |cands|
      invariant 0 <= i <= |cands| && placed == i <= 2
      invariant sessions == PlanOf(cands, i) && total == Minutes(i)
    {
      if placed >= 2 {
        break;
      }
      sessions := sessions + [MakeupSession(cands[i].date, "3限", MONDAY_3RD_PERIOD_MINUTES, cands[i].week)];
      total := total + MONDAY_3RD_PERIOD_MINUTES;
      placed := placed + 1;
      i := i + 1;
    }
  }

  /** The second loop: one 4限 session on the first candidate without a 3限 session. */
  method AssignFourthPeriod(cands: seq<Candidate>, sessions0: seq<MakeupSession>, total0: int)
    returns (sessions: seq<MakeupSession>, total: int)
    requires DistinctDates(cands)
    requires sessions0 == PlanOf(cands, Min(2, |cands|)) && total0 == Minutes(Min(2, |cands|))
    ensures sessions == PlanOf(cands, Min(3, |cands|)) && total == Minutes(Min(3, |cands|))
  {
    sessions, total := sessions0, total0;
    var placed := 0;
    var i := 0;
    while i < |cands|
      invariant 0 <= i <= |cands| && 0 <= placed <= 1
      invariant placed == 0 ==> i <= 2 && i <= |cands| && sessions == sessions0 && total == total0
      invariant placed == 1 ==> i == 3 && sessions == PlanOf(cands, 3) && total == Minutes(3)
    {
      if placed >= 1 {
        break;
      }
      PlanDateOf(cands, Min(2, |cands|), i, Some("3限"));
      var already3rd := exists s :: s in sessions && s.date == cands[i].date && s.period == "3限";
      if already3rd {
        i := i + 1;
        continue;
      }
      sessions := sessions + [MakeupSession(cands[i].date, "4限", REGULAR_CLASS_MINUTES, cands[i].week)];
      total := total + REGULAR_CLASS_MINUTES;
      placed := placed + 1;
      i := i + 1;
    }
  }

  /** One pass of the `for` loop inside the top-up `while`: a 3限 session on each unused candidate until the total suffices. */
  method TopUpPass(cands: seq<Candidate>, required: int, sessions0: seq<MakeupSession>, total0: int, ghost k0: nat)
    returns (sessions: seq<MakeupSession>, total: int, ghost k: nat)
    requires DistinctDates(cands) && 3 <= k0 < |cands|
    requires sessions0 == PlanOf(cands, k0) && total0 == Minutes(k0) && total0 < required
    ensures k0 < k <= |cands| && sessions == PlanOf(cands, k) && total == Minutes(k)
    ensures Minutes(k) >= required || k == |cands|
    ensures forall i :: k0 <= i < k ==> Minutes(i) < required
  {
    sessions, total, k := sessions0, total0, k0;
    var j := 0;
    while j < |cands|
      invariant 0 <= j <= |cands| && k0 <= k <= |cands| && (k == k0 || k == j) && j <= k
      invariant sessions == PlanOf(cands, k) && total == Minutes(k)
      invariant forall i :: k0 <= i < k ==> Minutes(i) < required
      invariant total < required
    {
      PlanDateOf(cands, k, j, None);
      var alreadyUsed := exists s :: s in sessions && s.date == cands[j].date;
      if alreadyUsed {
        j := j + 1;
        continue;
      }
      sessions := sessions + [MakeupSession(cands[j].date, "3限", MONDAY_3RD_PERIOD_MINUTES, cands[j].week)];
      total := total + MONDAY_3RD_PERIOD_MINUTES;
      k := k + 1;
      j := j + 1;
      if total >= required {
        break;
      }
    }
  }

  /** The top-up loop: passes while the total falls short and some candidate is unused. */
  method TopUp(cands: seq<Candidate>, required: int, sessions0: seq<MakeupSession>, total0: int)
    returns (sessions: seq<MakeupSession>, total: int)
    requires DistinctDates(cands)
    requires sessions0 == PlanOf(cands, Min(3, |cands|)) && total0 == Minutes(Min(3, |cands|))
    ensures sessions == PlanOf(cands, PlannedCount(|cands|, required)) && total == Minutes(PlannedCount(|cands|, required))
  {
    sessions, total := sessions0, total0;
    ghost var k := Min(3, |cands|);
    while total < required && |cands| > |sessions|
      invariant Min(3, |cands|) <= k <= |cands| && sessions == PlanOf(cands, k) && total == Minutes(k)
      invariant forall i :: Min(3, |cands|) <= i < k ==> Minutes(i) < required
      decreases |cands| - |sessions|
    {
      sessions, total, k := TopUpPass(cands, required, sessions, total, k);
    }
    PlannedCountIs(|cands|, required, k);
  }

  /** The count the loops stop at is the planned count. */
  lemma PlannedCountIs(n: nat, required: int, k: nat)
    requires Min(3, n) <= k <= n
    requires Minutes(k) >= required || k == n
    requires forall i :: Min(3, n) <= i < k ==> Minutes(i) < required
    ensures k == PlannedCount(n, required)
  {
    if n > 2 {
      FillFromStops(n, required, 3, k);
    }
  }

  lemma {:induction false} FillFromStops(n: nat, required: int, from: nat, k: nat)
    requires from <= k <= n
    requires Minutes(k) >= required || k == n
    requires forall i :: from <= i < k ==> Minutes(i) < required
    ensures FillFrom(n, required, from) == k
    decreases k - from
  {
    if from < k {
      FillFromStops(n, required, from + 1, k);
    }
  }

  /** The sessions' weeks ascend, since the candidates' weeks do. */
  lemma PlanWeeksAscend(cands: seq<Candidate>, m: nat)
    requires m <= |cands|
    requires CandidatesAscend(cands)
    ensures Sorting.SortedBy(PlanOf(cands, m), (a: MakeupSession, b: MakeupSession) => a.week <= b.week)
  {
  }

  /**
   * generateMakeupPlan: 15 minutes per week to make up, the candidate Mondays, the three
   * assignment loops, and the sessions sorted by week.
   */
  method GenerateMakeupPlan(totalWeeks: int, mondayOf: int -> CalendarDay, holidays: seq<string>, excludeDates: seq<string>)
    returns (plan: FionaMakeupPlan)
    requires DistinctMondays(totalWeeks, mondayOf)
    ensures var cands := CandidatesUpTo(totalWeeks, mondayOf, holidays, excludeDates);
      var m := PlannedCount(|cands|, SHORTAGE_PER_WEEK * totalWeeks);
      plan == FionaMakeupPlan(SHORTAGE_PER_WEEK * totalWeeks, PlanOf(cands, m), Minutes(m), Minutes(m) >= SHORTAGE_PER_WEEK * totalWeeks)
  {
    var requiredMinutes := SHORTAGE_PER_WEEK * totalWeeks;
    var cands := FindMondayCandidates(totalWeeks, mondayOf, holidays, excludeDates);
    CandidatesFacts(totalWeeks, mondayOf, holidays, excludeDates);
    var sessions, total := AssignThirdPeriods(cands);
    sessions, total := AssignFourthPeriod(cands, sessions, total);
    sessions, total := TopUp(cands, requiredMinutes, sessions, total);
    var le := (a: MakeupSession, b: MakeupSession) => a.week <= b.week;
    PlanWeeksAscend(cands, PlannedCount(|cands|, requiredMinutes));
    Sorting.SortBySortedIdentity(sessions, le);
    plan := FionaMakeupPlan(requiredMinutes, Sorting.SortBy(sessions, le), total, total >= requiredMinutes);
  }

  /** Candidates are the non-excluded Mondays of weeks 1..w, in ascending week order and with the Monday's date. */
  lemma {:induction false} CandidatesFacts(w: int, mondayOf: int -> CalendarDay, holidays: seq<string>, excludeDates: seq<string>)
    ensures CandidatesAscend(CandidatesUpTo(w, mondayOf, holidays, excludeDates))
    ensures forall c :: c in CandidatesUpTo(w, mondayOf, holidays, excludeDates) ==> 1 <= c.week <= w && c.date == mondayOf(c.week).date
    ensures DistinctMondays(w, mondayOf) ==> DistinctDates(CandidatesUpTo(w, mondayOf, holidays, excludeDates))
    decreases w
  {
    if w >= 1 {
      CandidatesFacts(w - 1, mondayOf, holidays, excludeDates);
      var prev := CandidatesUpTo(w - 1, mondayOf, holidays, excludeDates);
      assert forall i :: 0 <= i < |prev| ==> prev[i] in prev;
    }
  }

  /** The first `k` candidates use `k` of the `n` candidates, at least three once three exist, and all of them when two or fewer exist. */
  lemma {:induction false} FillFromFacts(n: nat, required: int, k: nat)
    requires k <= n
    ensures var m := FillFrom(n, required, k);
      (Minutes(m) >= required || m == n) && forall i :: k <= i < m ==> Minutes(i) < required
    decreases n - k
  {
    if !(k >= n || Minutes(k) >= required) {
      FillFromFacts(n, required, k + 1);
    }
  }

  /**
   * The planned count: every available Monday up to two, then a third (the 4限), then as
   * many more as the required minutes need; fewer than that only when the candidates run out.
   */
  lemma PlannedCountFacts(n: nat, required: int)
    ensures var m := PlannedCount(n, required);
      m == Min(n, m) && (n <= 2 ==> m == n) && (n >= 3 ==> m >= 3)
      && (Minutes(m) < required ==> m == n)
      && (forall i :: Min(3, n) <= i < m ==> Minutes(i) < required)
  {
    if n > 2 {
      FillFromFacts(n, required, 3);
    }
  }

  /** The plan never overshoots by a whole 75-minute session beyond the first three. */
  lemma PlanTight(n: nat, required: int)
    ensures var m := PlannedCount(n, required);
      m > 3 ==> Minutes(m) < required + MONDAY_3RD_PERIOD_MINUTES
  {
    PlannedCountFacts(n, required);
    var m := PlannedCount(n, required);
    if m > 3 {
      assert Minutes(m - 1) < required;
    }
  }

  /** With three Mondays available and at most 240 minutes to make up, the plan is exactly 3限, 3限, 4限. */
  lemma PerfectPlan(cands: seq<Candidate>, required: int)
    requires |cands| >= 3 && required <= 240
    ensures PlannedCount(|cands|, required) == 3 && Minutes(3) == 240
    ensures PlanOf(cands, 3) == [
      MakeupSession(cands[0].date, "3限", 75, cands[0].week),
      MakeupSession(cands[1].date, "3限", 75, cands[1].week),
      MakeupSession(cands[2].date, "4限", 90, cands[2].week)]
  {
  }

  function SumMinutes(sessions: seq<MakeupSession>): int
  {
    if sessions == [] then 0 else SumMinutes(sessions[..|sessions| - 1]) + sessions[|sessions| - 1].minutes
  }

  /** The plan's total is the sum of its sessions' minutes. */
  lemma {:induction false} PlanTotal(cands: seq<Candidate>, m: nat)
    requires m <= |cands|
    ensures SumMinutes(PlanOf(cands, m)) == Minutes(m)
  {
    if m > 0 {
      PlanTotal(cands, m - 1);
      assert PlanOf(cands, m)[..m - 1] == PlanOf(cands, m - 1);
    }
  }

  /** At most one 4限 session, the third; no two sessions share a Monday; each is on a candidate Monday. */
  lemma PlanSessions(cands: seq<Candidate>, m: nat)
    requires m <= |cands| && DistinctDates(cands)
    ensures var plan := PlanOf(cands, m);
      (forall k :: 0 <= k < m ==> (plan[k].period == "4限" <==> k == 2))
      && (forall i, j :: 0 <= i < j < m ==> plan[i].date != plan[j].date)
      && (forall k :: 0 <= k < m ==> plan[k].date == cands[k].date && plan[k].week == cands[k].week)
  {
  }

  const PERFECT_LINE: string := "✅ 完璧な補填計画: 3限×2回(150分) + 4限×1回(90分) = 240分"
  const ADVICE_LINE: string := "追加の月曜日確保が必要です。"

  function SessionLine(s: MakeupSession): string
  {
    "  第" + IntToString(s.week) + "週 " + s.date + "（月）" + s.period
    + (if s.period == "3限" then "（13:15開始）" else "") + ": " + IntToString(s.minutes) + "分"
  }

  function HeaderLines(plan: FionaMakeupPlan): seq<string>
  {
    ["【フィオーナ先生 月曜補填計画】", "", "＜背景＞", "木曜3限: 13:15開始のため、15分×16週 = 240分不足", "",
     "不足時間: " + IntToString(plan.requiredMinutes) + "分",
     "補填合計: " + IntToString(plan.totalMakeupMinutes) + "分",
     "状態: " + (if plan.isComplete then "✅ 補填完了" else "⚠️ 補填不足"),
     "", "補填授業:"]
  }

  function SessionLines(sessions: seq<MakeupSession>): (r: seq<string>)
    ensures |r| == |sessions| && forall k :: 0 <= k < |sessions| ==> r[k] == SessionLine(sessions[k])
  {
    seq(|sessions|, k requires 0 <= k < |sessions| => SessionLine(sessions[k]))
  }

  function ShortageLine(plan: FionaMakeupPlan): string
  {
    "⚠️ 不足分: " + IntToString(plan.requiredMinutes - plan.totalMakeupMinutes) + "分"
  }

  /** The lines formatMakeupPlan joins. */
  function FormatLines(plan: FionaMakeupPlan): seq<string>
  {
    HeaderLines(plan) + SessionLines(plan.makeupSessions)
    + (if plan.totalMakeupMinutes == 240 then ["", PERFECT_LINE] else [])
    + (if !plan.isComplete then ["", ShortageLine(plan), ADVICE_LINE] else [])
  }

  /** The `for` loop of formatMakeupPlan: one line per session. */
  method PushSessionLines(lines0: seq<string>, sessions: seq<MakeupSession>) returns (lines: seq<string>)
    ensures lines == lines0 + SessionLines(sessions)
  {
    lines := lines0;
    var i := 0;
    while i < |sessions|
      invariant 0 <= i <= |sessions|
      invariant lines == lines0 + SessionLines(sessions[..i])
    {
      lines := lines + [SessionLine(sessions[i])];
      assert sessions[..i + 1] == sessions[..i] + [sessions[i]];
      i := i + 1;
    }
    assert sessions[..i] == sessions;
  }

  /** formatMakeupPlan: the header, one line per session, then the perfect-plan and shortage notes. */
  method FormatMakeupPlan(plan: FionaMakeupPlan) returns (text: string)
    ensures text == Join(FormatLines(plan), "\n")
  {
    var lines := PushSessionLines(HeaderLines(plan), plan.makeupSessions);
    if plan.totalMakeupMinutes == 240 {
      lines := lines + [""];
      lines := lines + [PERFECT_LINE];
    }
    if !plan.isComplete {
      var shortage := plan.requiredMinutes - plan.totalMakeupMinutes;
      lines := lines + [""];
      lines := lines + ["⚠️ 不足分: " + IntToString(shortage) + "分"];
      lines := lines + [ADVICE_LINE];
    }
    assert lines == FormatLines(plan);
    text := Join(lines, "\n");
  }

  /** A line that opens with the perfect-plan or the advice line's first character. */
  predicate OpensNote(line: string)
  {
    |line| > 0 && (line[0] == '✅' || line[0] == '追')
  }

  /** No header or session line opens like a note. */
  lemma {:induction false} BodyOpensNoNote(plan: FionaMakeupPlan)
    ensures forall line :: line in HeaderLines(plan) + SessionLines(plan.makeupSessions) ==> !OpensNote(line)
  {
    var body := HeaderLines(plan) + SessionLines(plan.makeupSessions);
    forall k | 0 <= k < |body|
      ensures !OpensNote(body[k])
    {
      if k >= 10 {
        assert body[k] == SessionLine(plan.makeupSessions[k - 10]);
        assert body[k][0] == ' ';
      } else {
        assert body[k] == HeaderLines(plan)[k];
      }
    }
  }

  /** The perfect-plan line appears exactly when the total is 240 minutes; the advice line exactly when the plan is incomplete, after the shortage. */
  lemma FormatNotes(plan: FionaMakeupPlan)
    ensures PERFECT_LINE in FormatLines(plan) <==> plan.totalMakeupMinutes == 240
    ensures ADVICE_LINE in FormatLines(plan) <==> !plan.isComplete
    ensures !plan.isComplete ==> ShortageLine(plan) in FormatLines(plan)
  {
    BodyOpensNoNote(plan);
    assert OpensNote(PERFECT_LINE) && OpensNote(ADVICE_LINE);
    assert ShortageLine(plan)[0] == '⚠';
  }
}
