/**
 * The export helpers: the serialiser that turns one week of a timetable into the
 * two-dimensional cell array handed to the spreadsheet writer, and the background
 * colour chosen from the tag in a subject's display name.
 */
module ExportHelpers {
  import opened Wrappers
  import Strings

  /** What the grid's lookup finds for one day and period: the three names shown in a cell. */
  datatype CellEntry = CellEntry(subjectName: string, teacherName: string, classroomName: string)

  /** The text of one cell: empty when nothing is found, else the three names on three lines. */
  function CellText(e: Option<CellEntry>): (r: string)
    ensures e.None? ==> r == ""
  {
    match e
    case None => ""
    case Some(c) => c.subjectName + "\n" + c.teacherName + "\n" + c.classroomName
  }

  /** A cell is empty exactly when the lookup found nothing. */
  lemma CellTextEmpty(e: Option<CellEntry>)
    ensures CellText(e) == "" <==> e.None?
  {
    if e.Some? {
      assert CellText(e)[|e.value.subjectName|] == '\n';
    }
  }

  /**
   * A filled cell splits back into its three names at the line breaks, as long as
   * none of the names itself holds a line break.
   */
  lemma CellTextSplits(c: CellEntry)
    requires '\n' !in c.subjectName && '\n' !in c.teacherName && '\n' !in c.classroomName
    ensures Strings.Split(CellText(Some(c)), '\n') == [c.subjectName, c.teacherName, c.classroomName]
  {
    var rest := c.teacherName + "\n" + c.classroomName;
    assert CellText(Some(c)) == c.subjectName + ['\n'] + rest;
    Strings.SplitAfterPart(c.subjectName, rest, '\n');
    assert rest == c.teacherName + ['\n'] + c.classroomName;
    Strings.SplitAfterPart(c.teacherName, c.classroomName, '\n');
  }

  /** The row of one period: its label, then the cell text of each day in order. */
  predicate MatrixRow(row: seq<string>, days: seq<string>, period: string, lookup: (string, string) -> Option<CellEntry>)
  {
    && |row| == 1 + |days| && row[0] == period
    && forall j :: 0 <= j < |days| ==> row[j + 1] == CellText(lookup(days[j], period))
  }

  /**
   * createTimetableMatrix: a header row of '' and the day labels, then one row per
   * period holding the period label and one cell per day, in the given orders.
   */
  method CreateTimetableMatrix(days: seq<string>, periods: seq<string>, lookup: (string, string) -> Option<CellEntry>)
    returns (rows: seq<seq<string>>)
    ensures |rows| == 1 + |periods|
    ensures rows[0] == [""] + days
    ensures forall i :: 0 <= i < |periods| ==> MatrixRow(rows[i + 1], days, periods[i], lookup)
  {
    rows := [[""] + days];
    var i := 0;
    while i < |periods|
      invariant 0 <= i <= |periods|
      invariant |rows| == 1 + i && rows[0] == [""] + days
      invariant forall k :: 0 <= k < i ==> MatrixRow(rows[k + 1], days, periods[k], lookup)
    {
      var period := periods[i];
      var row := [period];
      var j := 0;
      while j < |days|
        invariant 0 <= j <= |days|
        invariant |row| == 1 + j && row[0] == period
        invariant forall m :: 0 <= m < j ==> row[m + 1] == CellText(lookup(days[m], period))
      {
        var entry := lookup(days[j], period);
        if entry.Some? {
          row := row + [entry.value.subjectName + "\n" + entry.value.teacherName + "\n" + entry.value.classroomName];
        } else {
          row := row + [""];
        }
        j := j + 1;
      }
      assert MatrixRow(row, days, period, lookup);
      rows := rows + [row];
      i := i + 1;
    }
  }

  const ORANGE := "rgb(255, 223, 186)"
  const BLUE := "rgb(186, 230, 255)"
  const PINK := "rgb(255, 186, 255)"
  const WHITE := "rgb(255, 255, 255)"

  /** getSubjectTypeColor: the first of the tags [合同], [共通], [コンビ] the name carries picks the colour. */
  function SubjectTypeColor(name: string): (r: string)
    ensures r == ORANGE <==> Strings.Contains(name, "[合同]")
    ensures r == BLUE <==> !Strings.Contains(name, "[合同]") && Strings.Contains(name, "[共通]")
    ensures r == PINK <==>
      !Strings.Contains(name, "[合同]") && !Strings.Contains(name, "[共通]") && Strings.Contains(name, "[コンビ]")
    ensures r == WHITE <==>
      !Strings.Contains(name, "[合同]") && !Strings.Contains(name, "[共通]") && !Strings.Contains(name, "[コンビ]")
  {
    if Strings.Contains(name, "[合同]") then ORANGE
    else if Strings.Contains(name, "[共通]") then BLUE
    else if Strings.Contains(name, "[コンビ]") then PINK
    else WHITE
  }

  /** A name without any '[' carries no tag and is shown white. */
  lemma UntaggedIsWhite(name: string)
    requires '[' !in name
    ensures SubjectTypeColor(name) == WHITE
  {
    Strings.ContainsChar(name, "[合同]", 0);
    Strings.ContainsChar(name, "[共通]", 0);
    Strings.ContainsChar(name, "[コンビ]", 0);
  }

  /** Appending a tag to an untagged name gives that tag's colour. */
  lemma TaggedColor(base: string)
    requires '[' !in base
    ensures SubjectTypeColor(base + "[合同]") == ORANGE
    ensures SubjectTypeColor(base + "[共通]") == BLUE
    ensures SubjectTypeColor(base + "[コンビ]") == PINK
  {
    var j, c, k := base + "[合同]", base + "[共通]", base + "[コンビ]";
    assert Strings.OccursAt(j, "[合同]", |base|);
    assert Strings.OccursAt(c, "[共通]", |base|);
    assert Strings.OccursAt(k, "[コンビ]", |base|);
    assert "[合同]"[..4] == "[合同]" && "[共通]"[..4] == "[共通]";
    assert "[共通]"[1] != "[合同]"[1] && "[コンビ]"[1] != "[合同]"[1] && "[コンビ]"[1] != "[共通]"[1];
    OnlyBracketAtEnd(base, "[合同]", "[共通]");
    OnlyBracketAtEnd(base, "[共通]", "[合同]");
    OnlyBracketAtEnd(base, "[コンビ]", "[合同]");
    OnlyBracketAtEnd(base, "[コンビ]", "[共通]");
  }

  /** In `base + tag`, with '[' only at the tag's head, another tag of the same length can occur only as `tag`. */
  lemma OnlyBracketAtEnd(base: string, tag: string, other: string)
    requires '[' !in base && |tag| >= 1 && tag[0] == '[' && '[' !in tag[1..]
    requires |other| >= 1 && other[0] == '[' && |other| <= |tag| && other != tag[..|other|]
    ensures !Strings.Contains(base + tag, other)
  {
    var s := base + tag;
    forall i | 0 <= i <= |s| ensures !Strings.OccursAt(s, other, i) {
      if i < |base| {
        assert s[i] == base[i];
      } else if i == |base| {
        if i + |other| <= |s| {
          assert s[i..i + |other|] == tag[..|other|];
        }
      } else if i < |s| {
        assert s[i] == tag[1..][i - |base| - 1];
      }
    }
  }
}
