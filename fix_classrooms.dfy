/**
 * The one-shot rewrite that sets each subject record's `availableClassroomIds` in the
 * mock-data text from a fixed subject-to-classrooms table. For every table entry, in
 * table order, every match of
 *     (name: '<name>',.*?availableClassroomIds: )\[[^\]]*\]
 * (dot matching newlines, the name escaped) keeps its captured prefix and gets the
 * table's classroom list in place of the bracketed list. The regex is modelled by the
 * searches it amounts to: the name clause, then the first list marker after it, then the
 * first closing bracket after that.
 */
module FixClassrooms {
  import opened Wrappers
  import opened Strings

  /** The literal start of a match: the record's name clause with its trailing `',`. */
  function Head(name: string): string
  {
    "name: '" + name + "',"
  }

  /** The end of the captured prefix together with the list's opening bracket. */
  const MARKER: string := "availableClassroomIds: ["

  /**
   * The pattern's literal parts: `head` opens a match and `marker`, which ends with the list's
   * `[`, closes the lazily matched gap after it.
   */
  datatype Pattern = Pattern(head: string, marker: string)

  predicate ValidPattern(pat: Pattern)
  {
    |pat.marker| >= 1 && pat.marker[|pat.marker| - 1] == '['
  }

  /** The pattern for one table entry: the name clause with its trailing `',`, and MARKER. */
  function PatternFor(name: string): (pat: Pattern)
    ensures ValidPattern(pat) && pat.head == Head(name)
  {
    assert MARKER[23] == '[';
    Pattern(Head(name), MARKER)
  }

  /** A match: `head` at `head`, the replaced bracketed list at `listStart..listEnd`. */
  datatype Match = Match(head: nat, listStart: nat, listEnd: nat)

  /** A bracketed list: its `[` at `start`, `end` just past its `]`. */
  datatype Span = Span(start: nat, end: nat)

  /** The first `]` at or after `from` (the end of `[^\]]*\]`). */
  function FirstClose(s: string, from: nat): (r: Option<nat>)
    requires from <= |s|
    decreases |s| - from
    ensures r.Some? ==> from <= r.value < |s|
  {
    if from == |s| then None
    else if s[from] == ']' then Some(from)
    else FirstClose(s, from + 1)
  }

  /** FirstClose stops at the first `]`, and finds nothing only when there is none. */
  lemma {:induction false} FirstCloseSpec(s: string, from: nat)
    requires from <= |s|
    decreases |s| - from
    ensures FirstClose(s, from).Some? ==>
      s[FirstClose(s, from).value] == ']' && forall x :: from <= x < FirstClose(s, from).value ==> s[x] != ']'
    ensures FirstClose(s, from).None? ==> forall x :: from <= x < |s| ==> s[x] != ']'
  {
    if from < |s| && s[from] != ']' {
      FirstCloseSpec(s, from + 1);
    }
  }

  /**
   * The lazy `.*?<marker>[^\]]*\]` from `from`: the first marker at or after `from`, and the
   * bracketed list from the marker's `[` to the first `]` after it.
   */
  function ListAfter(s: string, mk: string, from: nat): (r: Option<Span>)
    requires from <= |s| && |mk| >= 1
    ensures r.Some? ==> from + |mk| - 1 <= r.value.start < r.value.end <= |s|
  {
    match IndexFrom(s, mk, from)
    case None => None
    case Some(j) =>
      match FirstClose(s, j + |mk|)
      case None => None
      case Some(k) => Some(Span(j + |mk| - 1, k + 1))
  }

  /** What ListAfter finds: the first marker from `from`, then the first `]` after it; none if there is no such pair. */
  lemma {:induction false} ListAfterSpec(s: string, mk: string, from: nat)
    requires from <= |s| && |mk| >= 1
    ensures var r := ListAfter(s, mk, from);
      r.Some? ==>
        && OccursAt(s, mk, r.value.start + 1 - |mk|)
        && (forall x :: from <= x < r.value.start + 1 - |mk| ==> !OccursAt(s, mk, x))
        && s[r.value.end - 1] == ']'
        && (forall x :: r.value.start < x < r.value.end - 1 ==> s[x] != ']')
    ensures ListAfter(s, mk, from).None? ==>
      forall j, k :: from <= j && OccursAt(s, mk, j) && j + |mk| <= k < |s| ==> s[k] != ']'
  {
    IndexFromSpec(s, mk, from);
    match IndexFrom(s, mk, from)
    case None =>
    case Some(j) => FirstCloseSpec(s, j + |mk|);
  }

  /**
   * The leftmost match of the pattern in `s`: the first occurrence of the head, then the list
   * after it. When the first head has no list after it, no later one has either.
   */
  function FirstMatch(s: string, pat: Pattern): (r: Option<Match>)
    requires ValidPattern(pat)
    ensures r.Some? ==> r.value.head + |pat.head| + |pat.marker| - 1 <= r.value.listStart < r.value.listEnd <= |s|
  {
    match IndexFrom(s, pat.head, 0)
    case None => None
    case Some(i) =>
      match ListAfter(s, pat.marker, i + |pat.head|)
      case None => None
      case Some(list) => Some(Match(i, list.start, list.end))
  }

  /** The three searches that make up a match. */
  lemma {:induction false} MatchParts(s: string, pat: Pattern, m: Match)
    requires ValidPattern(pat) && FirstMatch(s, pat) == Some(m)
    ensures IndexFrom(s, pat.head, 0) == Some(m.head)
    ensures IndexFrom(s, pat.marker, m.head + |pat.head|) == Some(m.listStart + 1 - |pat.marker|)
    ensures FirstClose(s, m.listStart + 1) == Some(m.listEnd - 1)
  {
  }

  /**
   * A match starts at the first head, its list begins with the `[` of the first marker after
   * the head and ends at the first `]` after that.
   */
  lemma {:induction false} FirstMatchFound(s: string, pat: Pattern, m: Match)
    requires ValidPattern(pat) && FirstMatch(s, pat) == Some(m)
    ensures OccursAt(s, pat.head, m.head)
    ensures forall x :: 0 <= x < m.head ==> !OccursAt(s, pat.head, x)
    ensures OccursAt(s, pat.marker, m.listStart + 1 - |pat.marker|)
    ensures forall x :: m.head + |pat.head| <= x < m.listStart + 1 - |pat.marker| ==> !OccursAt(s, pat.marker, x)
    ensures s[m.listEnd - 1] == ']'
    ensures forall x :: m.listStart < x < m.listEnd - 1 ==> s[x] != ']'
  {
    MatchParts(s, pat, m);
    IndexFromSpec(s, pat.head, 0);
    IndexFromSpec(s, pat.marker, m.head + |pat.head|);
    FirstCloseSpec(s, m.listStart + 1);
  }

  /** No match means that no head is followed by a marker and then a `]`. */
  lemma {:induction false} FirstMatchNone(s: string, pat: Pattern)
    requires ValidPattern(pat) && FirstMatch(s, pat).None?
    ensures forall i, j, k ::
      OccursAt(s, pat.head, i) && i + |pat.head| <= j && OccursAt(s, pat.marker, j) && j + |pat.marker| <= k < |s|
      ==> s[k] != ']'
  {
    IndexFromSpec(s, pat.head, 0);
    match IndexFrom(s, pat.head, 0)
    case None =>
    case Some(i) => ListAfterSpec(s, pat.marker, i + |pat.head|);
  }

  /** `re.sub(pattern, r"\1" + list, s)`: every match, left to right, gets `list` as its list. */
  function SubAll(s: string, pat: Pattern, list: string): (r: string)
    requires ValidPattern(pat)
    decreases |s|
    ensures FirstMatch(s, pat).None? ==> r == s
    ensures FirstMatch(s, pat).Some? ==>
      var m := FirstMatch(s, pat).value;
      |r| >= m.listStart + |list| && r[..m.listStart] == s[..m.listStart] && r[m.listStart..m.listStart + |list|] == list
  {
    match FirstMatch(s, pat)
    case None => s
    case Some(m) =>
      var r := s[..m.listStart] + list + SubAll(s[m.listEnd..], pat, list);
      assert r[..m.listStart] == s[..m.listStart];
      assert r[m.listStart..m.listStart + |list|] == list;
      r
  }

  /** A text that does not mention the name is left as it is. */
  lemma {:induction false} SubAllNoHead(s: string, pat: Pattern, list: string)
    requires ValidPattern(pat) && !Contains(s, pat.head)
    ensures SubAll(s, pat, list) == s
  {
    match FirstMatch(s, pat)
    case None =>
    case Some(m) => FirstMatchFound(s, pat, m);
  }

  /** The text `str(ids)` of a Python list of plain strings: `['c1', 'c4']`. */
  function PyListRepr(ids: seq<string>): string
  {
    "[" + Join(Quoted(ids, "'"), ", ") + "]"
  }

  function Quoted(ids: seq<string>, q: string): (r: seq<string>)
    ensures |r| == |ids| && forall i :: 0 <= i < |ids| ==> r[i] == q + ids[i] + q
  {
    if ids == [] then [] else [q + ids[0] + q] + Quoted(ids[1..], q)
  }

  /** `str(classroom_ids).replace("'", '"')`. */
  function RenderList(ids: seq<string>): string
  {
    ReplaceChar(PyListRepr(ids), '\'', "\"")
  }

  /** A list text that starts with `[`, ends with `]` and has no other `]`. */
  predicate BracketedList(list: string)
  {
    |list| >= 2 && list[0] == '[' && list[|list| - 1] == ']' && forall x :: 0 <= x < |list| - 1 ==> list[x] != ']'
  }

  lemma {:induction false} ReplaceCharAppend(a: string, b: string, c: char, rep: string)
    ensures ReplaceChar(a + b, c, rep) == ReplaceChar(a, c, rep) + ReplaceChar(b, c, rep)
  {
    if a == [] {
      assert a + b == b;
    } else {
      assert (a + b)[0] == a[0] && (a + b)[1..] == a[1..] + b;
      ReplaceCharAppend(a[1..], b, c, rep);
    }
  }

  lemma {:induction false} JoinQuoted(ids: seq<string>)
    requires forall i :: 0 <= i < |ids| ==> '\'' !in ids[i]
    ensures ReplaceChar(Join(Quoted(ids, "'"), ", "), '\'', "\"") == Join(Quoted(ids, "\""), ", ")
  {
    if ids != [] {
      var q := Quoted(ids, "'");
      var first := "'" + ids[0] + "'";
      assert ReplaceChar(first, '\'', "\"") == "\"" + ids[0] + "\"" by {
        ReplaceCharAppend("'" + ids[0], "'", '\'', "\"");
        ReplaceCharAppend("'", ids[0], '\'', "\"");
      }
      if |ids| > 1 {
        assert q[1..] == Quoted(ids[1..], "'");
        JoinQuoted(ids[1..]);
        ReplaceCharAppend(first + ", ", Join(q[1..], ", "), '\'', "\"");
        ReplaceCharAppend(first, ", ", '\'', "\"");
        assert ReplaceChar(", ", '\'', "\"") == ", ";
      }
    }
  }

  /** The rendered list is the ids in table order, double-quoted, separated by `, `, in brackets. */
  lemma {:induction false} RenderListText(ids: seq<string>)
    requires forall i :: 0 <= i < |ids| ==> '\'' !in ids[i]
    ensures RenderList(ids) == "[" + Join(Quoted(ids, "\""), ", ") + "]"
  {
    var body := Join(Quoted(ids, "'"), ", ");
    ReplaceCharAppend("[" + body, "]", '\'', "\"");
    ReplaceCharAppend("[", body, '\'', "\"");
    JoinQuoted(ids);
  }

  lemma {:induction false} JoinAvoids(parts: seq<string>, sep: string, c: char)
    requires c !in sep && forall i :: 0 <= i < |parts| ==> c !in parts[i]
    ensures c !in Join(parts, sep)
  {
    if |parts| > 1 {
      JoinAvoids(parts[1..], sep, c);
    }
  }

  /** Ids without quotes or brackets render as a bracketed list. */
  lemma {:induction false} RenderListBracketed(ids: seq<string>)
    requires forall i :: 0 <= i < |ids| ==> '\'' !in ids[i] && ']' !in ids[i]
    ensures BracketedList(RenderList(ids))
  {
    RenderListText(ids);
    var quoted := Quoted(ids, "\"");
    forall i | 0 <= i < |quoted| ensures ']' !in quoted[i] {
      assert quoted[i] == "\"" + ids[i] + "\"";
    }
    JoinAvoids(quoted, ", ", ']');
    var body := Join(quoted, ", ");
    var list := "[" + body + "]";
    forall x | 0 <= x < |list| - 1 ensures list[x] != ']' {
      if x > 0 { assert list[x] == body[x - 1]; }
    }
  }

  lemma {:induction false} OccursAtAppend(p: string, q: string, sub: string, x: nat)
    requires x + |sub| <= |p|
    ensures OccursAt(p + q, sub, x) == OccursAt(p, sub, x)
  {
    assert (p + q)[x..x + |sub|] == p[x..x + |sub|];
  }

  /** A search result lying within `p` is the same in `p` and in any extension of `p`. */
  lemma {:induction false} IndexFromAppend(p: string, q: string, sub: string, from: nat, i: nat)
    requires from <= i && i + |sub| <= |p|
    ensures IndexFrom(p + q, sub, from) == Some(i) <==> IndexFrom(p, sub, from) == Some(i)
    decreases i - from
  {
    OccursAtAppend(p, q, sub, from);
    MatchesAtOccurs(p + q, sub, from);
    MatchesAtOccurs(p, sub, from);
    if from < i && !OccursAt(p, sub, from) {
      IndexFromAppend(p, q, sub, from + 1, i);
    }
  }

  /** The scan for `]` stops at the first one. */
  lemma {:induction false} FirstCloseIs(t: string, from: nat, p: nat)
    requires from <= p < |t| && t[p] == ']' && forall x :: from <= x < p ==> t[x] != ']'
    ensures FirstClose(t, from) == Some(p)
    decreases p - from
  {
    if from < p {
      FirstCloseIs(t, from + 1, p);
    }
  }

  /** The list of a match starts with `[`. */
  lemma {:induction false} MatchOpens(s: string, pat: Pattern, m: Match)
    requires ValidPattern(pat) && FirstMatch(s, pat) == Some(m)
    ensures s[m.listStart] == '['
  {
    FirstMatchFound(s, pat, m);
    var mk := pat.marker;
    var j := m.listStart + 1 - |mk|;
    assert s[j..j + |mk|] == mk;
    assert s[m.listStart] == s[j..j + |mk|][|mk| - 1];
  }

  /**
   * Rewriting the list at `a` keeps the text up to and including its `[`: both the old and
   * the new text are that prefix followed by something else.
   */
  lemma {:induction false} RewriteSplit(s: string, list: string, rest: string, a: nat)
    requires a < |s| && s[a] == '[' && BracketedList(list)
    ensures s == s[..a + 1] + s[a + 1..]
    ensures s[..a] + list + rest == s[..a + 1] + (list[1..] + rest)
  {
    assert s[..a + 1] == s[..a] + [s[a]];
    assert list == [list[0]] + list[1..];
  }

  /** In the rewritten text the closing bracket found after the new list's `[` is the list's own. */
  lemma {:induction false} NewListCloses(s: string, list: string, rest: string, a: nat)
    requires a < |s| && BracketedList(list)
    ensures FirstClose(s[..a] + list + rest, a + 1) == Some(a + |list| - 1)
  {
    var t := s[..a] + list + rest;
    forall x | a + 1 <= x < a + |list| - 1 ensures t[x] != ']' {
      assert t[x] == list[x - a];
    }
    assert t[a + |list| - 1] == list[|list| - 1];
    FirstCloseIs(t, a + 1, a + |list| - 1);
  }

  /** The marker search and the bracket scan together give the list. */
  lemma {:induction false} ListAfterIs(t: string, mk: string, from: nat, j: nat, e: nat)
    requires from <= |t| && |mk| >= 1 && IndexFrom(t, mk, from) == Some(j) && j + |mk| <= |t|
    requires FirstClose(t, j + |mk|) == Some(e)
    ensures ListAfter(t, mk, from) == Some(Span(j + |mk| - 1, e + 1))
  {
  }

  /** The head search and the list after it together give the match. */
  lemma {:induction false} FirstMatchIs(t: string, pat: Pattern, i: nat, sp: Span)
    requires ValidPattern(pat) && IndexFrom(t, pat.head, 0) == Some(i) && i + |pat.head| <= |t|
    requires ListAfter(t, pat.marker, i + |pat.head|) == Some(sp)
    ensures FirstMatch(t, pat) == Some(Match(i, sp.start, sp.end))
  {
  }

  /** A search whose hit lies inside `p` finds the same hit in `p` followed by anything. */
  lemma {:induction false} SearchKept(s: string, t: string, p: string, q: string, q': string, sub: string, from: nat, i: nat)
    requires s == p + q && t == p + q'
    requires from <= i && i + |sub| <= |p| && IndexFrom(s, sub, from) == Some(i)
    ensures IndexFrom(t, sub, from) == Some(i)
  {
    IndexFromAppend(p, q, sub, from, i);
    IndexFromAppend(p, q', sub, from, i);
  }

  /** Both searches of a match find the same hits when only the text after the match's `[` changes. */
  lemma {:induction false} SearchesKept(s: string, t: string, p: string, q: string, q': string, pat: Pattern, m: Match)
    requires s == p + q && t == p + q'
    requires ValidPattern(pat) && FirstMatch(s, pat) == Some(m) && m.listStart + 1 == |p|
    ensures IndexFrom(t, pat.head, 0) == Some(m.head)
    ensures m.head + |pat.head| <= |t| && IndexFrom(t, pat.marker, m.head + |pat.head|) == Some(m.listStart + 1 - |pat.marker|)
  {
    MatchParts(s, pat, m);
    SearchKept(s, t, p, q, q', pat.head, 0, m.head);
    SearchKept(s, t, p, q, q', pat.marker, m.head + |pat.head|, m.listStart + 1 - |pat.marker|);
  }

  /** A text with the two searches of a match and a `]` after its list's `[` has that match. */
  lemma {:induction false} MatchAssembled(t: string, pat: Pattern, m: Match, e: nat)
    requires ValidPattern(pat) && m.head + |pat.head| + |pat.marker| - 1 <= m.listStart < |t|
    requires IndexFrom(t, pat.head, 0) == Some(m.head)
    requires IndexFrom(t, pat.marker, m.head + |pat.head|) == Some(m.listStart + 1 - |pat.marker|)
    requires FirstClose(t, m.listStart + 1) == Some(e)
    ensures FirstMatch(t, pat) == Some(Match(m.head, m.listStart, e + 1))
  {
    ListAfterIs(t, pat.marker, m.head + |pat.head|, m.listStart + 1 - |pat.marker|, e);
    FirstMatchIs(t, pat, m.head, Span(m.listStart, e + 1));
  }

  /** After one rewrite the text's first match is at the same place and spans the new list. */
  lemma {:induction false} FirstMatchAfterRewrite(s: string, pat: Pattern, list: string, rest: string, m: Match)
    requires ValidPattern(pat) && BracketedList(list) && FirstMatch(s, pat) == Some(m)
    ensures FirstMatch(s[..m.listStart] + list + rest, pat) == Some(Match(m.head, m.listStart, m.listStart + |list|))
  {
    var a := m.listStart;
    MatchOpens(s, pat, m);
    RewriteSplit(s, list, rest, a);
    NewListCloses(s, list, rest, a);
    var t := s[..a] + list + rest;
    SearchesKept(s, t, s[..a + 1], s[a + 1..], list[1..] + rest, pat, m);
    MatchAssembled(t, pat, m, a + |list| - 1);
  }

  /** Rewriting a second time with the same pattern and list changes nothing. */
  lemma {:induction false} SubAllIdempotent(s: string, pat: Pattern, list: string)
    requires ValidPattern(pat) && BracketedList(list)
    ensures SubAll(SubAll(s, pat, list), pat, list) == SubAll(s, pat, list)
    decreases |s|
  {
    match FirstMatch(s, pat)
    case None =>
    case Some(m) =>
      var rest := SubAll(s[m.listEnd..], pat, list);
      var t := s[..m.listStart] + list + rest;
      FirstMatchAfterRewrite(s, pat, list, rest, m);
      assert t[..m.listStart] == s[..m.listStart];
      assert t[m.listStart + |list|..] == rest;
      SubAllIdempotent(s[m.listEnd..], pat, list);
  }

  /**
   * The required `',` after the name: a record named `name + suffix`, where the suffix does not
   * start with a quote (`次世代地域リーダー学 I/II` for the name `次世代地域リーダー学 I`), never
   * starts a match for `name`.
   */
  lemma {:induction false} LongerNameNoHead(s: string, name: string, suffix: string, i: nat)
    requires suffix != [] && suffix[0] != '\''
    requires OccursAt(s, "name: '" + name + suffix, i)
    ensures !OccursAt(s, Head(name), i)
  {
    var p := |"name: '" + name|;
    var h := Head(name);
    assert s[i + p] == ("name: '" + name + suffix)[p] == suffix[0];
    assert h[p] == '\'';
    assert i + |h| <= |s| ==> s[i..i + |h|][p] == s[i + p];
  }

  /** The whole table applied in order, each entry rewriting the result of the ones before. */
  function ApplyTable(content: string, table: seq<(string, seq<string>)>): string
  {
    if table == [] then content
    else
      var last := table[|table| - 1];
      SubAll(ApplyTable(content, table[..|table| - 1]), PatternFor(last.0), RenderList(last.1))
  }

  /** The mapping loop: `content` is rewritten once per table entry, in table order. */
  method FixClassrooms(content0: string, table: seq<(string, seq<string>)>) returns (content: string)
    ensures content == ApplyTable(content0, table)
  {
    content := content0;
    var n := 0;
    while n < |table|
      invariant 0 <= n <= |table| && content == ApplyTable(content0, table[..n])
    {
      var (name, ids) := table[n];
      var list := RenderList(ids);
      content := SubAll(content, PatternFor(name), list);
      assert table[..n + 1][..n] == table[..n];
      n := n + 1;
    }
    assert table[..n] == table;
  }
}
