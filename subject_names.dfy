/**
 * Subject-name normalisation: Roman-numeral characters Ⅰ/Ⅱ become the Latin letters
 * I/II, an unspaced trailing I or II gets one space before it, and a combined
 * "I/II" subject splits into its two halves. The two global regular expressions
 * `/([^A-Z\s/])I(?![A-Z])/g` and `/([^A-Z\s/])II(?![A-Z])/g` are written out as
 * left-to-right scans that resume after each match, as a global replace does.
 */
module SubjectNames {
  import opened Wrappers
  import opened Strings

  predicate IsUpper(c: char) { 'A' <= c <= 'Z' }

  /** The character class `[^A-Z\s/]`. */
  predicate IsLead(c: char) { !IsUpper(c) && !IsJsSpace(c) && c != '/' }

  /** The I-pattern matches at the start of `s`. */
  predicate IMatchHere(s: string)
  {
    |s| >= 2 && IsLead(s[0]) && s[1] == 'I' && (|s| == 2 || !IsUpper(s[2]))
  }

  /** The II-pattern matches at the start of `s`. */
  predicate IIMatchHere(s: string)
  {
    |s| >= 3 && IsLead(s[0]) && s[1] == 'I' && s[2] == 'I' && (|s| == 3 || !IsUpper(s[3]))
  }

  /** The I-pattern matches somewhere in `s` (`name.match(...)` is non-null). */
  predicate HasIMatch(s: string)
    decreases |s|
  {
    |s| >= 2 && (IMatchHere(s) || HasIMatch(s[1..]))
  }

  predicate HasIIMatch(s: string)
    decreases |s|
  {
    |s| >= 3 && (IIMatchHere(s) || HasIIMatch(s[1..]))
  }

  /** `s.replace(/([^A-Z\s/])I(?![A-Z])/g, '$1 I')`. */
  function SpaceBeforeI(s: string): string
    decreases |s|
  {
    if |s| < 2 then s
    else if IMatchHere(s) then [s[0], ' ', 'I'] + SpaceBeforeI(s[2..])
    else [s[0]] + SpaceBeforeI(s[1..])
  }

  /** `s.replace(/([^A-Z\s/])II(?![A-Z])/g, '$1 II')`. */
  function SpaceBeforeII(s: string): string
    decreases |s|
  {
    if |s| < 3 then s
    else if IIMatchHere(s) then [s[0], ' ', 'I', 'I'] + SpaceBeforeII(s[3..])
    else [s[0]] + SpaceBeforeII(s[1..])
  }

  /** normalizeSubjectName. */
  function Normalize(name: string): string
  {
    var latin := ReplaceChar(ReplaceChar(name, 'Ⅰ', "I"), 'Ⅱ', "II");
    SpaceBeforeII(SpaceBeforeI(latin))
  }

  /** splitCombinedSubject: the I and II halves of a combined "I/II" name, or None. */
  function SplitCombined(name: string): (r: Option<(string, string)>)
    ensures r.None? <==> !Contains(name, "I/II")
    ensures r.Some? ==> exists base :: r.value == (base + " I", base + " II")
  {
    if !Contains(name, "I/II") then None
    else
      var base := ReplaceFirst(ReplaceFirst(name, " I/II", ""), "I/II", "");
      Some((base + " I", base + " II"))
  }

  /** isNormalizedSubjectName. */
  function IsNormalized(name: string): (r: bool)
    ensures r ==> 'Ⅰ' !in name && 'Ⅱ' !in name && !Contains(name, "I/II")
    ensures r ==> !HasIMatch(name) && !HasIIMatch(name)
  {
    if Contains(name, "Ⅰ") || Contains(name, "Ⅱ") then
      assert 'Ⅰ' in name ==> Contains(name, "Ⅰ") by { CharContains(name, 'Ⅰ'); }
      false
    else if Contains(name, "I/II") then false
    else if HasIMatch(name) || HasIIMatch(name) then false
    else
      CharContains(name, 'Ⅰ');
      CharContains(name, 'Ⅱ');
      true
  }

  // ---------- facts about the scans ----------

  lemma CharContains(s: string, c: char)
    ensures c in s <==> Contains(s, [c])
  {
    if c in s {
      var i :| 0 <= i < |s| && s[i] == c;
      assert s[i..i + 1] == [c];
      assert OccursAt(s, [c], i);
    }
    ContainsChar(s, [c], 0);
  }

  lemma {:induction false} SpaceBeforeIHead(s: string)
    requires |s| >= 1
    ensures |SpaceBeforeI(s)| >= 1 && SpaceBeforeI(s)[0] == s[0]
    ensures !IsLead(s[0]) ==> SpaceBeforeI(s) == [s[0]] + SpaceBeforeI(s[1..])
  {
    if |s| < 2 {
      assert s == [s[0]] + s[1..];
    }
  }

  lemma {:induction false} SpaceBeforeIIHead(s: string)
    requires |s| >= 1
    ensures |SpaceBeforeII(s)| >= 1 && SpaceBeforeII(s)[0] == s[0]
    ensures !IsLead(s[0]) ==> SpaceBeforeII(s) == [s[0]] + SpaceBeforeII(s[1..])
  {
    if |s| < 3 {
      assert s == [s[0]] + s[1..];
      assert SpaceBeforeII(s[1..]) == s[1..];
    }
  }

  /** The I-scan inserts only spaces. */
  lemma {:induction false} SpaceBeforeIChars(s: string, c: char)
    requires c in SpaceBeforeI(s)
    ensures c in s || c == ' '
    decreases |s|
  {
    if |s| >= 2 {
      if IMatchHere(s) {
        if c in SpaceBeforeI(s[2..]) { SpaceBeforeIChars(s[2..], c); }
      } else {
        if c in SpaceBeforeI(s[1..]) { SpaceBeforeIChars(s[1..], c); }
      }
    }
  }

  lemma {:induction false} SpaceBeforeIIChars(s: string, c: char)
    requires c in SpaceBeforeII(s)
    ensures c in s || c == ' '
    decreases |s|
  {
    if |s| >= 3 {
      if IIMatchHere(s) {
        if c in SpaceBeforeII(s[3..]) { SpaceBeforeIIChars(s[3..], c); }
      } else {
        if c in SpaceBeforeII(s[1..]) { SpaceBeforeIIChars(s[1..], c); }
      }
    }
  }

  /** Without a match the I-scan changes nothing. */
  lemma {:induction false} SpaceBeforeINoMatch(s: string)
    requires !HasIMatch(s)
    ensures SpaceBeforeI(s) == s
    decreases |s|
  {
    if |s| >= 2 {
      SpaceBeforeINoMatch(s[1..]);
      assert s == [s[0]] + s[1..];
    }
  }

  lemma {:induction false} SpaceBeforeIINoMatch(s: string)
    requires !HasIIMatch(s)
    ensures SpaceBeforeII(s) == s
    decreases |s|
  {
    if |s| >= 3 {
      SpaceBeforeIINoMatch(s[1..]);
      assert s == [s[0]] + s[1..];
    }
  }

  /** After the I-scan no I-match is left. */
  lemma {:induction false} SpaceBeforeIComplete(s: string)
    ensures !HasIMatch(SpaceBeforeI(s))
    decreases |s|
  {
    if |s| >= 2 {
      if IMatchHere(s) {
        SpaceBeforeIComplete(s[2..]);
        SpaceBeforeIMatchStep(s);
      } else {
        SpaceBeforeIComplete(s[1..]);
        SpaceBeforeISkipStep(s);
      }
    }
  }

  /** A match at the head is rewritten to `c I`, which no I-match overlaps. */
  lemma SpaceBeforeIMatchStep(s: string)
    requires |s| >= 2 && IMatchHere(s) && !HasIMatch(SpaceBeforeI(s[2..]))
    ensures !HasIMatch(SpaceBeforeI(s))
  {
    var r := SpaceBeforeI(s[2..]);
    var o2 := ['I'] + r;
    var o1 := [' '] + o2;
    assert SpaceBeforeI(s) == [s[0]] + o1;
    assert o2[1..] == r && !HasIMatch(o2);
    assert o1[1..] == o2 && !HasIMatch(o1);
    assert ([s[0]] + o1)[1..] == o1;
  }

  /** A head that does not match is kept, and it cannot start a match in the rewritten rest. */
  lemma SpaceBeforeISkipStep(s: string)
    requires |s| >= 2 && !IMatchHere(s) && !HasIMatch(SpaceBeforeI(s[1..]))
    ensures !HasIMatch(SpaceBeforeI(s))
  {
    var r := SpaceBeforeI(s[1..]);
    var out := [s[0]] + r;
    assert out[1..] == r;
    SpaceBeforeIHead(s[1..]);
    if IsLead(s[0]) && s[1] == 'I' {
      assert |s| >= 3 && IsUpper(s[2]);
      assert !IsLead(s[1..][0]);
      assert r == [s[1]] + SpaceBeforeI(s[2..]);
      SpaceBeforeIHead(s[2..]);
      assert r[1] == s[2];
    }
  }

  /** After the II-scan no II-match is left. */
  lemma {:induction false} SpaceBeforeIIComplete(s: string)
    ensures !HasIIMatch(SpaceBeforeII(s))
    decreases |s|
  {
    if |s| >= 3 {
      if IIMatchHere(s) {
        SpaceBeforeIIComplete(s[3..]);
        SpaceBeforeIIMatchStep(s);
      } else {
        SpaceBeforeIIComplete(s[1..]);
        SpaceBeforeIISkipStep(s);
      }
    }
  }

  /** A match at the head is rewritten to `c II`, which no II-match overlaps. */
  lemma SpaceBeforeIIMatchStep(s: string)
    requires |s| >= 3 && IIMatchHere(s) && !HasIIMatch(SpaceBeforeII(s[3..]))
    ensures !HasIIMatch(SpaceBeforeII(s))
  {
    var r := SpaceBeforeII(s[3..]);
    var o3 := ['I'] + r;
    var o2 := ['I'] + o3;
    var o1 := [' '] + o2;
    assert SpaceBeforeII(s) == [s[0]] + o1;
    assert o3[1..] == r && !HasIIMatch(o3);
    assert o2[1..] == o3 && !HasIIMatch(o2);
    assert o1[1..] == o2 && !HasIIMatch(o1);
    assert ([s[0]] + o1)[1..] == o1;
  }

  /** A head that does not match is kept, and it cannot start a match in the rewritten rest. */
  lemma SpaceBeforeIISkipStep(s: string)
    requires |s| >= 3 && !IIMatchHere(s) && !HasIIMatch(SpaceBeforeII(s[1..]))
    ensures !HasIIMatch(SpaceBeforeII(s))
  {
    var r := SpaceBeforeII(s[1..]);
    var out := [s[0]] + r;
    assert out[1..] == r;
    SpaceBeforeIIHead(s[1..]);
    if IsLead(s[0]) && s[1] == 'I' && s[2] == 'I' {
      assert |s| >= 4 && IsUpper(s[3]);
      assert r == [s[1]] + SpaceBeforeII(s[2..]);
      SpaceBeforeIIHead(s[2..]);
      assert SpaceBeforeII(s[2..]) == [s[2]] + SpaceBeforeII(s[3..]);
      SpaceBeforeIIHead(s[3..]);
      assert r[2] == s[3];
    }
  }

  lemma {:induction false} NoIMatchSuffix(s: string)
    requires !HasIMatch(s) && |s| >= 1
    ensures !HasIMatch(s[1..])
  {
  }

  /** The II-scan creates no I-match. */
  lemma {:induction false} SpaceBeforeIIKeepsNoIMatch(s: string)
    requires !HasIMatch(s)
    ensures !HasIMatch(SpaceBeforeII(s))
    decreases |s|
  {
    if |s| >= 3 {
      if IIMatchHere(s) {
        assert !HasIMatch(s[1..]) && !HasIMatch(s[2..]);
        assert s[2..][1..] == s[3..];
        SpaceBeforeIIKeepsNoIMatch(s[3..]);
        KeepsNoIMatchMatchStep(s);
      } else {
        assert !HasIMatch(s[1..]);
        SpaceBeforeIIKeepsNoIMatch(s[1..]);
        KeepsNoIMatchSkipStep(s);
      }
    }
  }

  lemma KeepsNoIMatchMatchStep(s: string)
    requires |s| >= 3 && IIMatchHere(s) && !HasIMatch(SpaceBeforeII(s[3..]))
    ensures !HasIMatch(SpaceBeforeII(s))
  {
    var r := SpaceBeforeII(s[3..]);
    var o3 := ['I'] + r;
    var o2 := ['I'] + o3;
    var o1 := [' '] + o2;
    assert SpaceBeforeII(s) == [s[0]] + o1;
    assert o3[1..] == r && !HasIMatch(o3);
    assert o2[1..] == o3 && !HasIMatch(o2);
    assert o1[1..] == o2 && !HasIMatch(o1);
    assert ([s[0]] + o1)[1..] == o1;
  }

  lemma KeepsNoIMatchSkipStep(s: string)
    requires |s| >= 3 && !IIMatchHere(s) && !HasIMatch(s) && !HasIMatch(SpaceBeforeII(s[1..]))
    ensures !HasIMatch(SpaceBeforeII(s))
  {
    var r := SpaceBeforeII(s[1..]);
    var out := [s[0]] + r;
    assert out[1..] == r;
    SpaceBeforeIIHead(s[1..]);
    if IsLead(s[0]) && s[1] == 'I' {
      assert |s| >= 3 && IsUpper(s[2]);
      assert r == [s[1]] + SpaceBeforeII(s[2..]);
      SpaceBeforeIIHead(s[2..]);
      assert r[1] == s[2];
    }
  }

  // ---------- properties of the normaliser ----------

  /** The output never contains the Roman-numeral characters. */
  lemma NormalizeNoRomanNumerals(name: string)
    ensures 'Ⅰ' !in Normalize(name) && 'Ⅱ' !in Normalize(name)
  {
    var latin := ReplaceChar(ReplaceChar(name, 'Ⅰ', "I"), 'Ⅱ', "II");
    assert 'Ⅰ' !in ReplaceChar(name, 'Ⅰ', "I");
    assert 'Ⅰ' !in latin by { ReplaceCharKeeps(ReplaceChar(name, 'Ⅰ', "I"), 'Ⅱ', "II", 'Ⅰ'); }
    var spaced := SpaceBeforeI(latin);
    if 'Ⅰ' in spaced { SpaceBeforeIChars(latin, 'Ⅰ'); }
    if 'Ⅱ' in spaced { SpaceBeforeIChars(latin, 'Ⅱ'); }
    if 'Ⅰ' in Normalize(name) { SpaceBeforeIIChars(spaced, 'Ⅰ'); }
    if 'Ⅱ' in Normalize(name) { SpaceBeforeIIChars(spaced, 'Ⅱ'); }
  }

  lemma {:induction false} ReplaceCharKeeps(s: string, c: char, rep: string, d: char)
    requires d !in s && d !in rep
    ensures d !in ReplaceChar(s, c, rep)
  {
    if s != [] {
      ReplaceCharKeeps(s[1..], c, rep, d);
    }
  }

  /** The output has no I or II left without its space. */
  lemma NormalizeLeavesNoMatch(name: string)
    ensures !HasIMatch(Normalize(name)) && !HasIIMatch(Normalize(name))
  {
    var latin := ReplaceChar(ReplaceChar(name, 'Ⅰ', "I"), 'Ⅱ', "II");
    SpaceBeforeIComplete(latin);
    SpaceBeforeIIKeepsNoIMatch(SpaceBeforeI(latin));
    SpaceBeforeIIComplete(SpaceBeforeI(latin));
  }

  /** A name isNormalizedSubjectName accepts is left unchanged by the normaliser. */
  lemma NormalizedIsFixedPoint(name: string)
    requires IsNormalized(name)
    ensures Normalize(name) == name
  {
    SpaceBeforeINoMatch(name);
    SpaceBeforeIINoMatch(name);
  }

  /** Normalising twice is normalising once. */
  lemma NormalizeIdempotent(name: string)
    ensures Normalize(Normalize(name)) == Normalize(name)
  {
    var n := Normalize(name);
    NormalizeNoRomanNumerals(name);
    NormalizeLeavesNoMatch(name);
    SpaceBeforeINoMatch(n);
    SpaceBeforeIINoMatch(n);
  }

  /** The output is accepted by isNormalizedSubjectName exactly when it has no "I/II" left. */
  lemma NormalizeAccepted(name: string)
    ensures IsNormalized(Normalize(name)) <==> !Contains(Normalize(name), "I/II")
  {
    var n := Normalize(name);
    NormalizeNoRomanNumerals(name);
    NormalizeLeavesNoMatch(name);
    CharContains(n, 'Ⅰ');
    CharContains(n, 'Ⅱ');
  }

  /** 'キャリア実践I' becomes 'キャリア実践 I'. */
  lemma NormalizeExample()
    ensures Normalize("キャリア実践I") == "キャリア実践 I"
  {
    ExampleLatin();
    ExampleSpaceBeforeI();
    ExampleSpaceBeforeII();
  }

  lemma ExampleLatin()
    ensures ReplaceChar(ReplaceChar("キャリア実践I", 'Ⅰ', "I"), 'Ⅱ', "II") == "キャリア実践I"
  {
    var name := "キャリア実践I";
    assert 'Ⅰ' !in name && 'Ⅱ' !in name;
    NoFullWidthNumerals(name);
  }

  /** A name without 'Ⅰ' or 'Ⅱ' passes the full-width replacement unchanged. */
  lemma NoFullWidthNumerals(s: string)
    requires 'Ⅰ' !in s && 'Ⅱ' !in s
    ensures ReplaceChar(ReplaceChar(s, 'Ⅰ', "I"), 'Ⅱ', "II") == s
  {
  }

  lemma ExampleSpaceBeforeII()
    ensures SpaceBeforeII("キャリア実践 I") == "キャリア実践 I"
  {
    var spaced := "キャリア実践 I";
    assert spaced == "キャリア実践 " + "I";
    assert 'I' !in "キャリア実践 ";
    NoIIMatchWithoutTwoIs("キャリア実践 ", "I");
    SpaceBeforeIINoMatch(spaced);
  }

  lemma ExampleSpaceBeforeI()
    ensures SpaceBeforeI("キャリア実践I") == "キャリア実践 I"
  {
    var name := "キャリア実践I";
    ExampleSpaceBeforeITail();
    assert name[3..] == "ア実践I";
    assert !IMatchHere(name[2..]);
    assert SpaceBeforeI(name[2..]) == "リア実践 I";
    assert !IMatchHere(name[1..]);
    assert SpaceBeforeI(name[1..]) == "ャリア実践 I";
    assert !IMatchHere(name);
  }

  lemma ExampleSpaceBeforeITail()
    ensures SpaceBeforeI("ア実践I") == "ア実践 I"
  {
    var name := "ア実践I";
    assert IMatchHere(name[2..]);
    assert SpaceBeforeI(name[2..]) == "践 I";
    assert !IMatchHere(name[1..]);
    assert SpaceBeforeI(name[1..]) == "実践 I";
    assert !IMatchHere(name);
  }

  /** A string with at most one 'I', at its end, has no II-match. */
  lemma {:induction false} NoIIMatchWithoutTwoIs(s: string, t: string)
    requires 'I' !in s && |t| <= 1
    ensures !HasIIMatch(s + t)
    decreases |s|
  {
    if |s + t| >= 3 {
      assert (s + t)[1] in s;
      assert (s + t)[1..] == s[1..] + t;
      NoIIMatchWithoutTwoIs(s[1..], t);
    }
  }

  lemma FirstSpacedOccurrence(p: string, q: string)
    requires !Contains(p, "I/II")
    ensures IndexOf(p + " I/II" + q, " I/II") == Some(|p|)
  {
    var name := p + " I/II" + q;
    assert name[|p|..|p| + 5] == " I/II";
    assert OccursAt(name, " I/II", |p|);
    forall j | 0 <= j < |p| ensures !OccursAt(name, " I/II", j) {
      if j + 5 <= |name| {
        if j + 5 <= |p| {
          assert name[j..j + 5][1..] == p[j + 1..j + 5];
          assert !OccursAt(p, "I/II", j + 1);
        } else {
          assert name[j..j + 5][|p| - j] == name[|p|] == ' ';
        }
      }
    }
  }

  /** A spaced combined name "base I/II rest" splits into "base rest I" and "base rest II". */
  lemma SplitCombinedSpaced(p: string, q: string)
    requires !Contains(p, "I/II") && !Contains(p + q, "I/II")
    ensures SplitCombined(p + " I/II" + q) == Some((p + q + " I", p + q + " II"))
  {
    var name := p + " I/II" + q;
    assert name[|p| + 1..|p| + 5] == "I/II";
    assert OccursAt(name, "I/II", |p| + 1);
    FirstSpacedOccurrence(p, q);
    assert name[..|p|] == p && name[|p| + 5..] == q;
    assert ReplaceFirst(name, " I/II", "") == p + q;
  }

  /**
   * An unspaced combined name "baseI/II rest", with no " I/II" anywhere and its first "I/II"
   * right after `p`, splits into "base rest I" and "base rest II".
   */
  lemma SplitCombinedUnspaced(p: string, q: string)
    requires !Contains(p + "I/II" + q, " I/II") && IndexOf(p + "I/II" + q, "I/II") == Some(|p|)
    ensures SplitCombined(p + "I/II" + q) == Some((p + q + " I", p + q + " II"))
  {
    var name := p + "I/II" + q;
    assert name[..|p|] == p && name[|p| + 4..] == q;
    assert ReplaceFirst(name, " I/II", "") == name;
    assert ReplaceFirst(name, "I/II", "") == p + q;
  }
}
