/**
 * The two `clean` helpers of server.js and the file names built with them.
 */
module Naming {
  import opened JsText

  /** The characters `/[^a-zA-Z0-9-_ ]/g` keeps. */
  predicate IsKeptChar(c: char) {
    IsAsciiLetter(c) || IsDigit(c) || c == '-' || c == '_' || c == ' '
  }

  /** The characters a cleaned form title may contain: `[A-Za-z0-9_-]`. */
  predicate IsSafeNameChar(c: char) {
    IsAsciiLetter(c) || IsDigit(c) || c == '-' || c == '_'
  }

  function KeepAllowed(s: string): (r: string)
    ensures forall i :: 0 <= i < |r| ==> IsKeptChar(r[i])
    ensures (forall i :: 0 <= i < |s| ==> IsKeptChar(s[i])) ==> r == s
  {
    if s == [] then []
    else if IsKeptChar(s[0]) then [s[0]] + KeepAllowed(s[1..])
    else KeepAllowed(s[1..])
  }

  /** A character is kept exactly when it is allowed. */
  lemma KeepAllowedOfChar(c: char)
    ensures KeepAllowed([c]) == if IsKeptChar(c) then [c] else []
  {
    assert [c][1..] == [];
  }

  /** The filter works character by character: it distributes over concatenation. */
  lemma {:induction false} KeepAllowedAppend(a: string, b: string)
    ensures KeepAllowed(a + b) == KeepAllowed(a) + KeepAllowed(b)
  {
    if a == [] {
      assert a + b == b;
    } else {
      assert (a + b)[0] == a[0];
      assert (a + b)[1..] == a[1..] + b;
      KeepAllowedAppend(a[1..], b);
    }
  }

  lemma {:induction false} ReplaceSpaceRunsOfKept(s: string)
    requires forall i :: 0 <= i < |s| ==> IsKeptChar(s[i])
    ensures forall i :: 0 <= i < |ReplaceSpaceRuns(s)| ==> IsSafeNameChar(ReplaceSpaceRuns(s)[i])
    decreases |s|
  {
    if s != [] {
      if IsJsSpace(s[0]) {
        var t := TrimStart(s[1..]);
        assert forall i :: 0 <= i < |t| ==> t[i] == s[|s| - |t| + i];
        ReplaceSpaceRunsOfKept(t);
      } else {
        ReplaceSpaceRunsOfKept(s[1..]);
      }
    }
  }

  /** The top-level `clean`: accents removed, other special characters dropped, space runs to "-". */
  function Clean(s: string): (r: string)
    ensures forall i :: 0 <= i < |r| ==> IsSafeNameChar(r[i])
  {
    RemoveAccentsLeavesNoMark(s);
    ReplaceSpaceRunsOfKept(KeepAllowed(RemoveAccents(s)));
    ReplaceSpaceRuns(KeepAllowed(RemoveAccents(s)))
  }

  /** Cleaning a cleaned name changes nothing. */
  lemma CleanIdempotent(s: string)
    ensures Clean(Clean(s)) == Clean(s)
  {
    var c := Clean(s);
    assert forall i :: 0 <= i < |c| ==> c[i] < '\U{C0}' && !IsCombiningMark(c[i]);
    RemoveAccentsOfPlain(c);
    assert KeepAllowed(c) == c;
    ReplaceSpaceRunsOfUnspaced(c);
  }

  /**
   * What the top-level `clean` promises on plain text: two words of
   * `[A-Za-z0-9_-]` separated by blanks come out joined by one "-".
   */
  lemma CleanJoinsWords(x: string, w: string, y: string)
    requires forall i :: 0 <= i < |x| ==> IsSafeNameChar(x[i])
    requires forall i :: 0 <= i < |y| ==> IsSafeNameChar(y[i])
    requires |w| > 0 && forall i :: 0 <= i < |w| ==> w[i] == ' '
    ensures Clean(x + w + y) == x + "-" + y
  {
    SafeWordIsPlain(x);
    SafeWordIsPlain(y);
    BlankRunIsPlain(w);
    PlainKeptAppend(x, w);
    PlainKeptAppend(x + w, y);
    CleanOfPlain(x + w + y);
    ReplaceSpaceRunsOfRun(x, w, y);
    ReplaceSpaceRunsOfUnspaced(y);
  }

  /** On ASCII text the filter keeps, `clean` only replaces the blank runs. */
  lemma CleanOfPlain(s: string)
    requires forall i :: 0 <= i < |s| ==> IsPlainKept(s[i])
    ensures Clean(s) == ReplaceSpaceRuns(s)
  {
    RemoveAccentsOfPlain(s);
    KeepAllowedOfKept(s);
  }

  /** An ASCII character the filter keeps. */
  predicate IsPlainKept(c: char) {
    IsKeptChar(c) && c < '\U{C0}' && !IsCombiningMark(c)
  }

  lemma SafeWordIsPlain(x: string)
    requires forall i :: 0 <= i < |x| ==> IsSafeNameChar(x[i])
    ensures forall i :: 0 <= i < |x| ==> IsPlainKept(x[i]) && !IsJsSpace(x[i])
  {
  }

  lemma BlankRunIsPlain(w: string)
    requires forall i :: 0 <= i < |w| ==> w[i] == ' '
    ensures forall i :: 0 <= i < |w| ==> IsPlainKept(w[i]) && IsJsSpace(w[i])
  {
  }

  lemma PlainKeptAppend(h: string, t: string)
    requires forall i :: 0 <= i < |h| ==> IsPlainKept(h[i])
    requires forall i :: 0 <= i < |t| ==> IsPlainKept(t[i])
    ensures forall i :: 0 <= i < |h + t| ==> IsPlainKept((h + t)[i])
  {
    assert forall i :: |h| <= i < |h + t| ==> (h + t)[i] == t[i - |h|];
  }

  lemma KeepAllowedOfKept(s: string)
    requires forall i :: 0 <= i < |s| ==> IsPlainKept(s[i])
    ensures KeepAllowed(s) == s
  {
    assert forall i :: 0 <= i < |s| ==> IsKeptChar(s[i]);
  }

  /**
   * The `clean` declared inside the `/submit` handler, which shadows the
   * top-level one there: it removes accents and turns space runs into "-",
   * but keeps every other character.
   */
  function CleanName(s: string): (r: string)
    ensures forall i :: 0 <= i < |r| ==> !IsJsSpace(r[i]) && !IsCombiningMark(r[i])
  {
    RemoveAccentsLeavesNoMark(s);
    ReplaceSpaceRunsNoMarks(RemoveAccents(s));
    ReplaceSpaceRunsLeavesNoSpace(RemoveAccents(s));
    ReplaceSpaceRuns(RemoveAccents(s))
  }

  /** Every character of the ISO timestamp in `[:.]` becomes "-". */
  function DashTimestamp(iso: string): (r: string)
    ensures |r| == |iso|
    ensures forall i :: 0 <= i < |r| ==> r[i] != ':' && r[i] != '.'
    ensures forall i :: 0 <= i < |r| && iso[i] != ':' && iso[i] != '.' ==> r[i] == iso[i]
  {
    if iso == [] then []
    else [if iso[0] == ':' || iso[0] == '.' then '-' else iso[0]] + DashTimestamp(iso[1..])
  }

  /** The name of the raw snapshot; the ISO timestamp is an input, since it is read from the clock. */
  function SnapshotName(lastName: string, firstName: string, iso: string): string {
    "responses-" + CleanName(lastName) + SnapshotTail(firstName, iso)
  }

  function SnapshotTail(firstName: string, iso: string): string {
    "-" + CleanName(firstName) + "-" + DashTimestamp(iso) + ".json"
  }

  /**
   * The snapshot name is "responses-", the cleaned last name, "-", the
   * cleaned first name, "-", the dashed timestamp and ".json", each at its
   * place.
   */
  lemma SnapshotNameLayout(lastName: string, firstName: string, iso: string)
    ensures var s := SnapshotName(lastName, firstName, iso);
            var l := |CleanName(lastName)|;
            var f := |CleanName(firstName)|;
            && |s| == 17 + l + f + |iso|
            && s[..10] == "responses-" && s[10..10 + l] == CleanName(lastName) && s[10 + l] == '-'
            && s[11 + l..11 + l + f] == CleanName(firstName) && s[11 + l + f] == '-'
            && s[12 + l + f..|s| - 5] == DashTimestamp(iso) && s[|s| - 5..] == ".json"
  {
    PartsAtTheirPlace(CleanName(lastName), CleanName(firstName), DashTimestamp(iso));
  }

  lemma PartsAtTheirPlace(L: string, F: string, D: string)
    ensures var s := "responses-" + L + ("-" + F + "-" + D + ".json");
            var l := |L|;
            var f := |F|;
            && |s| == 17 + l + f + |D|
            && s[..10] == "responses-" && s[10..10 + l] == L && s[10 + l] == '-'
            && s[11 + l..11 + l + f] == F && s[11 + l + f] == '-'
            && s[12 + l + f..|s| - 5] == D && s[|s| - 5..] == ".json"
  {
  }

  /** `s.replace(pat, rep)` with a string pattern: only the first occurrence is replaced. */
  function ReplaceFirst(s: string, pat: string, rep: string): string
    decreases |s|
  {
    if |s| < |pat| then s
    else if s[..|pat|] == pat then rep + s[|pat|..]
    else [s[0]] + ReplaceFirst(s[1..], pat, rep)
  }

  lemma {:induction false} ReplaceFirstAt(x: string, pat: string, y: string, rep: string)
    requires forall i :: 0 <= i < |x| ==> !OccursAt(x + pat + y, pat, i)
    ensures ReplaceFirst(x + pat + y, pat, rep) == x + rep + y
    decreases |x|
  {
    var s := x + pat + y;
    if x == [] {
      assert s == pat + y;
      assert s[..|pat|] == pat;
      assert s[|pat|..] == y;
    } else {
      ReplaceFirstStep(x, pat, y);
      ReplaceFirstAt(x[1..], pat, y, rep);
      assert [x[0]] + (x[1..] + rep + y) == x + rep + y;
    }
  }

  /** Removing the first character of `x` keeps the first occurrence of `pat` after `x`. */
  lemma ReplaceFirstStep(x: string, pat: string, y: string)
    requires x != []
    requires forall i :: 0 <= i < |x| ==> !OccursAt(x + pat + y, pat, i)
    ensures x + pat + y == [x[0]] + (x[1..] + pat + y)
    ensures |x + pat + y| >= |pat| && (x + pat + y)[..|pat|] != pat
    ensures (x + pat + y)[1..] == x[1..] + pat + y
    ensures forall i :: 0 <= i < |x| - 1 ==> !OccursAt(x[1..] + pat + y, pat, i)
  {
    var s := x + pat + y;
    var s' := x[1..] + pat + y;
    assert s == [x[0]] + s';
    assert !OccursAt(s, pat, 0);
    forall i | 0 <= i < |x| - 1 ensures !OccursAt(s', pat, i) {
      assert !OccursAt(s, pat, i + 1);
      assert s[i + 1..i + 1 + |pat|] == s'[i..i + |pat|];
    }
  }

  /** The workbook path of `/submit` as written: the first ".json" of the snapshot name becomes ".xlsx". */
  function ExcelNameAsWritten(snapshot: string): string {
    ReplaceFirst(snapshot, ".json", ".xlsx")
  }

  /**
   * A last name that itself contains ".json" (the handler's `clean` keeps
   * points) receives the replacement, and the workbook keeps the ".json"
   * extension of the snapshot.
   */
  lemma ExcelNameAsWrittenMisses(firstName: string, iso: string)
    ensures var name := ExcelNameAsWritten(SnapshotName(".json", firstName, iso));
            |name| >= 5 && name[|name| - 5..] == ".json"
  {
    SnapshotOfJsonLastName(firstName, iso);
    TailIsJson(firstName, iso);
    ReplacedPrefixKeepsJson(SnapshotTail(firstName, iso));
  }

  lemma ReplacedPrefixKeepsJson(y: string)
    requires |y| >= 5 && y[|y| - 5..] == ".json"
    ensures var name := ExcelNameAsWritten("responses-" + ".json" + y);
            |name| >= 5 && name[|name| - 5..] == ".json"
  {
    NoPointInPrefix(y);
    ReplaceFirstAt("responses-", ".json", y, ".xlsx");
    var name := "responses-" + ".xlsx" + y;
    assert name[|name| - 5..] == y[|y| - 5..];
  }


  lemma TailIsJson(firstName: string, iso: string)
    ensures var y := SnapshotTail(firstName, iso);
            |y| >= 5 && y[|y| - 5..] == ".json"
  {
  }

  lemma SnapshotOfJsonLastName(firstName: string, iso: string)
    ensures SnapshotName(".json", firstName, iso)
         == "responses-" + ".json" + SnapshotTail(firstName, iso)
  {
    CleanNameOfJson();
  }

  lemma CleanNameOfJson()
    ensures CleanName(".json") == ".json"
  {
    var c := ".json";
    assert forall i :: 0 <= i < |c| ==> c[i] < '\U{C0}' && !IsCombiningMark(c[i]) && !IsJsSpace(c[i]);
    RemoveAccentsOfPlain(c);
  }

  lemma NoPointInPrefix(y: string)
    ensures forall i :: 0 <= i < 10 ==> !OccursAt("responses-" + ".json" + y, ".json", i)
  {
    var x := "responses-";
    forall i | 0 <= i < 10 ensures !OccursAt(x + ".json" + y, ".json", i) {
      assert (x + ".json" + y)[i] == x[i];
    }
  }

  /** The workbook path as intended: the snapshot name with its final ".json" replaced by ".xlsx". */
  function ExcelName(snapshot: string): (r: string)
    requires |snapshot| >= 5 && snapshot[|snapshot| - 5..] == ".json"
    ensures |r| == |snapshot| && r[..|r| - 5] == snapshot[..|snapshot| - 5]
    ensures r[|r| - 5..] == ".xlsx"
  {
    snapshot[..|snapshot| - 5] + ".xlsx"
  }

  /** When ".json" occurs only at its end, the code's `replace` gives the intended name. */
  lemma ExcelNameAsWrittenAgrees(snapshot: string)
    requires |snapshot| >= 5 && snapshot[|snapshot| - 5..] == ".json"
    requires NoJsonBefore(snapshot, |snapshot| - 5)
    ensures ExcelNameAsWritten(snapshot) == ExcelName(snapshot)
  {
    var x := snapshot[..|snapshot| - 5];
    assert snapshot == x + ".json" + "";
    ReplaceFirstAt(x, ".json", "", ".xlsx");
    assert x + ".xlsx" + "" == x + ".xlsx";
  }

  /**
   * When neither cleaned name contains ".json", the snapshot name holds
   * ".json" only as its extension, so the code's workbook name is the
   * intended one.
   */
  lemma ExcelNameAgreesForPlainNames(lastName: string, firstName: string, iso: string)
    requires !Contains(CleanName(lastName), ".json") && !Contains(CleanName(firstName), ".json")
    ensures var s := SnapshotName(lastName, firstName, iso);
            && |s| >= 5 && s[|s| - 5..] == ".json"
            && ExcelNameAsWritten(s) == ExcelName(s)
  {
    SnapshotNameIsJson(lastName, firstName, iso);
    SnapshotJsonOnlyAtEnd(lastName, firstName, iso);
    ExcelNameAsWrittenAgrees(SnapshotName(lastName, firstName, iso));
  }

  lemma SnapshotJsonOnlyAtEnd(lastName: string, firstName: string, iso: string)
    requires !Contains(CleanName(lastName), ".json") && !Contains(CleanName(firstName), ".json")
    ensures var s := SnapshotName(lastName, firstName, iso);
            NoJsonBefore(s, |s| - 5)
  {
    JsonOnlyAtEnd(CleanName(lastName), CleanName(firstName), DashTimestamp(iso));
  }

  lemma JsonOnlyAtEnd(L: string, F: string, D: string)
    requires !Contains(L, ".json") && !Contains(F, ".json")
    requires forall i :: 0 <= i < |D| ==> D[i] != '.'
    ensures var s := "responses-" + L + ("-" + F + "-" + D + ".json");
            NoJsonBefore(s, |s| - 5)
  {
    ContainsIff(L, ".json");
    ContainsIff(F, ".json");
    var w3 := D + ".json";
    forall i | 0 <= i < |D| ensures !OccursAt(w3, ".json", i) {
      assert w3[i..i + 5][0] == D[i];
    }
    var w2 := F + "-" + w3;
    JoinAtDash(F, w3, |D|);
    var w1 := L + "-" + w2;
    JoinAtDash(L, w2, |F| + 1 + |D|);
    forall i | 0 <= i < 9 ensures !OccursAt("responses", ".json", i) {
      if i + 5 <= 9 {
        assert "responses"[i..i + 5][0] == "responses"[i];
      }
    }
    JoinAtDash("responses", w1, |L| + 1 + |F| + 1 + |D|);
    assert "responses-" + L + ("-" + F + "-" + D + ".json") == "responses" + "-" + w1;
  }

  /** No ".json" starts before position n of s. */
  predicate NoJsonBefore(s: string, n: int) {
    forall i :: 0 <= i < n ==> !OccursAt(s, ".json", i)
  }

  /** A "-" between two parts without ".json" keeps ".json" from straddling them. */
  lemma JoinAtDash(u: string, w: string, m: int)
    requires NoJsonBefore(u, |u|) && NoJsonBefore(w, m)
    ensures NoJsonBefore(u + "-" + w, |u| + 1 + m)
  {
    var s := u + "-" + w;
    forall i | 0 <= i < |u| + 1 + m && i + 5 <= |s| ensures !OccursAt(s, ".json", i) {
      if i + 5 <= |u| {
        assert s[i..i + 5] == u[i..i + 5];
        assert !OccursAt(u, ".json", i);
      } else if i <= |u| {
        assert s[i..i + 5][|u| - i] == s[|u|] == '-';
      } else {
        assert s[i..i + 5] == w[i - |u| - 1..i - |u| + 4];
        assert !OccursAt(w, ".json", i - |u| - 1);
      }
    }
  }

  lemma SnapshotNameIsJson(lastName: string, firstName: string, iso: string)
    ensures var s := SnapshotName(lastName, firstName, iso);
            |s| >= 5 && s[|s| - 5..] == ".json"
  {
  }

  /** The workbook written by `/submit-radar`. */
  function RadarFileName(formTitle: string): (r: string)
    ensures |r| >= 11 && r[..6] == "radar-" && r[|r| - 5..] == ".xlsx"
    ensures forall i :: 6 <= i < |r| - 5 ==> IsSafeNameChar(r[i])
  {
    "radar-" + Clean(formTitle) + ".xlsx"
  }
}
