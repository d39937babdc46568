/**
 * The JavaScript string operations the server relies on: the character
 * classes of its regular expressions (`\d`, `\w`, `\s`, `.`), `trim`,
 * `toLowerCase`, `includes`, and the accent stripping written as
 * `normalize("NFD")` followed by removal of the marks U+0300..U+036F.
 */
module JsText {
  import opened Wrappers

  /** `\d` */
  predicate IsDigit(c: char) {
    '0' <= c <= '9'
  }

  predicate IsAsciiLetter(c: char) {
    'a' <= c <= 'z' || 'A' <= c <= 'Z'
  }

  /** `\w` of a regular expression without the `u` flag */
  predicate IsWordChar(c: char) {
    IsAsciiLetter(c) || IsDigit(c) || c == '_'
  }

  /** The LineTerminator characters, which `.` does not match. */
  predicate IsLineTerminator(c: char) {
    c == '\n' || c == '\r' || c == '\U{2028}' || c == '\U{2029}'
  }

  /** WhiteSpace and LineTerminator: `\s`, and what `trim` and `parseFloat` skip. */
  predicate IsJsSpace(c: char) {
    || c == '\t' || c == '\U{B}' || c == '\U{C}' || c == ' '
    || c == '\U{A0}' || c == '\U{1680}' || ('\U{2000}' <= c <= '\U{200A}')
    || c == '\U{202F}' || c == '\U{205F}' || c == '\U{3000}' || c == '\U{FEFF}'
    || IsLineTerminator(c)
  }

  /** The block U+0300..U+036F of combining diacritical marks. */
  predicate IsCombiningMark(c: char) {
    '\U{300}' <= c <= '\U{36F}'
  }

  // ---------------------------------------------------------------------
  // trim

  /** Length of the run of white space at the start of s. */
  function LeadingSpaces(s: string): (n: nat)
    ensures n <= |s|
    ensures forall i :: 0 <= i < n ==> IsJsSpace(s[i])
    ensures n == |s| || !IsJsSpace(s[n])
  {
    if s != [] && IsJsSpace(s[0]) then 1 + LeadingSpaces(s[1..]) else 0
  }

  /** Length of the run of white space at the end of s. */
  function TrailingSpaces(s: string): (n: nat)
    ensures n <= |s|
    ensures forall i :: |s| - n <= i < |s| ==> IsJsSpace(s[i])
    ensures n == |s| || !IsJsSpace(s[|s| - 1 - n])
  {
    if s != [] && IsJsSpace(s[|s| - 1]) then 1 + TrailingSpaces(s[..|s| - 1]) else 0
  }

  /** `trimStart`, which is also where `parseFloat` starts reading. */
  function TrimStart(s: string): string {
    s[LeadingSpaces(s)..]
  }

  lemma TrimStartOfNonSpace(s: string)
    requires s == [] || !IsJsSpace(s[0])
    ensures TrimStart(s) == s
  {
  }

  function TrimEnd(s: string): string {
    s[..|s| - TrailingSpaces(s)]
  }

  /** `String.prototype.trim` */
  function Trim(s: string): string {
    TrimEnd(TrimStart(s))
  }

  /** `trim` yields the longest infix without white space at either end. */
  lemma TrimEnds(s: string)
    ensures var r := Trim(s);
            && (r == [] || (!IsJsSpace(r[0]) && !IsJsSpace(r[|r| - 1])))
            && ((forall i :: 0 <= i < |s| ==> IsJsSpace(s[i])) ==> r == [])
            && (|s| > 0 && !IsJsSpace(s[0]) && !IsJsSpace(s[|s| - 1]) ==> r == s)
    ensures exists a, b :: && 0 <= a <= b <= |s| && Trim(s) == s[a..b]
                           && (forall i :: 0 <= i < a ==> IsJsSpace(s[i]))
                           && (forall i :: b <= i < |s| ==> IsJsSpace(s[i]))
  {
    var a := LeadingSpaces(s);
    var t := s[a..];
    var b := TrailingSpaces(t);
    var r := t[..|t| - b];
    var e := a + |t| - b;
    assert r == s[a..e];
    forall i | e <= i < |s| ensures IsJsSpace(s[i]) {
      assert s[i] == t[i - a];
    }
    if r != [] {
      assert r[0] == s[a];
      assert r[|r| - 1] == t[|t| - 1 - b];
    }
    if a < |s| {
      assert !IsJsSpace(s[a]);
    }
    if |s| > 0 && !IsJsSpace(s[0]) && !IsJsSpace(s[|s| - 1]) {
      assert a == 0 && t == s;
      assert b == 0;
    }
  }

  /** Trim gives "" only when every character is white space. */
  lemma TrimOfSpaces(s: string)
    requires Trim(s) == ""
    ensures forall i :: 0 <= i < |s| ==> IsJsSpace(s[i])
  {
    var a := LeadingSpaces(s);
    if a < |s| {
      assert false;
    }
  }

  /** `trim` gives "" exactly for text made of white space only. */
  lemma TrimEmptyIffSpaces(s: string)
    ensures Trim(s) == "" <==> forall i :: 0 <= i < |s| ==> IsJsSpace(s[i])
  {
    TrimEnds(s);
    if Trim(s) == "" {
      TrimOfSpaces(s);
    }
  }

  // ---------------------------------------------------------------------
  // toLowerCase (ASCII and Latin-1 letters)

  /** The capital letters `toLowerCase` changes in this model: ASCII and Latin-1. */
  predicate IsCapital(c: char) {
    'A' <= c <= 'Z' || ('\U{C0}' <= c <= '\U{DE}' && c != '\U{D7}')
  }

  function LowerChar(c: char): char {
    if IsCapital(c) then
      (c as int + 32) as char
    else
      c
  }

  function Lower(s: string): string {
    seq(|s|, i requires 0 <= i < |s| => LowerChar(s[i]))
  }

  /**
   * `toLowerCase` keeps the length, leaves no capital, changes nothing but
   * capitals, and lower-casing twice is lower-casing once.
   */
  lemma LowerFolds(s: string)
    ensures |Lower(s)| == |s|
    ensures forall i :: 0 <= i < |s| ==> !IsCapital(Lower(s)[i])
    ensures forall i :: 0 <= i < |s| && !IsCapital(s[i]) ==> Lower(s)[i] == s[i]
    ensures Lower(Lower(s)) == Lower(s)
  {
    LowerOfUncapitalized(Lower(s));
  }

  lemma LowerOfUncapitalized(s: string)
    requires forall i :: 0 <= i < |s| ==> !IsCapital(s[i])
    ensures Lower(s) == s
  {
    assert forall i :: 0 <= i < |s| ==> Lower(s)[i] == s[i];
  }

  // ---------------------------------------------------------------------
  // includes

  predicate OccursAt(s: string, sub: string, i: int) {
    0 <= i && i + |sub| <= |s| && s[i..i + |sub|] == sub
  }

  /** `s.includes(sub)` */
  function Contains(s: string, sub: string): bool
    decreases |s|
  {
    if |s| < |sub| then false
    else if s[..|sub|] == sub then true
    else Contains(s[1..], sub)
  }

  lemma {:induction false} ContainsIff(s: string, sub: string)
    ensures Contains(s, sub) <==> exists i :: OccursAt(s, sub, i)
    decreases |s|
  {
    if |s| < |sub| {
    } else if s[..|sub|] == sub {
      assert OccursAt(s, sub, 0);
    } else {
      ContainsIff(s[1..], sub);
      if Contains(s[1..], sub) {
        var i :| OccursAt(s[1..], sub, i);
        assert s[i + 1..i + 1 + |sub|] == s[1..][i..i + |sub|];
        assert OccursAt(s, sub, i + 1);
      }
      if exists i :: OccursAt(s, sub, i) {
        var i :| OccursAt(s, sub, i);
        assert i != 0;
        assert s[1..][i - 1..i - 1 + |sub|] == s[i..i + |sub|];
        assert OccursAt(s[1..], sub, i - 1);
      }
    }
  }

  // ---------------------------------------------------------------------
  // normalize("NFD") over the Latin-1 letters, then mark stripping

  /** The marks of the letters based on E, I and U: grave, acute, circumflex, diaeresis. */
  function FourMarks(k: int): char {
    if k == 0 then '\U{300}' else if k == 1 then '\U{301}' else if k == 2 then '\U{302}' else '\U{308}'
  }

  /** The marks of the letters based on A and O: grave, acute, circumflex, tilde, diaeresis, ring. */
  function SixMarks(k: int): char {
    if k < 3 then FourMarks(k) else if k == 3 then '\U{303}' else if k == 4 then '\U{308}' else '\U{30A}'
  }

  /**
   * The canonical decomposition of a capital letter of U+00C0..U+00DF: its
   * base letter and its mark, or None for the letters without one.
   */
  function DecomposeCapital(c: char): Option<(char, char)> {
    if '\U{C0}' <= c <= '\U{C5}' then Some(('A', SixMarks(c as int - 0xC0)))
    else if c == '\U{C7}' then Some(('C', '\U{327}'))
    else if '\U{C8}' <= c <= '\U{CB}' then Some(('E', FourMarks(c as int - 0xC8)))
    else if '\U{CC}' <= c <= '\U{CF}' then Some(('I', FourMarks(c as int - 0xCC)))
    else if c == '\U{D1}' then Some(('N', '\U{303}'))
    else if '\U{D2}' <= c <= '\U{D6}' then Some(('O', SixMarks(c as int - 0xD2)))
    else if '\U{D9}' <= c <= '\U{DC}' then Some(('U', FourMarks(c as int - 0xD9)))
    else if c == '\U{DD}' then Some(('Y', '\U{301}'))
    else None
  }

  /** NFD of one character: the Latin-1 letters and U+0178 decompose, the rest stay. */
  function DecomposeChar(c: char): (r: string)
    ensures c < '\U{C0}' ==> r == [c]
  {
    if '\U{C0}' <= c <= '\U{DF}' && DecomposeCapital(c).Some? then
      [DecomposeCapital(c).value.0, DecomposeCapital(c).value.1]
    else if '\U{E0}' <= c <= '\U{FE}' && DecomposeCapital((c as int - 32) as char).Some? then
      var (base, mark) := DecomposeCapital((c as int - 32) as char).value;
      [(base as int + 32) as char, mark]
    else if c == '\U{FF}' then
      ['y', '\U{308}']
    else if c == '\U{178}' then
      ['Y', '\U{308}']
    else
      [c]
  }

  function Decompose(s: string): string {
    if s == [] then [] else DecomposeChar(s[0]) + Decompose(s[1..])
  }

  /** Text below U+00C0 has nothing to decompose. */
  lemma {:induction false} DecomposeOfUnaccented(s: string)
    requires forall i :: 0 <= i < |s| ==> s[i] < '\U{C0}'
    ensures Decompose(s) == s
  {
    if s != [] {
      assert s[0] < '\U{C0}';
      DecomposeOfUnaccented(s[1..]);
      assert s == [s[0]] + s[1..];
    }
  }

  function StripMarks(s: string): string {
    if s == [] then []
    else if IsCombiningMark(s[0]) then StripMarks(s[1..])
    else [s[0]] + StripMarks(s[1..])
  }

  /** No combining mark survives. */
  lemma {:induction false} StripMarksLeavesNoMark(s: string)
    ensures forall i :: 0 <= i < |StripMarks(s)| ==> !IsCombiningMark(StripMarks(s)[i])
  {
    if s != [] {
      StripMarksLeavesNoMark(s[1..]);
    }
  }

  /** Text without combining marks is kept as it is. */
  lemma {:induction false} StripMarksOfUnmarked(s: string)
    requires forall i :: 0 <= i < |s| ==> !IsCombiningMark(s[i])
    ensures StripMarks(s) == s
  {
    if s != [] {
      assert !IsCombiningMark(s[0]);
      StripMarksOfUnmarked(s[1..]);
      assert s == [s[0]] + s[1..];
    }
  }

  /** The mark removal keeps a character exactly when it is not a mark. */
  lemma StripMarksOfChar(c: char)
    ensures StripMarks([c]) == if IsCombiningMark(c) then [] else [c]
  {
    assert [c][1..] == [];
  }

  /** The mark removal works character by character: it distributes over concatenation. */
  lemma {:induction false} StripMarksAppend(a: string, b: string)
    ensures StripMarks(a + b) == StripMarks(a) + StripMarks(b)
  {
    if a == [] {
      assert a + b == b;
    } else {
      assert (a + b)[0] == a[0];
      assert (a + b)[1..] == a[1..] + b;
      StripMarksAppend(a[1..], b);
    }
  }

  /** The accent removal leaves no combining mark. */
  lemma RemoveAccentsLeavesNoMark(s: string)
    ensures forall i :: 0 <= i < |RemoveAccents(s)| ==> !IsCombiningMark(RemoveAccents(s)[i])
  {
    StripMarksLeavesNoMark(Decompose(s));
  }

  /** Text below U+00C0 without combining marks keeps its accents-free form. */
  lemma RemoveAccentsOfPlain(s: string)
    requires forall i :: 0 <= i < |s| ==> s[i] < '\U{C0}' && !IsCombiningMark(s[i])
    ensures RemoveAccents(s) == s
  {
    DecomposeOfUnaccented(s);
    StripMarksOfUnmarked(s);
  }

  /** `normalize("NFD")` and then removal of every mark U+0300..U+036F. */
  function RemoveAccents(s: string): string {
    StripMarks(Decompose(s))
  }

  /** The theme-key normalization of server.js: accents removed, then lower case. */
  function NormalizeKey(key: string): string {
    Lower(RemoveAccents(key))
  }

  /** A character the key normalization leaves as it is. */
  predicate IsNormalChar(c: char) {
    !IsCombiningMark(c) && DecomposeChar(c) == [c] && !IsCapital(c)
  }

  /** A normalized key consists of normal characters, so normalizing it again changes nothing. */
  lemma NormalizeKeyIdempotent(key: string)
    ensures forall i :: 0 <= i < |NormalizeKey(key)| ==> IsNormalChar(NormalizeKey(key)[i])
    ensures NormalizeKey(NormalizeKey(key)) == NormalizeKey(key)
  {
    var d := Decompose(key);
    DecomposeParts(key);
    StripMarksKeepsStable(d);
    var u := StripMarks(d);
    forall i | 0 <= i < |u| ensures IsNormalChar(Lower(u)[i]) {
      LowerOfStable(u[i]);
    }
    NormalizeKeyOfNormal(NormalizeKey(key));
  }

  /** A character NFD leaves alone, or one that is not a capital: lower-casing it gives a normal character. */
  lemma LowerOfStable(c: char)
    requires !IsCombiningMark(c) && DecomposeChar(c) == [c]
    ensures IsNormalChar(LowerChar(c))
  {
    if '\U{C0}' <= c <= '\U{DE}' && c != '\U{D7}' {
      assert DecomposeCapital(c).None?;
      assert DecomposeCapital(((LowerChar(c) as int) - 32) as char) == DecomposeCapital(c);
    }
  }

  /** A combining mark, or a character NFD leaves alone. */
  predicate IsMarkOrStable(c: char) {
    IsCombiningMark(c) || DecomposeChar(c) == [c]
  }

  /** Every character NFD yields is a combining mark or decomposes to itself. */
  lemma {:induction false} DecomposeParts(s: string)
    ensures forall i :: 0 <= i < |Decompose(s)| ==> IsMarkOrStable(Decompose(s)[i])
  {
    if s != [] {
      DecomposeParts(s[1..]);
      DecomposeCharParts(s[0]);
      AllAppend(DecomposeChar(s[0]), Decompose(s[1..]));
    }
  }

  lemma DecomposeCharParts(c: char)
    ensures forall i :: 0 <= i < |DecomposeChar(c)| ==> IsMarkOrStable(DecomposeChar(c)[i])
  {
    var h := DecomposeChar(c);
    if |h| == 2 {
      assert h[0] < '\U{C0}';
      assert IsCombiningMark(h[1]);
    }
  }

  lemma AllAppend(h: string, t: string)
    requires forall i :: 0 <= i < |h| ==> IsMarkOrStable(h[i])
    requires forall i :: 0 <= i < |t| ==> IsMarkOrStable(t[i])
    ensures forall i :: 0 <= i < |h + t| ==> IsMarkOrStable((h + t)[i])
  {
    assert forall i :: |h| <= i < |h + t| ==> (h + t)[i] == t[i - |h|];
  }

  lemma {:induction false} StripMarksKeepsStable(s: string)
    requires forall i :: 0 <= i < |s| ==> IsMarkOrStable(s[i])
    ensures forall i :: 0 <= i < |StripMarks(s)| ==>
              !IsCombiningMark(StripMarks(s)[i]) && DecomposeChar(StripMarks(s)[i]) == [StripMarks(s)[i]]
  {
    if s != [] {
      assert forall i :: 0 <= i < |s| - 1 ==> s[1..][i] == s[i + 1];
      StripMarksKeepsStable(s[1..]);
    }
  }

  lemma {:induction false} DecomposeOfStable(s: string)
    requires forall i :: 0 <= i < |s| ==> DecomposeChar(s[i]) == [s[i]]
    ensures Decompose(s) == s
  {
    if s != [] {
      assert DecomposeChar(s[0]) == [s[0]];
      DecomposeOfStable(s[1..]);
      assert s == [s[0]] + s[1..];
    }
  }

  lemma NormalizeKeyOfNormal(s: string)
    requires forall i :: 0 <= i < |s| ==> IsNormalChar(s[i])
    ensures NormalizeKey(s) == s
  {
    DecomposeOfStable(s);
    StripMarksOfUnmarked(s);
    LowerOfUncapitalized(s);
  }

  // ---------------------------------------------------------------------
  // replace(/\s+/g, "-")

  function ReplaceSpaceRuns(s: string): string
    decreases |s|
  {
    if s == [] then []
    else if IsJsSpace(s[0]) then "-" + ReplaceSpaceRuns(TrimStart(s[1..]))
    else [s[0]] + ReplaceSpaceRuns(s[1..])
  }

  /** No white space survives. */
  lemma {:induction false} ReplaceSpaceRunsLeavesNoSpace(s: string)
    ensures forall i :: 0 <= i < |ReplaceSpaceRuns(s)| ==> !IsJsSpace(ReplaceSpaceRuns(s)[i])
    decreases |s|
  {
    if s != [] {
      if IsJsSpace(s[0]) {
        ReplaceSpaceRunsLeavesNoSpace(TrimStart(s[1..]));
      } else {
        ReplaceSpaceRunsLeavesNoSpace(s[1..]);
      }
    }
  }

  /** Text without white space is kept as it is. */
  lemma ReplaceSpaceRunsOfUnspaced(s: string)
    requires forall i :: 0 <= i < |s| ==> !IsJsSpace(s[i])
    ensures ReplaceSpaceRuns(s) == s
  {
    ReplaceSpaceRunsAfterWord(s, []);
    assert s + [] == s;
  }

  /** `LeadingSpaces` is the only length with white space before it and none at it. */
  lemma {:induction false} LeadingSpacesExact(s: string, k: nat)
    requires k <= |s| && forall i :: 0 <= i < k ==> IsJsSpace(s[i])
    requires k == |s| || !IsJsSpace(s[k])
    ensures LeadingSpaces(s) == k
  {
    if k > 0 {
      assert IsJsSpace(s[0]);
      assert forall i :: 0 <= i < k - 1 ==> s[1..][i] == s[i + 1];
      LeadingSpacesExact(s[1..], k - 1);
    }
  }

  /** After the first character of a white-space run, `trimStart` drops the rest of the run. */
  lemma TrimStartOfRun(w: string, y: string)
    requires forall i :: 0 <= i < |w| ==> IsJsSpace(w[i])
    requires y == [] || !IsJsSpace(y[0])
    ensures TrimStart(w + y) == y
  {
    var s := w + y;
    assert forall i :: 0 <= i < |w| ==> s[i] == w[i];
    assert |w| < |s| ==> s[|w|] == y[0];
    LeadingSpacesExact(s, |w|);
    assert s[|w|..] == y;
  }

  /**
   * A maximal run of white space becomes one "-", and the characters
   * before it are kept: with x free of white space, w a non-empty run
   * and y not starting with white space, x + w + y gives x + "-" and
   * then what y gives.
   */
  lemma ReplaceSpaceRunsOfRun(x: string, w: string, y: string)
    requires forall i :: 0 <= i < |x| ==> !IsJsSpace(x[i])
    requires |w| > 0 && forall i :: 0 <= i < |w| ==> IsJsSpace(w[i])
    requires y == [] || !IsJsSpace(y[0])
    ensures ReplaceSpaceRuns(x + w + y) == x + "-" + ReplaceSpaceRuns(y)
  {
    assert x + w + y == x + (w + y);
    ReplaceSpaceRunsAfterWord(x, w + y);
    ReplaceSpaceRunsAtRun(w, y);
  }

  /** Text without white space is copied as it is, whatever follows it. */
  lemma {:induction false} ReplaceSpaceRunsAfterWord(x: string, t: string)
    requires forall i :: 0 <= i < |x| ==> !IsJsSpace(x[i])
    ensures ReplaceSpaceRuns(x + t) == x + ReplaceSpaceRuns(t)
    decreases |x|
  {
    if x != [] {
      var c, x' := x[0], x[1..];
      assert forall i :: 0 <= i < |x'| ==> x'[i] == x[i + 1];
      ReplaceSpaceRunsAfterWord(x', t);
      var u := x' + t;
      ReplaceSpaceRunsKeeps(c, u);
      assert x + t == [c] + u;
      assert [c] + (x' + ReplaceSpaceRuns(t)) == x + ReplaceSpaceRuns(t);
    } else {
      assert x + t == t;
      assert x + ReplaceSpaceRuns(t) == ReplaceSpaceRuns(t);
    }
  }

  lemma ReplaceSpaceRunsAtRun(w: string, y: string)
    requires |w| > 0 && forall i :: 0 <= i < |w| ==> IsJsSpace(w[i])
    requires y == [] || !IsJsSpace(y[0])
    ensures ReplaceSpaceRuns(w + y) == "-" + ReplaceSpaceRuns(y)
  {
    var s := w + y;
    assert s[0] == w[0];
    assert s[1..] == w[1..] + y;
    TrimStartOfRun(w[1..], y);
  }

  lemma ReplaceSpaceRunsKeeps(c: char, t: string)
    requires !IsJsSpace(c)
    ensures ReplaceSpaceRuns([c] + t) == [c] + ReplaceSpaceRuns(t)
  {
    assert ([c] + t)[0] == c;
    assert ([c] + t)[1..] == t;
  }

  lemma {:induction false} ReplaceSpaceRunsNoMarks(s: string)
    requires forall i :: 0 <= i < |s| ==> !IsCombiningMark(s[i])
    ensures forall i :: 0 <= i < |ReplaceSpaceRuns(s)| ==> !IsCombiningMark(ReplaceSpaceRuns(s)[i])
    decreases |s|
  {
    if s != [] {
      if IsJsSpace(s[0]) {
        var t := TrimStart(s[1..]);
        assert forall i :: 0 <= i < |t| ==> t[i] == s[|s| - |t| + i];
        ReplaceSpaceRunsNoMarks(t);
      } else {
        ReplaceSpaceRunsNoMarks(s[1..]);
      }
    }
  }
}
