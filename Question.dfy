/**
 * The split of a question into an ordinal and a display text, done in
 * server.js with `q.match(/^(\d+)[^\w]*(.*)$/)`: group 1 is the ordinal,
 * group 2 the text, and when the match is null the ordinal is "" and the
 * text is the whole question.
 */
module Question {
  import opened Wrappers
  import opened JsText
  import opened JsNumber

  datatype Parts = Parts(number: string, text: string)

  /** Length of the run of non-word characters at the start of s. */
  function NonWordRun(s: string): (n: nat)
    ensures n <= |s|
    ensures forall i :: 0 <= i < n ==> !IsWordChar(s[i])
    ensures n == |s| || IsWordChar(s[n])
  {
    if s != [] && !IsWordChar(s[0]) then 1 + NonWordRun(s[1..]) else 0
  }

  predicate NoLineTerminator(t: string) {
    forall i :: 0 <= i < |t| ==> !IsLineTerminator(t[i])
  }

  predicate AllNonWord(s: string) {
    forall i :: 0 <= i < |s| ==> !IsWordChar(s[i])
  }

  /**
   * The pattern, read as a relation: q is d + sep + t with d one or more
   * digits (`(\d+)`), sep non-word characters (`[^\w]*`) and t free of
   * line terminators (`(.*)$`, where `.` stops at a line terminator and
   * `$` is the end of the input).
   */
  ghost predicate PatternMatches(q: string, d: string, sep: string, t: string) {
    q == d + sep + t && |d| > 0 && AllDigits(d) && AllNonWord(sep) && NoLineTerminator(t)
  }

  /** The two capture groups, or `None` when `match` returns null. */
  function MatchQuestion(q: string): Option<(string, string)> {
    var n := DigitRun(q);
    var k := NonWordRun(q[n..]);
    var t := q[n + k..];
    if n > 0 && NoLineTerminator(t) then Some((q[..n], t)) else None
  }

  function SplitQuestion(q: string): (p: Parts)
    // no ordinal: the whole question is the text
    ensures p.number == "" ==> p.text == q
    // an ordinal: the maximal run of leading digits, then the text after all the separators
    ensures p.number != "" ==>
              && |p.number| <= |q| && AllDigits(p.number) && q[..|p.number|] == p.number
              && (|q| == |p.number| || !IsDigit(q[|p.number|]))
              && |p.number| + |p.text| <= |q| && q[|q| - |p.text|..] == p.text
              && AllNonWord(q[|p.number|..|q| - |p.text|])
              && (p.text == [] || IsWordChar(p.text[0]))
              && NoLineTerminator(p.text)
  {
    match MatchQuestion(q)
    case Some((number, text)) => Parts(number, text)
    case None => Parts("", q)
  }

  lemma {:induction false} NonWordRunAtLeast(s: string, sep: string, rest: string)
    requires s == sep + rest && AllNonWord(sep)
    ensures |sep| <= NonWordRun(s)
    decreases |sep|
  {
    if sep != [] {
      assert s[1..] == sep[1..] + rest;
      NonWordRunAtLeast(s[1..], sep[1..], rest);
    }
  }

  lemma {:induction false} DigitRunAtLeast(s: string, d: string, rest: string)
    requires s == d + rest && AllDigits(d)
    ensures |d| <= DigitRun(s)
    decreases |d|
  {
    if d != [] {
      assert s[1..] == d[1..] + rest;
      DigitRunAtLeast(s[1..], d[1..], rest);
    }
  }

  lemma {:induction false} NonWordRunExact(sep: string, rest: string)
    requires AllNonWord(sep) && (rest == [] || IsWordChar(rest[0]))
    ensures NonWordRun(sep + rest) == |sep|
    decreases |sep|
  {
    if sep != [] {
      assert (sep + rest)[1..] == sep[1..] + rest;
      NonWordRunExact(sep[1..], rest);
    } else {
      assert sep + rest == rest;
    }
  }

  /** Whatever the match returns is a way of reading q against the pattern. */
  lemma MatchSound(q: string)
    requires MatchQuestion(q).Some?
    ensures var (d, t) := MatchQuestion(q).value;
            PatternMatches(q, d, q[|d|..|q| - |t|], t)
  {
    var n := DigitRun(q);
    var k := NonWordRun(q[n..]);
    assert q == q[..n] + q[n..n + k] + q[n + k..];
  }

  /**
   * Whenever q can be read against the pattern at all, the match succeeds,
   * and it takes the longest ordinal and, for that ordinal, the longest run
   * of separators (the backtracking engine tries greedy choices first).
   */
  lemma MatchCompleteAndGreedy(q: string, d: string, sep: string, t: string)
    requires PatternMatches(q, d, sep, t)
    ensures MatchQuestion(q).Some?
    ensures var (d', t') := MatchQuestion(q).value;
            |d| <= |d'| && |t'| <= |t| && (|d| == |d'| ==> |sep| <= |q| - |d'| - |t'|)
  {
    var n := DigitRun(q);
    var k := NonWordRun(q[n..]);
    var m := |d| + |sep|;
    GreedyCovers(q, d, sep, t);
    assert q[m..] == t;
    // the greedy tail is a suffix of t, so it has no line terminator either
    DropOfDrop(q, m, n + k);
    NoLineTerminatorSuffix(t, n + k - m);
  }

  /** The greedy digit run and separator run reach at least as far as any reading of the pattern. */
  lemma GreedyCovers(q: string, d: string, sep: string, t: string)
    requires PatternMatches(q, d, sep, t)
    ensures var n := DigitRun(q);
            && |d| <= n && |d| + |sep| <= n + NonWordRun(q[n..])
            && (|d| == n ==> |sep| <= NonWordRun(q[n..]))
  {
    var n := DigitRun(q);
    assert q == d + (sep + t);
    DigitRunAtLeast(q, d, sep + t);
    if |d| < n {
      // sep cannot start with the digit q[|d|]: it is empty
      assert IsDigit(q[|d|]);
      assert sep == [];
    } else {
      assert q[n..] == sep + t;
      NonWordRunAtLeast(q[n..], sep, t);
    }
  }

  lemma DropOfDrop(q: string, m: int, j: int)
    requires 0 <= m <= j <= |q|
    ensures q[j..] == q[m..][j - m..]
  {
  }

  lemma NoLineTerminatorSuffix(t: string, j: int)
    requires NoLineTerminator(t) && 0 <= j <= |t|
    ensures NoLineTerminator(t[j..])
  {
    assert forall i :: 0 <= i < |t| - j ==> t[j..][i] == t[j + i];
  }

  /**
   * A question written as an ordinal, separators, and a text that starts
   * with a word character splits into exactly that ordinal and that text:
   * "3) Do analytics skills exist?" gives "3" and "Do analytics skills exist?".
   */
  lemma SplitNumbered(d: string, sep: string, t: string)
    requires |d| > 0 && AllDigits(d) && AllNonWord(sep)
    requires (t == [] || IsWordChar(t[0])) && NoLineTerminator(t)
    requires sep == [] && t != [] ==> !IsDigit(t[0])
    ensures SplitQuestion(d + sep + t) == Parts(d, t)
  {
    var q := d + sep + t;
    assert q == d + (sep + t);
    if sep != [] {
      assert !IsDigit((sep + t)[0]);
    } else if t != [] {
      assert (sep + t)[0] == t[0];
    }
    DigitRunOfDigits(d, sep + t);
    assert q[..|d|] == d;
    assert q[|d|..] == sep + t;
    NonWordRunExact(sep, t);
    assert q[|d| + |sep|..] == t;
  }

  /** A question without a leading number is kept whole, with an empty ordinal. */
  lemma SplitUnnumbered(q: string)
    requires q == [] || !IsDigit(q[0])
    ensures SplitQuestion(q) == Parts("", q)
  {
  }

  /**
   * `\w` is ASCII-only, so a leading letter outside ASCII is taken for a
   * separator and dropped with it: "1. \U{C9}valuation" gives "1" and
   * "valuation".
   */
  lemma SplitDropsNonAsciiInitial(d: string, sep: string, c: char, t: string)
    requires |d| > 0 && AllDigits(d) && AllNonWord(sep) && c >= '\U{80}'
    requires (t == [] || IsWordChar(t[0])) && NoLineTerminator(t)
    ensures SplitQuestion(d + sep + [c] + t) == Parts(d, t)
  {
    var sep' := sep + [c];
    assert AllNonWord(sep') by {
      forall i | 0 <= i < |sep'| ensures !IsWordChar(sep'[i]) {
        if i < |sep| { assert sep'[i] == sep[i]; }
      }
    }
    assert d + sep + [c] + t == d + sep' + t;
    SplitNumbered(d, sep', t);
  }

  lemma SplitOfAccentedTitle()
    ensures SplitQuestion("1. \U{C9}valuation") == Parts("1", "valuation")
  {
    assert "1. \U{C9}valuation" == "1" + ". " + ['\U{C9}'] + "valuation";
    SplitDropsNonAsciiInitial("1", ". ", '\U{C9}', "valuation");
  }
}
