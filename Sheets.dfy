/**
 * The rows the `/submit` handler derives from scored and summary sections,
 * and the two worksheets of its workbook ("Réponses par thématique" and
 * "Résumé synthétique"), built by their own passes over the submission.
 */
module Sheets {
  import opened Wrappers
  import opened JsText
  import opened JsNumber
  import opened Maturity
  import opened Question
  import opened Submission
  import opened Seqs

  /** One scored answer: theme, ordinal, display text and parsed note (`None` is NaN). */
  datatype DetailRow = DetailRow(theme: string, number: string, question: string, note: Option<real>)

  /** One summary line; a missing `theme` or `score` field is `None` (`undefined`). */
  datatype SummaryRow = SummaryRow(theme: Option<string>, score: Option<string>, recommendation: string)

  function Lookup(e: Entry, k: string): Option<string> {
    if k in e then Some(e[k]) else None
  }

  function ScoredRow(theme: string, e: Entry): DetailRow
    requires "note" in e && "question" in e
  {
    var p := SplitQuestion(e["question"]);
    DetailRow(theme, p.number, p.text, ParseFloat(e["note"]))
  }

  /** The rows of one scored array, one per element, in order. */
  function RowsOf(theme: string, elems: seq<Entry>): (rows: seq<DetailRow>)
    requires AllHave(elems, "note", "question")
    ensures |rows| == |elems|
    ensures forall i :: 0 <= i < |elems| ==> rows[i] == ScoredRow(theme, elems[i])
  {
    seq(|elems|, i requires 0 <= i < |elems| => ScoredRow(theme, elems[i]))
  }

  /**
   * A summary line: `theme` and `score` copied, the recommendation computed
   * from `score`. An absent score is `undefined`, whose `parseFloat` is NaN
   * (`AbsentScoreIsInvalid`).
   */
  function SummaryRowOf(e: Entry): SummaryRow {
    var s := Lookup(e, "score");
    SummaryRow(Lookup(e, "theme"), s, if s.Some? then GetRecommendation(s.value) else InvalidScore)
  }

  /** `getRecommendation(undefined)`: `parseFloat` reads the string "undefined". */
  lemma AbsentScoreIsInvalid()
    ensures GetRecommendation("undefined") == InvalidScore
  {
    TrimStartOfNonSpace("undefined");
  }

  /**
   * The recommendation is always recomputed from `score`, and a
   * "recommendation" field of the element is never consulted.
   */
  lemma SummaryRowRecomputed(e: Entry, given: string)
    ensures var row := SummaryRowOf(e);
            && row.theme == Lookup(e, "theme") && row.score == Lookup(e, "score")
            && row.recommendation == GetRecommendation(row.score.GetOr("undefined"))
    ensures SummaryRowOf(e["recommendation" := given]) == SummaryRowOf(e)
  {
    AbsentScoreIsInvalid();
    var e' := e["recommendation" := given];
    assert Lookup(e', "theme") == Lookup(e, "theme");
    assert Lookup(e', "score") == Lookup(e, "score");
  }

  function SummaryRows(elems: seq<Entry>): (rows: seq<SummaryRow>)
    ensures |rows| == |elems|
    ensures forall i :: 0 <= i < |elems| ==> rows[i] == SummaryRowOf(elems[i])
  {
    seq(|elems|, i requires 0 <= i < |elems| => SummaryRowOf(elems[i]))
  }

  /** The sections of xs that take branch b of the report loop, in order. */
  function Only(xs: Submission, b: Branch): (r: Submission)
    ensures |r| <= |xs|
    ensures forall i :: 0 <= i < |r| ==> Classify(r[i].0, r[i].1) == b
    ensures forall s :: s in r <==> s in xs && Classify(s.0, s.1) == b
  {
    if xs == [] then []
    else
      assert forall s :: s in xs <==> s == xs[0] || s in xs[1..];
      if Classify(xs[0].0, xs[0].1) == b then [xs[0]] + Only(xs[1..], b)
      else Only(xs[1..], b)
  }

  /** `Only` keeps the order of the sections: it distributes over concatenation. */
  lemma {:induction false} OnlyAppend(xs: Submission, ys: Submission, b: Branch)
    ensures Only(xs + ys, b) == Only(xs, b) + Only(ys, b)
    decreases |xs|
  {
    if xs == [] {
      assert xs + ys == ys;
    } else {
      assert (xs + ys)[0] == xs[0];
      assert (xs + ys)[1..] == xs[1..] + ys;
      OnlyAppend(xs[1..], ys, b);
      Assoc([xs[0]], Only(xs[1..], b), Only(ys, b));
    }
  }

  // ---------------------------------------------------------------------
  // Detail sheet

  /** Every section whose value is a scored array contributes its rows, whatever its key. */
  function DetailSheet(xs: Submission): seq<DetailRow> {
    if xs == [] then []
    else if IsScored(xs[0].1) then RowsOf(xs[0].0, xs[0].1.elems) + DetailSheet(xs[1..])
    else DetailSheet(xs[1..])
  }

  /** `sheetResponses.addRow` for every element of every scored array. */
  method BuildDetailSheet(data: Submission) returns (sheet: seq<DetailRow>)
    ensures sheet == DetailSheet(data)
  {
    sheet := [];
    var i := 0;
    while i < |data|
      invariant 0 <= i <= |data|
      invariant sheet + DetailSheet(data[i..]) == DetailSheet(data)
    {
      assert data[i..][1..] == data[i + 1..];
      var (theme, responses) := data[i];
      if IsScored(responses) {
        sheet := AddScoredRows(sheet, theme, responses.elems);
      }
      i := i + 1;
    }
    assert data[i..] == [];
  }

  /** Appends the rows of one scored array, element by element. */
  method AddScoredRows(rows: seq<DetailRow>, theme: string, elems: seq<Entry>) returns (out: seq<DetailRow>)
    requires AllHave(elems, "note", "question")
    ensures out == rows + RowsOf(theme, elems)
  {
    ghost var all := RowsOf(theme, elems);
    out := rows;
    var j := 0;
    while j < |elems|
      invariant 0 <= j <= |elems|
      invariant out == rows + all[..j]
    {
      PushPrefix(rows, all, j);
      out := out + [ScoredRow(theme, elems[j])];
      j := j + 1;
    }
    WholePrefix(all);
  }

  /** Splitting the submission splits the sheet. */
  lemma {:induction false} DetailSheetAppend(xs: Submission, ys: Submission)
    ensures DetailSheet(xs + ys) == DetailSheet(xs) + DetailSheet(ys)
    decreases |xs|
  {
    if xs == [] {
      assert xs + ys == ys;
    } else {
      assert (xs + ys)[0] == xs[0];
      assert (xs + ys)[1..] == xs[1..] + ys;
      DetailSheetAppend(xs[1..], ys);
    }
  }

  /**
   * The sheet keeps the rows of a scored array that the report loop does
   * not render: under a comment or summary key, or when the array is also
   * an info list.
   */
  lemma DetailSheetIgnoresKeys(key: string, elems: seq<Entry>)
    requires AllHave(elems, "note", "question")
    ensures DetailSheet([(key, Arr(elems))]) == RowsOf(key, elems)
  {
    assert [(key, Arr(elems))][1..] == [];
  }

  // ---------------------------------------------------------------------
  // Summary sheet

  /** Every "resume" section contributes all of its lines; a non-array there throws. */
  function SummarySheet(xs: Submission): (r: Result<seq<SummaryRow>, Failure>)
    ensures r.Failure? ==> r.error == SummaryNotArray
  {
    if xs == [] then Success([])
    else
      var rest :- SummarySheet(xs[1..]);
      if !IsSummaryKey(xs[0].0) then Success(rest)
      else if xs[0].1.Arr? then Success(SummaryRows(xs[0].1.elems) + rest)
      else Failure(SummaryNotArray)
  }

  /** The lines already added, followed by what the rest of the pass yields. */
  function AfterRows(sheet: seq<SummaryRow>, rest: Result<seq<SummaryRow>, Failure>): Result<seq<SummaryRow>, Failure> {
    if rest.Success? then Success(sheet + rest.value) else rest
  }

  /** `sheetSummary.addRow` for every element of every "resume" section. */
  method BuildSummarySheet(data: Submission) returns (r: Result<seq<SummaryRow>, Failure>)
    ensures r == SummarySheet(data)
  {
    var sheet: seq<SummaryRow> := [];
    var i := 0;
    assert data[i..] == data;
    if SummarySheet(data).Success? {
      Units(SummarySheet(data).value);
    }
    while i < |data|
      invariant 0 <= i <= |data|
      invariant AfterRows(sheet, SummarySheet(data[i..])) == SummarySheet(data)
    {
      ghost var xs := data[i..];
      assert xs[0] == data[i] && xs[1..] == data[i + 1..];
      SummaryStep(xs, sheet);
      var (theme, responses) := data[i];
      if IsSummaryKey(theme) {
        if !responses.Arr? {
          return Failure(SummaryNotArray);
        }
        sheet := AddSummaryRows(sheet, responses.elems);
      }
      assert AfterRows(sheet, SummarySheet(data[i + 1..])) == AfterRows(sheet, SummarySheet(xs[1..]));
      i := i + 1;
    }
    assert data[i..] == [];
    Units(sheet);
    return Success(sheet);
  }

  /** One step of the summary pass over the first section of xs. */
  lemma SummaryStep(xs: Submission, sheet: seq<SummaryRow>)
    requires xs != []
    ensures AfterRows(sheet, SummarySheet(xs)) ==
              if !IsSummaryKey(xs[0].0) then AfterRows(sheet, SummarySheet(xs[1..]))
              else if !xs[0].1.Arr? then Failure(SummaryNotArray)
              else AfterRows(sheet + SummaryRows(xs[0].1.elems), SummarySheet(xs[1..]))
  {
    var rest := SummarySheet(xs[1..]);
    if rest.Success? && IsSummaryKey(xs[0].0) && xs[0].1.Arr? {
      Assoc(sheet, SummaryRows(xs[0].1.elems), rest.value);
    }
  }

  method AddSummaryRows(rows: seq<SummaryRow>, elems: seq<Entry>) returns (out: seq<SummaryRow>)
    ensures out == rows + SummaryRows(elems)
  {
    ghost var all := SummaryRows(elems);
    out := rows;
    var j := 0;
    while j < |elems|
      invariant 0 <= j <= |elems|
      invariant out == rows + all[..j]
    {
      PushPrefix(rows, all, j);
      out := out + [SummaryRowOf(elems[j])];
      j := j + 1;
    }
    WholePrefix(all);
  }

  /** The sheet of two halves is the first half's sheet followed by the second's; either failure fails it. */
  lemma {:induction false} SummarySheetAppend(xs: Submission, ys: Submission)
    ensures SummarySheet(xs + ys) ==
              if SummarySheet(xs).Success? && SummarySheet(ys).Success?
              then Success(SummarySheet(xs).value + SummarySheet(ys).value)
              else Failure(SummaryNotArray)
    decreases |xs|
  {
    if xs == [] {
      assert xs + ys == ys;
      if SummarySheet(ys).Success? {
        Units(SummarySheet(ys).value);
      }
    } else {
      assert (xs + ys)[0] == xs[0];
      assert (xs + ys)[1..] == xs[1..] + ys;
      SummarySheetAppend(xs[1..], ys);
      if SummarySheet(xs[1..]).Success? && SummarySheet(ys).Success? && IsSummaryKey(xs[0].0) && xs[0].1.Arr? {
        Assoc(SummaryRows(xs[0].1.elems), SummarySheet(xs[1..]).value, SummarySheet(ys).value);
      }
    }
  }

  /** One section: the rows of its array under a "resume" key, nothing under another key. */
  lemma SummarySheetOfSection(key: string, p: Payload)
    ensures SummarySheet([(key, p)]) ==
              if !IsSummaryKey(key) then Success([])
              else if p.Arr? then Success(SummaryRows(p.elems))
              else Failure(SummaryNotArray)
  {
    assert [(key, p)][1..] == [];
    if IsSummaryKey(key) && p.Arr? {
      Units(SummaryRows(p.elems));
    }
  }

  /**
   * Unlike the report's summary table, the sheet keeps every "resume"
   * section: the rows of one such section sit between the rows of the
   * sections before it and those after it.
   */
  lemma SummarySheetKeepsEverySection(xs: Submission, key: string, elems: seq<Entry>, ys: Submission)
    requires IsSummaryKey(key)
    requires SummarySheet(xs).Success? && SummarySheet(ys).Success?
    ensures SummarySheet(xs + [(key, Arr(elems))] + ys)
         == Success(SummarySheet(xs).value + SummaryRows(elems) + SummarySheet(ys).value)
  {
    var mid := [(key, Arr(elems))];
    SummarySheetOfSection(key, Arr(elems));
    SummarySheetAppend(mid, ys);
    SummarySheetAppend(xs, mid + ys);
    assert xs + mid + ys == xs + (mid + ys);
    Assoc(SummarySheet(xs).value, SummaryRows(elems), SummarySheet(ys).value);
  }

  /** The i-th section has a "resume" key but no array: `.map` and `.forEach` throw there. */
  predicate MalformedSummaryAt(xs: Submission, i: int) {
    0 <= i < |xs| && IsSummaryKey(xs[i].0) && !xs[i].1.Arr?
  }

  /** The summary sheet fails exactly when some "resume" section is not an array. */
  lemma {:induction false} SummarySheetFailsIff(xs: Submission)
    ensures SummarySheet(xs).Failure? <==> exists i :: MalformedSummaryAt(xs, i)
    decreases |xs|
  {
    if xs != [] {
      SummarySheetFailsIff(xs[1..]);
      ShiftMalformed(xs);
    }
  }

  lemma ShiftMalformed(xs: Submission)
    requires xs != []
    ensures (exists i :: MalformedSummaryAt(xs, i)) <==> MalformedSummaryAt(xs, 0) || exists i :: MalformedSummaryAt(xs[1..], i)
  {
    if exists i :: MalformedSummaryAt(xs, i) {
      var i :| MalformedSummaryAt(xs, i);
      if i > 0 {
        assert MalformedSummaryAt(xs[1..], i - 1);
      }
    }
    if exists i :: MalformedSummaryAt(xs[1..], i) {
      var i :| MalformedSummaryAt(xs[1..], i);
      assert MalformedSummaryAt(xs, i + 1);
    }
  }
}
