/**
 * The body of the administrator's mail of `/submit`: the pass over the
 * submission that accumulates info lists, scored rows and the summary
 * table, the comment block and the global average, as structured values.
 */
module Report {
  import opened Wrappers
  import opened JsText
  import opened JsNumber
  import opened Submission
  import opened Sheets
  import opened Seqs

  datatype InfoItem = InfoItem(name: string, value: string)

  /** The parts of `ResponsesByThemes`: one list per info section, then at most one detail table. */
  datatype Section =
    | InfoSection(theme: string, items: seq<InfoItem>)
    | DetailTable(rows: seq<DetailRow>)

  function InfoItems(elems: seq<Entry>): (items: seq<InfoItem>)
    requires AllHave(elems, "label", "value")
    ensures |items| == |elems|
    ensures forall i :: 0 <= i < |elems| ==> items[i] == InfoItem(elems[i]["label"], elems[i]["value"])
  {
    seq(|elems|, i requires 0 <= i < |elems| => InfoItem(elems[i]["label"], elems[i]["value"]))
  }

  /** The accumulators of the report loop: info sections, `allScoredRows` and `Resume`. */
  datatype Pass = Pass(infos: seq<Section>, rows: seq<DetailRow>, summary: Option<seq<SummaryRow>>)

  const EmptyPass: Pass := Pass([], [], None)

  /** One iteration of the report loop. */
  function Step(acc: Pass, key: string, p: Payload): Result<Pass, Failure> {
    match Classify(key, p)
    case CommentSkipped => Success(acc)
    case Summary =>
      if p.Arr? then Success(acc.(summary := Some(SummaryRows(p.elems)))) else Failure(SummaryNotArray)
    case InfoList => Success(acc.(infos := acc.infos + [InfoSection(key, InfoItems(p.elems))]))
    case ScoredList => Success(acc.(rows := acc.rows + RowsOf(key, p.elems)))
    case Unrendered => Success(acc)
  }

  function PassFrom(acc: Pass, xs: Submission): Result<Pass, Failure>
    decreases |xs|
  {
    if xs == [] then Success(acc)
    else
      var next :- Step(acc, xs[0].0, xs[0].1);
      PassFrom(next, xs[1..])
  }

  function HtmlPass(data: Submission): Result<Pass, Failure> {
    PassFrom(EmptyPass, data)
  }

  /** The `Object.entries(data).forEach` of the report, with the `allScoredRows.push` loop inside. */
  method RunHtmlPass(data: Submission) returns (r: Result<Pass, Failure>)
    ensures r == HtmlPass(data)
  {
    var acc := EmptyPass;
    var i := 0;
    assert data[i..] == data;
    while i < |data|
      invariant 0 <= i <= |data|
      invariant PassFrom(acc, data[i..]) == HtmlPass(data)
    {
      assert data[i..][1..] == data[i + 1..];
      var (key, responses) := data[i];
      match Classify(key, responses) {
        case CommentSkipped =>
        case Summary =>
          if !responses.Arr? {
            return Failure(SummaryNotArray);
          }
          acc := acc.(summary := Some(SummaryRows(responses.elems)));
        case InfoList =>
          acc := acc.(infos := acc.infos + [InfoSection(key, InfoItems(responses.elems))]);
        case ScoredList =>
          var rows := AddScoredRows(acc.rows, key, responses.elems);
          acc := acc.(rows := rows);
        case Unrendered =>
      }
      i := i + 1;
    }
    assert data[i..] == [];
    return Success(acc);
  }

  // ---------------------------------------------------------------------
  // What the pass accumulates

  /** One info section per info-list section of xs, in order. */
  function InfoBlocks(xs: Submission): (r: seq<Section>)
    ensures forall i :: 0 <= i < |r| ==> r[i].InfoSection?
  {
    if xs == [] then []
    else if IsInfo(xs[0].1) then [InfoSection(xs[0].0, InfoItems(xs[0].1.elems))] + InfoBlocks(xs[1..])
    else InfoBlocks(xs[1..])
  }

  /** The pass throws exactly when a "resume" section is not an array, wherever it is. */
  lemma {:induction false} PassFailsIff(acc: Pass, xs: Submission)
    ensures PassFrom(acc, xs).Failure? <==> exists i :: MalformedSummaryAt(xs, i)
    ensures PassFrom(acc, xs).Failure? ==> PassFrom(acc, xs).error == SummaryNotArray
    decreases |xs|
  {
    if xs != [] {
      SummaryBranchIffSummaryKey(xs[0].0, xs[0].1);
      ShiftMalformed(xs);
      var step := Step(acc, xs[0].0, xs[0].1);
      assert step.Failure? <==> MalformedSummaryAt(xs, 0);
      if step.Success? {
        PassFailsIff(step.value, xs[1..]);
      }
    }
  }

  /** Info sections are rendered in key order, one per info list, and nothing else is. */
  lemma {:induction false} PassInfos(acc: Pass, xs: Submission)
    requires PassFrom(acc, xs).Success?
    ensures PassFrom(acc, xs).value.infos == acc.infos + InfoBlocks(Only(xs, InfoList))
    decreases |xs|
  {
    if xs == [] {
      assert acc.infos + [] == acc.infos;
    } else {
      var next := Step(acc, xs[0].0, xs[0].1).value;
      PassInfos(next, xs[1..]);
      var o := Only(xs[1..], InfoList);
      if Classify(xs[0].0, xs[0].1) == InfoList {
        var sec := InfoSection(xs[0].0, InfoItems(xs[0].1.elems));
        InfoBlocksCons(xs[0], o);
        assert next.infos == acc.infos + [sec];
        Assoc(acc.infos, [sec], InfoBlocks(o));
      }
    }
  }

  /** The HTML detail rows are the detail-sheet rows of exactly the sections the loop classes as scored. */
  lemma {:induction false} PassRows(acc: Pass, xs: Submission)
    requires PassFrom(acc, xs).Success?
    ensures PassFrom(acc, xs).value.rows == acc.rows + DetailSheet(Only(xs, ScoredList))
    decreases |xs|
  {
    if xs == [] {
      assert acc.rows + [] == acc.rows;
    } else {
      var next := Step(acc, xs[0].0, xs[0].1).value;
      PassRows(next, xs[1..]);
      var o := Only(xs[1..], ScoredList);
      if Classify(xs[0].0, xs[0].1) == ScoredList {
        var rows := RowsOf(xs[0].0, xs[0].1.elems);
        DetailSheetCons(xs[0], o);
        assert next.rows == acc.rows + rows;
        Assoc(acc.rows, rows, DetailSheet(o));
      }
    }
  }

  lemma InfoBlocksCons(x: (string, Payload), o: Submission)
    requires IsInfo(x.1)
    ensures InfoBlocks([x] + o) == [InfoSection(x.0, InfoItems(x.1.elems))] + InfoBlocks(o)
  {
    assert ([x] + o)[1..] == o;
  }

  lemma DetailSheetCons(x: (string, Payload), o: Submission)
    requires IsScored(x.1)
    ensures DetailSheet([x] + o) == RowsOf(x.0, x.1.elems) + DetailSheet(o)
  {
    assert ([x] + o)[1..] == o;
  }

  predicate NoSummaryKey(xs: Submission) {
    forall j :: 0 <= j < |xs| ==> !IsSummaryKey(xs[j].0)
  }

  /** The i-th section is the last one whose key contains "resume". */
  predicate LastSummaryAt(xs: Submission, i: int) {
    0 <= i < |xs| && IsSummaryKey(xs[i].0) && forall j :: i < j < |xs| ==> !IsSummaryKey(xs[j].0)
  }

  /** One step sets the summary on a "resume" key, and leaves it alone on any other key. */
  lemma StepSummary(acc: Pass, key: string, p: Payload)
    requires Step(acc, key, p).Success?
    ensures IsSummaryKey(key) ==> p.Arr? && Step(acc, key, p).value.summary == Some(SummaryRows(p.elems))
    ensures !IsSummaryKey(key) ==> Step(acc, key, p).value.summary == acc.summary
  {
    SummaryBranchIffSummaryKey(key, p);
  }

  lemma {:induction false} PassSummaryUntouched(acc: Pass, xs: Submission)
    requires PassFrom(acc, xs).Success? && NoSummaryKey(xs)
    ensures PassFrom(acc, xs).value.summary == acc.summary
    decreases |xs|
  {
    if xs != [] {
      StepSummary(acc, xs[0].0, xs[0].1);
      assert forall j :: 0 <= j < |xs| - 1 ==> xs[1..][j].0 == xs[j + 1].0;
      PassSummaryUntouched(Step(acc, xs[0].0, xs[0].1).value, xs[1..]);
    }
  }

  /** `Resume` is overwritten: the summary table is the one of the last "resume" section. */
  lemma {:induction false} PassSummaryLast(acc: Pass, xs: Submission, i: int)
    requires PassFrom(acc, xs).Success? && LastSummaryAt(xs, i)
    ensures xs[i].1.Arr?
    ensures PassFrom(acc, xs).value.summary == Some(SummaryRows(xs[i].1.elems))
    decreases |xs|
  {
    StepSummary(acc, xs[0].0, xs[0].1);
    var next := Step(acc, xs[0].0, xs[0].1).value;
    assert forall j :: 0 <= j < |xs| - 1 ==> xs[1..][j].0 == xs[j + 1].0;
    if i == 0 {
      PassSummaryUntouched(next, xs[1..]);
    } else {
      assert LastSummaryAt(xs[1..], i - 1);
      PassSummaryLast(next, xs[1..], i - 1);
    }
  }

  /** Without any "resume" section there is no summary table. */
  lemma HtmlSummaryAbsent(data: Submission)
    requires HtmlPass(data).Success? && NoSummaryKey(data)
    ensures HtmlPass(data).value.summary.None?
  {
    PassSummaryUntouched(EmptyPass, data);
  }

  /**
   * The report pass throws exactly when the summary sheet would: so once
   * the pass has succeeded, building the summary sheet cannot fail.
   */
  lemma HtmlPassFailsIffSummarySheetFails(data: Submission)
    ensures HtmlPass(data).Failure? <==> SummarySheet(data).Failure?
  {
    PassFailsIff(EmptyPass, data);
    SummarySheetFailsIff(data);
  }

  /**
   * The asymmetry of the two summaries: the HTML table holds the lines of
   * the last "resume" section only, while the sheet holds the lines of
   * all of them, the last section's lines at the end.
   */
  lemma SummaryTableIsSheetSuffix(data: Submission, i: int)
    requires HtmlPass(data).Success? && LastSummaryAt(data, i)
    ensures SummarySheet(data).Success? && HtmlPass(data).value.summary.Some?
    ensures EndsWith(SummarySheet(data).value, HtmlPass(data).value.summary.value)
  {
    PassSummaryLast(EmptyPass, data, i);
    HtmlPassFailsIffSummarySheetFails(data);
    SheetEndsWithLast(data, i);
  }

  lemma {:induction false} SheetEndsWithLast(xs: Submission, i: int)
    requires LastSummaryAt(xs, i) && xs[i].1.Arr? && SummarySheet(xs).Success?
    ensures EndsWith(SummarySheet(xs).value, SummaryRows(xs[i].1.elems))
    decreases |xs|
  {
    var rest := SummarySheet(xs[1..]);
    assert rest.Success?;
    var rows := SummaryRows(xs[i].1.elems);
    if i == 0 {
      SheetWithoutSummary(xs[1..]);
      assert SummarySheet(xs).value == rows + [] == rows;
      EndsWithSelf(rows);
    } else {
      assert LastSummaryAt(xs[1..], i - 1);
      assert xs[1..][i - 1] == xs[i];
      SheetEndsWithLast(xs[1..], i - 1);
      if IsSummaryKey(xs[0].0) {
        EndsWithAppend(SummaryRows(xs[0].1.elems), rest.value, rows);
      }
    }
  }

  lemma {:induction false} SheetWithoutSummary(xs: Submission)
    requires NoSummaryKey(xs)
    ensures SummarySheet(xs) == Success([])
    decreases |xs|
  {
    if xs != [] {
      assert forall j :: 0 <= j < |xs| - 1 ==> xs[1..][j].0 == xs[j + 1].0;
      SheetWithoutSummary(xs[1..]);
    }
  }

  // ---------------------------------------------------------------------
  // Comment block

  const CommentKey: string := "Commentaire"

  datatype CommentBlock = UserComment(text: string) | NoCommentGiven

  /**
   * Present only when the exact key "Commentaire" exists; the value is
   * converted with `String` and trimmed, and an empty result gets the
   * placeholder.
   */
  function CommentBlockOf(data: Submission): (c: Option<CommentBlock>)
    ensures c.None? <==> !HasKey(data, CommentKey)
    ensures HasKey(data, CommentKey) ==>
              var v := JsString(Find(data, CommentKey).value);
              (c == Some(NoCommentGiven) <==> forall i :: 0 <= i < |v| ==> IsJsSpace(v[i]))
    ensures c.Some? && c.value.UserComment? ==>
              var t := c.value.text;
              && t == Trim(JsString(Find(data, CommentKey).value))
              && t != [] && !IsJsSpace(t[0]) && !IsJsSpace(t[|t| - 1])
  {
    match Find(data, CommentKey)
    case None => None
    case Some(p) =>
      var b := CommentOf(p);
      assert Find(data, CommentKey).value == p;
      Some(b)
  }

  /** `String(value).trim()`, with the placeholder for an empty result. */
  function CommentOf(p: Payload): (b: CommentBlock)
    ensures var v := JsString(p);
            b == NoCommentGiven <==> forall i :: 0 <= i < |v| ==> IsJsSpace(v[i])
    ensures b.UserComment? ==>
              && b.text == Trim(JsString(p))
              && b.text != [] && !IsJsSpace(b.text[0]) && !IsJsSpace(b.text[|b.text| - 1])
  {
    var v := JsString(p);
    var t := Trim(v);
    TrimEnds(v);
    TrimEmptyIffSpaces(v);
    if t == "" then NoCommentGiven else UserComment(t)
  }

  /**
   * A comment stored under another spelling that normalizes to
   * "commentaire" (for instance "commentaire" or "COMMENTAIRE") is
   * dropped: it gets no comment block and the report loop skips it.
   */
  lemma OtherCommentSpellingIsLost(key: string, p: Payload)
    requires IsCommentKey(key) && key != CommentKey
    ensures CommentBlockOf([(key, p)]).None?
    ensures HtmlPass([(key, p)]) == Success(EmptyPass)
  {
    assert [(key, p)][1..] == [];
    assert Step(EmptyPass, key, p) == Success(EmptyPass);
    assert PassFrom(EmptyPass, []) == Success(EmptyPass);
  }

  // ---------------------------------------------------------------------
  // Global average

  /** The notes of one scored array that parse, in order. */
  function NotesOf(elems: seq<Entry>): seq<real>
    requires AllHave(elems, "note", "question")
  {
    if elems == [] then []
    else
      var rest := NotesOf(elems[1..]);
      match ParseFloat(elems[0]["note"])
      case Some(v) => [v] + rest
      case None => rest
  }

  /** `allNotes`: every parsed note of every scored array, whatever its key. */
  function ParsedNotes(xs: Submission): seq<real> {
    if xs == [] then []
    else if IsScored(xs[0].1) then NotesOf(xs[0].1.elems) + ParsedNotes(xs[1..])
    else ParsedNotes(xs[1..])
  }

  /** The `Object.values(data).forEach` that concatenates the parsed notes. */
  method CollectNotes(data: Submission) returns (notes: seq<real>)
    ensures notes == ParsedNotes(data)
  {
    notes := [];
    var i := 0;
    assert data[i..] == data;
    while i < |data|
      invariant 0 <= i <= |data|
      invariant notes + ParsedNotes(data[i..]) == ParsedNotes(data)
    {
      assert data[i..][1..] == data[i + 1..];
      var responses := data[i].1;
      if responses.Arr? && AllHave(responses.elems, "note", "question") {
        ghost var before := notes;
        notes := notes + NotesOf(responses.elems);
        assert before + (NotesOf(responses.elems) + ParsedNotes(data[i + 1..])) == notes + ParsedNotes(data[i + 1..]);
      }
      i := i + 1;
    }
    assert data[i..] == [];
    assert notes + [] == notes;
  }

  function Sum(v: seq<real>): real {
    if v == [] then 0.0 else v[0] + Sum(v[1..])
  }

  function Mean(v: seq<real>): real
    requires |v| > 0
  {
    Sum(v) / (|v| as real)
  }

  /** The average of the banner, when at least one note parses (the rounding of `toFixed(2)` aside). */
  function GlobalAverage(data: Submission): (r: Option<real>)
    ensures r.Some? <==> |ParsedNotes(data)| > 0
  {
    var notes := ParsedNotes(data);
    if |notes| == 0 then None else Some(Mean(notes))
  }

  lemma {:induction false} SumBounds(v: seq<real>, lo: real, hi: real)
    requires forall i :: 0 <= i < |v| ==> lo <= v[i] <= hi
    ensures (|v| as real) * lo <= Sum(v) <= (|v| as real) * hi
    decreases |v|
  {
    if v != [] {
      SumBounds(v[1..], lo, hi);
      assert (|v| as real) * lo == lo + ((|v| - 1) as real) * lo;
      assert (|v| as real) * hi == hi + ((|v| - 1) as real) * hi;
    }
  }

  /** The mean lies between any bounds of the notes: with notes on a 0..5 scale, so does the average. */
  lemma MeanWithin(v: seq<real>, lo: real, hi: real)
    requires |v| > 0
    requires forall i :: 0 <= i < |v| ==> lo <= v[i] <= hi
    ensures lo <= Mean(v) <= hi
  {
    SumBounds(v, lo, hi);
    var n := |v| as real;
    assert Mean(v) * n == Sum(v);
  }

  /** The parsed notes of a list of rows. */
  function Values(rows: seq<DetailRow>): seq<real> {
    if rows == [] then []
    else match rows[0].note
      case Some(v) => [v] + Values(rows[1..])
      case None => Values(rows[1..])
  }

  lemma {:induction false} ValuesAppend(a: seq<DetailRow>, b: seq<DetailRow>)
    ensures Values(a + b) == Values(a) + Values(b)
    decreases |a|
  {
    if a == [] {
      assert a + b == b;
    } else {
      assert (a + b)[0] == a[0] && (a + b)[1..] == a[1..] + b;
      ValuesAppend(a[1..], b);
    }
  }

  lemma {:induction false} NotesOfRows(theme: string, elems: seq<Entry>)
    requires AllHave(elems, "note", "question")
    ensures NotesOf(elems) == Values(RowsOf(theme, elems))
    decreases |elems|
  {
    if elems != [] {
      var rows := RowsOf(theme, elems);
      assert rows[0] == ScoredRow(theme, elems[0]);
      assert rows[1..] == RowsOf(theme, elems[1..]);
      NotesOfRows(theme, elems[1..]);
    }
  }

  /**
   * The average pools exactly the notes that parse among the rows of the
   * detail sheet, rows under comment or "resume" keys included, and not
   * only the rows of the HTML table.
   */
  lemma {:induction false} NotesAreSheetNotes(xs: Submission)
    ensures ParsedNotes(xs) == Values(DetailSheet(xs))
    decreases |xs|
  {
    if xs != [] {
      NotesAreSheetNotes(xs[1..]);
      if IsScored(xs[0].1) {
        NotesOfRows(xs[0].0, xs[0].1.elems);
        ValuesAppend(RowsOf(xs[0].0, xs[0].1.elems), DetailSheet(xs[1..]));
      }
    }
  }

  lemma {:induction false} ValuesNonEmpty(rows: seq<DetailRow>)
    ensures |Values(rows)| > 0 <==> exists k :: 0 <= k < |rows| && rows[k].note.Some?
    decreases |rows|
  {
    if rows != [] {
      ValuesNonEmpty(rows[1..]);
      assert forall k :: 1 <= k < |rows| ==> rows[k].note == rows[1..][k - 1].note;
    }
  }

  /** The banner appears exactly when some row of the detail sheet has a note that parses. */
  lemma AverageIffParsedNote(data: Submission)
    ensures GlobalAverage(data).Some? <==>
              exists k :: 0 <= k < |DetailSheet(data)| && DetailSheet(data)[k].note.Some?
  {
    NotesAreSheetNotes(data);
    ValuesNonEmpty(DetailSheet(data));
  }

  // ---------------------------------------------------------------------
  // The whole body

  datatype AdminBody = AdminBody(
    sections: seq<Section>,
    comment: Option<CommentBlock>,
    summary: Option<seq<SummaryRow>>,
    average: Option<real>)

  /** `ResponsesByThemes`: the info sections, then the detail table when there is a scored row. */
  function Sections(pass: Pass): seq<Section> {
    pass.infos + (if pass.rows == [] then [] else [DetailTable(pass.rows)])
  }

  function AdminBodyOf(data: Submission): Result<AdminBody, Failure> {
    var pass :- HtmlPass(data);
    Success(AdminBody(Sections(pass), CommentBlockOf(data), pass.summary, GlobalAverage(data)))
  }

  /**
   * The layout of `ResponsesByThemes`: the info sections in key order,
   * followed by one detail table holding the rows of the scored sections,
   * present exactly when there is such a row.
   */
  lemma AdminSectionsLayout(data: Submission)
    requires HtmlPass(data).Success?
    ensures var s := Sections(HtmlPass(data).value);
            var infos := InfoBlocks(Only(data, InfoList));
            var rows := DetailSheet(Only(data, ScoredList));
            && (rows == [] ==> s == infos)
            && (rows != [] ==> s == infos + [DetailTable(rows)])
  {
    PassInfos(EmptyPass, data);
    PassRows(EmptyPass, data);
    var pass := HtmlPass(data).value;
    var infos := InfoBlocks(Only(data, InfoList));
    var rows := DetailSheet(Only(data, ScoredList));
    Units(infos);
    Units(rows);
    assert pass.infos == infos && pass.rows == rows;
    Units(pass.infos);
  }

}
