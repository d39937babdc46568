/**
 * The derivations of `/submit-radar`: the form title, the rows of the HTML
 * table and of the "Réponses" sheet, the "Informations" sheet and the
 * header of the mail, each with its fallback for a missing field.
 */
module Radar {
  import opened Wrappers
  import opened JsNumber
  import opened Question
  import opened Submission
  import opened Sheets
  import opened Seqs

  datatype RadarResponse = RadarResponse(question: string, note: string)

  datatype RadarTheme = RadarTheme(theme: string, responses: seq<RadarResponse>)

  /** The fields of `user`; an absent field, or an absent `user`, is `Null` (both are falsy). */
  datatype RadarUser = RadarUser(firstName: Payload, lastName: Payload, email: Payload, phone: Payload, company: Payload)

  datatype RadarRequest = RadarRequest(
    questions: seq<RadarTheme>,
    comment: Payload,
    globalAverage: Payload,
    formNum: string,    // the `String` form of `formNum`, the text used as a property key
    user: RadarUser)

  // ---------------------------------------------------------------------
  // Form title

  const StrategicTitle: string := "\U{C9}valuation Strat\U{E9}gique et Organisationnelle"
  const OperationalTitle: string := "\U{C9}valuation Op\U{E9}rationnelle M\U{E9}tiers"
  const TechnicalTitle: string := "\U{C9}valuation Technique et Data Management"

  predicate IsKnownForm(formNum: string) {
    formNum == "1" || formNum == "2" || formNum == "3"
  }

  /** `formTitles[formNum] || `Formulaire ${formNum}`` */
  function FormTitle(formNum: string): (t: string)
    ensures formNum == "1" ==> t == StrategicTitle
    ensures formNum == "2" ==> t == OperationalTitle
    ensures formNum == "3" ==> t == TechnicalTitle
    ensures !IsKnownForm(formNum) ==> t == "Formulaire " + formNum
  {
    if formNum == "1" then StrategicTitle
    else if formNum == "2" then OperationalTitle
    else if formNum == "3" then TechnicalTitle
    else "Formulaire " + formNum
  }

  /** A catalogue title never coincides with a fallback title: the first letter tells them apart. */
  lemma FormTitleKnownIff(formNum: string)
    ensures |FormTitle(formNum)| > 0
    ensures IsKnownForm(formNum) <==> FormTitle(formNum)[0] == '\U{C9}'
    ensures !IsKnownForm(formNum) <==> FormTitle(formNum)[..11] == "Formulaire "
  {
    if !IsKnownForm(formNum) {
      assert FormTitle(formNum)[..11] == "Formulaire ";
    } else {
      var t := FormTitle(formNum);
      assert t[0] == '\U{C9}' && t[0] != 'F';
      assert t[..11][0] == t[0];
    }
  }

  // ---------------------------------------------------------------------
  // The table of the mail and the "Réponses" sheet

  /** A row of the HTML table: the note is interpolated as received. */
  datatype RadarRow = RadarRow(theme: string, number: string, question: string, note: string)

  function HtmlRow(theme: string, r: RadarResponse): RadarRow {
    var p := SplitQuestion(r.question);
    RadarRow(theme, p.number, p.text, r.note)
  }

  function SheetRow(theme: string, r: RadarResponse): DetailRow {
    var p := SplitQuestion(r.question);
    DetailRow(theme, p.number, p.text, ParseFloat(r.note))
  }

  function ThemeHtmlRows(t: RadarTheme): (rows: seq<RadarRow>)
    ensures |rows| == |t.responses|
    ensures forall i :: 0 <= i < |rows| ==> rows[i] == HtmlRow(t.theme, t.responses[i])
  {
    seq(|t.responses|, i requires 0 <= i < |t.responses| => HtmlRow(t.theme, t.responses[i]))
  }

  function ThemeSheetRows(t: RadarTheme): (rows: seq<DetailRow>)
    ensures |rows| == |t.responses|
    ensures forall i :: 0 <= i < |rows| ==> rows[i] == SheetRow(t.theme, t.responses[i])
  {
    seq(|t.responses|, i requires 0 <= i < |t.responses| => SheetRow(t.theme, t.responses[i]))
  }

  /** One row per response, theme by theme. */
  function HtmlRows(qs: seq<RadarTheme>): seq<RadarRow> {
    if qs == [] then [] else ThemeHtmlRows(qs[0]) + HtmlRows(qs[1..])
  }

  function SheetRows(qs: seq<RadarTheme>): seq<DetailRow> {
    if qs == [] then [] else ThemeSheetRows(qs[0]) + SheetRows(qs[1..])
  }

  /** The nested `forEach` that appends to `rows`. */
  method BuildHtmlRows(qs: seq<RadarTheme>) returns (rows: seq<RadarRow>)
    ensures rows == HtmlRows(qs)
  {
    rows := [];
    var i := 0;
    assert qs[i..] == qs;
    while i < |qs|
      invariant 0 <= i <= |qs|
      invariant rows + HtmlRows(qs[i..]) == HtmlRows(qs)
    {
      assert qs[i..][1..] == qs[i + 1..];
      ghost var before := rows;
      rows := AddThemeHtmlRows(rows, qs[i]);
      Assoc(before, ThemeHtmlRows(qs[i]), HtmlRows(qs[i + 1..]));
      i := i + 1;
    }
    assert qs[i..] == [];
    assert rows + [] == rows;
  }

  /** `theme.responses.forEach(r => { rows += ... })` */
  method AddThemeHtmlRows(rows: seq<RadarRow>, t: RadarTheme) returns (out: seq<RadarRow>)
    ensures out == rows + ThemeHtmlRows(t)
  {
    ghost var all := ThemeHtmlRows(t);
    out := rows;
    var j := 0;
    while j < |t.responses|
      invariant 0 <= j <= |t.responses|
      invariant out == rows + all[..j]
    {
      PushPrefix(rows, all, j);
      out := out + [HtmlRow(t.theme, t.responses[j])];
      j := j + 1;
    }
    WholePrefix(all);
  }

  /** The nested `forEach` that calls `sheet1.addRow`. */
  method BuildSheetRows(qs: seq<RadarTheme>) returns (rows: seq<DetailRow>)
    ensures rows == SheetRows(qs)
  {
    rows := [];
    var i := 0;
    assert qs[i..] == qs;
    while i < |qs|
      invariant 0 <= i <= |qs|
      invariant rows + SheetRows(qs[i..]) == SheetRows(qs)
    {
      assert qs[i..][1..] == qs[i + 1..];
      ghost var before := rows;
      rows := AddThemeSheetRows(rows, qs[i]);
      Assoc(before, ThemeSheetRows(qs[i]), SheetRows(qs[i + 1..]));
      i := i + 1;
    }
    assert qs[i..] == [];
    assert rows + [] == rows;
  }

  /** `theme.responses.forEach(r => sheet1.addRow(...))` */
  method AddThemeSheetRows(rows: seq<DetailRow>, t: RadarTheme) returns (out: seq<DetailRow>)
    ensures out == rows + ThemeSheetRows(t)
  {
    ghost var all := ThemeSheetRows(t);
    out := rows;
    var j := 0;
    while j < |t.responses|
      invariant 0 <= j <= |t.responses|
      invariant out == rows + all[..j]
    {
      PushPrefix(rows, all, j);
      out := out + [SheetRow(t.theme, t.responses[j])];
      j := j + 1;
    }
    WholePrefix(all);
  }

  /** The sheet row that mirrors a table row: the same cells, with the note parsed. */
  function AsSheetRow(h: RadarRow): DetailRow {
    DetailRow(h.theme, h.number, h.question, ParseFloat(h.note))
  }

  /** The sheet and the table hold the same rows, except that the sheet parses the note. */
  lemma {:induction false} SheetMatchesTable(qs: seq<RadarTheme>)
    ensures |SheetRows(qs)| == |HtmlRows(qs)|
    ensures forall k :: 0 <= k < |HtmlRows(qs)| ==> SheetRows(qs)[k] == AsSheetRow(HtmlRows(qs)[k])
    decreases |qs|
  {
    if qs != [] {
      SheetMatchesTable(qs[1..]);
      var h, s := ThemeHtmlRows(qs[0]), ThemeSheetRows(qs[0]);
      assert forall k :: 0 <= k < |h| ==> s[k] == AsSheetRow(h[k]);
      MapAppend(h, HtmlRows(qs[1..]), s, SheetRows(qs[1..]), AsSheetRow);
    }
  }

  // ---------------------------------------------------------------------
  // The "Informations" sheet and the mail header

  /** `value || fallback`, interpolated: the value's string form when it is truthy. */
  function FieldOr(p: Payload, fallback: string): string {
    if Truthy(p) then JsString(p) else fallback
  }

  /** The rows of the "Informations" sheet, header row first. */
  function InfoSheet(req: RadarRequest): (rows: seq<(string, string)>)
    ensures |rows| == 8 && rows[0] == ("Champ", "Valeur")
  {
    var u := req.user;
    [ ("Champ", "Valeur"),
      ("Pr\U{E9}nom", FieldOr(u.firstName, "")),
      ("Nom", FieldOr(u.lastName, "")),
      ("Email", FieldOr(u.email, "")),
      ("T\U{E9}l\U{E9}phone", FieldOr(u.phone, "")),
      ("Entreprise", FieldOr(u.company, "")),
      ("Note moyenne", FieldOr(req.globalAverage, "")),
      ("Commentaire", FieldOr(req.comment, "")) ]
  }

  const Unspecified: string := "Non renseign\U{E9}"
  const UnknownCompany: string := "Entreprise inconnue"
  const NoAverage: string := "N/A"
  const NoComment: string := "<em>Aucun commentaire</em>"

  /** The values interpolated in the heading and paragraphs of the radar mail. */
  datatype RadarHeader = RadarHeader(
    headingCompany: string, formTitle: string,
    lastName: string, firstName: string, email: string, phone: string, company: string,
    average: string, comment: string)

  function HeaderOf(req: RadarRequest): RadarHeader {
    var u := req.user;
    RadarHeader(
      FieldOr(u.company, UnknownCompany), FormTitle(req.formNum),
      FieldOr(u.lastName, Unspecified), FieldOr(u.firstName, Unspecified),
      FieldOr(u.email, Unspecified), FieldOr(u.phone, Unspecified),
      FieldOr(u.company, Unspecified),
      FieldOr(req.globalAverage, NoAverage), FieldOr(req.comment, NoComment))
  }

  /** A field given as a string (or missing) shows its fallback in the mail exactly where its sheet cell is empty. */
  lemma FallbackIffEmptyCell(p: Payload, fallback: string)
    requires p.Str? || p.Null?
    ensures FieldOr(p, "") == "" ==> FieldOr(p, fallback) == fallback
    ensures FieldOr(p, "") != "" ==> FieldOr(p, fallback) == FieldOr(p, "")
  {
  }

  /**
   * For a user given as strings, the header of the mail and the
   * "Informations" sheet agree field by field, the header showing its
   * fallback text where the sheet has an empty cell.
   */
  lemma HeaderAgreesWithInfoSheet(req: RadarRequest)
    requires var u := req.user;
             (u.firstName.Str? || u.firstName.Null?) && (u.lastName.Str? || u.lastName.Null?)
             && (u.email.Str? || u.email.Null?) && (u.phone.Str? || u.phone.Null?)
             && (u.company.Str? || u.company.Null?)
             && (req.globalAverage.Str? || req.globalAverage.Null?) && (req.comment.Str? || req.comment.Null?)
    ensures var h, s := HeaderOf(req), InfoSheet(req);
            && h.firstName == (if s[1].1 == "" then Unspecified else s[1].1)
            && h.lastName == (if s[2].1 == "" then Unspecified else s[2].1)
            && h.email == (if s[3].1 == "" then Unspecified else s[3].1)
            && h.phone == (if s[4].1 == "" then Unspecified else s[4].1)
            && h.company == (if s[5].1 == "" then Unspecified else s[5].1)
            && h.headingCompany == (if s[5].1 == "" then UnknownCompany else s[5].1)
            && h.average == (if s[6].1 == "" then NoAverage else s[6].1)
            && h.comment == (if s[7].1 == "" then NoComment else s[7].1)
  {
  }

  /**
   * An empty array is truthy but prints as "": the mail then shows an
   * empty field, not the fallback.
   */
  lemma EmptyArrayDefeatsFallback(fallback: string)
    ensures FieldOr(Arr([]), fallback) == ""
  {
  }
}
