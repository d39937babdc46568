/**
 * The two handlers end to end: what `/submit` and `/submit-radar` answer,
 * which files they write, and which mails they build. The environment
 * variables and the clock are inputs; sending a mail is the envelope.
 */
module Dispatch {
  import opened Wrappers
  import opened JsText
  import opened Naming
  import opened Submission
  import opened Sheets
  import opened Report
  import opened Radar

  /**
   * `ADMIN_BCC_EMAIL` and `OUTLOOK_USER`, as the strings the templates see:
   * an unset `OUTLOOK_USER` is the text "undefined" that the sender
   * template interpolates, and "" stands for an unset `ADMIN_BCC_EMAIL`,
   * which the admin-mail test treats as falsy like "".
   */
  datatype Config = Config(adminBcc: string, outlookUser: string)

  datatype MailBody =
    | AdminHtml(report: AdminBody)
    | UserTemplate                 // the fixed thank-you page, with no interpolation
    | RadarHtml(header: RadarHeader, rows: seq<RadarRow>)

  datatype Attachment = Attachment(filename: string, path: string)

  datatype Envelope = Envelope(from: string, to: seq<string>, subject: string, body: MailBody, attachments: seq<Attachment>)

  /** The `/submit` workbook: its path and its two sheets. */
  datatype Workbook = Workbook(path: string, detail: seq<DetailRow>, summary: seq<SummaryRow>)

  /** The HTTP status sent, or none when the handler's promise is rejected outside its try. */
  datatype Status = Answered(code: int) | Unanswered

  datatype Outcome = Outcome(status: Status, snapshot: Option<string>, workbook: Option<Workbook>, mails: seq<Envelope>)

  const DataDir: string := "data/"

  const AdminSubjectPrefix: string := "\U{1F4DD} R\U{E9}sum\U{E9} complet du diagnostic de "
  const UserSubject: string := "\U{1F4CA} R\U{E9}sum\U{E9} de votre diagnostic"

  /** The trimmed admin subject: with empty names it loses its trailing blanks. */
  function AdminSubject(user: User): string {
    Trim(AdminSubjectPrefix + user.firstName + " " + user.lastName)
  }

  function AdminMail(cfg: Config, user: User, body: AdminBody, workbookPath: string): Envelope {
    Envelope("Krialys Form <" + cfg.outlookUser + ">", [cfg.adminBcc], AdminSubject(user),
             AdminHtml(body), [Attachment("diagnostic.xlsx", workbookPath)])
  }

  function UserMail(cfg: Config, user: User): Envelope {
    Envelope("Krialys Form <" + cfg.outlookUser + ">", [user.email], UserSubject, UserTemplate, [])
  }

  /** The mails `/submit` sends, in order: the admin's when a BCC address is set, the user's when an e-mail was given. */
  function SubmitMails(cfg: Config, user: User, body: AdminBody, workbookPath: string): seq<Envelope> {
    (if cfg.adminBcc != "" then [AdminMail(cfg, user, body, workbookPath)] else [])
    + (if user.email != "" then [UserMail(cfg, user)] else [])
  }

  /**
   * The workbook path of `/submit`: in the data directory, the snapshot's
   * name with its first ".json" replaced by ".xlsx". That is the snapshot's
   * name with ".xlsx" for its extension when ".json" occurs only there.
   */
  function WorkbookPath(snapshot: string): (p: string)
    ensures |p| >= |DataDir| && p[..|DataDir|] == DataDir
    ensures |snapshot| >= 5 && snapshot[|snapshot| - 5..] == ".json" && NoJsonBefore(snapshot, |snapshot| - 5) ==>
              p == DataDir + ExcelName(snapshot)
  {
    var e := ExcelNameAsWritten(snapshot);
    if |snapshot| >= 5 && snapshot[|snapshot| - 5..] == ".json" && NoJsonBefore(snapshot, |snapshot| - 5) then
      ExcelNameAsWrittenAgrees(snapshot);
      DataDir + e
    else
      DataDir + e
  }

  /** `/submit`, with the clock's ISO timestamp as input: the user fields are read before the try block. */
  function Submit(cfg: Config, data: Submission, iso: string): Outcome {
    match UserFields(data)
    case Failure(_) => Outcome(Unanswered, None, None, [])
    case Success(user) => SubmitTry(cfg, data, user, iso)
  }

  /** The try block of `/submit`: any throw in it is answered with 500. */
  function SubmitTry(cfg: Config, data: Submission, user: User, iso: string): Outcome {
    var snapshot := SnapshotName(user.lastName, user.firstName, iso);
    match AdminBodyOf(data)
    case Failure(_) => Outcome(Answered(500), Some(snapshot), None, [])
    case Success(body) =>
      match SummarySheet(data)
      case Failure(_) => Outcome(Answered(500), Some(snapshot), None, [])
      case Success(summary) =>
        var path := WorkbookPath(snapshot);
        Outcome(Answered(200), Some(snapshot), Some(Workbook(path, DetailSheet(data), summary)),
                SubmitMails(cfg, user, body, path))
  }

  /** The handler, step by step. */
  method HandleSubmit(cfg: Config, data: Submission, iso: string) returns (o: Outcome)
    ensures o == Submit(cfg, data, iso)
  {
    var fields := UserFields(data);
    if fields.Failure? {
      return Outcome(Unanswered, None, None, []);
    }
    o := RunSubmitTry(cfg, data, fields.value, iso);
  }

  /** The try block, with its loops. */
  method RunSubmitTry(cfg: Config, data: Submission, user: User, iso: string) returns (o: Outcome)
    ensures o == SubmitTry(cfg, data, user, iso)
  {
    var snapshot := SnapshotName(user.lastName, user.firstName, iso);
    var body := BuildAdminBody(data);
    if body.Failure? {
      return Outcome(Answered(500), Some(snapshot), None, []);
    }
    var detail := BuildDetailSheet(data);
    var summary := BuildSummarySheet(data);
    if summary.Failure? {
      return Outcome(Answered(500), Some(snapshot), None, []);
    }
    var path := WorkbookPath(snapshot);
    return Outcome(Answered(200), Some(snapshot), Some(Workbook(path, detail, summary.value)),
                   SubmitMails(cfg, user, body.value, path));
  }

  /** The comment block, the report loop and the average loop. */
  method BuildAdminBody(data: Submission) returns (r: Result<AdminBody, Failure>)
    ensures r == AdminBodyOf(data)
  {
    var comment := CommentBlockOf(data);
    var pass := RunHtmlPass(data);
    if pass.Failure? {
      return Failure(pass.error);
    }
    var notes := CollectNotes(data);
    var average := if |notes| > 0 then Some(Mean(notes)) else None;
    return Success(AdminBody(Sections(pass.value), comment, pass.value.summary, average));
  }

  /** A truthy non-array "Informations Utilisateur" section: no answer, no file, no mail. */
  lemma SubmitUnansweredIff(cfg: Config, data: Submission, iso: string)
    ensures Submit(cfg, data, iso).status == Unanswered <==> UserInfo(data).Failure?
    ensures Submit(cfg, data, iso).status == Unanswered ==>
              Submit(cfg, data, iso) == Outcome(Unanswered, None, None, [])
  {
  }

  /**
   * A "resume" section that is not an array gives status 500 after the
   * snapshot is written, and no workbook and no mail.
   */
  lemma SubmitServerErrorIff(cfg: Config, data: Submission, iso: string)
    ensures Submit(cfg, data, iso).status == Answered(500) <==>
              UserInfo(data).Success? && exists i :: MalformedSummaryAt(data, i)
    ensures Submit(cfg, data, iso).status == Answered(500) ==>
              var o := Submit(cfg, data, iso);
              o.snapshot.Some? && o.workbook.None? && o.mails == []
  {
    PassFailsIff(EmptyPass, data);
    HtmlPassFailsIffSummarySheetFails(data);
  }

  /** Every other submission is answered with 200 and a workbook. */
  lemma SubmitAnsweredOk(cfg: Config, data: Submission, iso: string)
    requires UserInfo(data).Success? && forall i :: !MalformedSummaryAt(data, i)
    ensures Submit(cfg, data, iso).status == Answered(200)
    ensures Submit(cfg, data, iso).workbook.Some?
  {
    PassFailsIff(EmptyPass, data);
    HtmlPassFailsIffSummarySheetFails(data);
  }

  /** When neither cleaned name contains ".json", the workbook is the snapshot's name with the ".xlsx" extension. */
  lemma SubmitWorkbookOfPlainNames(cfg: Config, data: Submission, iso: string)
    requires Submit(cfg, data, iso).workbook.Some?
    requires UserFields(data).Success?
    requires !Contains(CleanName(UserFields(data).value.lastName), ".json")
    requires !Contains(CleanName(UserFields(data).value.firstName), ".json")
    ensures var o := Submit(cfg, data, iso);
            && o.snapshot.Some? && |o.snapshot.value| >= 5 && o.snapshot.value[|o.snapshot.value| - 5..] == ".json"
            && o.workbook.value.path == DataDir + ExcelName(o.snapshot.value)
  {
    var user := UserFields(data).value;
    SubmitWorkbookAtSnapshot(cfg, data, iso);
    SnapshotNameIsJson(user.lastName, user.firstName, iso);
    SnapshotJsonOnlyAtEnd(user.lastName, user.firstName, iso);
  }

  /** The workbook `/submit` writes sits at the workbook path of its snapshot. */
  lemma SubmitWorkbookAtSnapshot(cfg: Config, data: Submission, iso: string)
    requires Submit(cfg, data, iso).workbook.Some?
    requires UserFields(data).Success?
    ensures var user := UserFields(data).value;
            var o := Submit(cfg, data, iso);
            && o.snapshot == Some(SnapshotName(user.lastName, user.firstName, iso))
            && o.workbook.value.path == WorkbookPath(o.snapshot.value)
  {
  }

  /** With the last name ".json", the workbook written by `/submit` keeps the ".json" extension. */
  lemma SubmitWorkbookOfJsonLastName(cfg: Config, data: Submission, iso: string)
    requires Submit(cfg, data, iso).workbook.Some?
    requires UserFields(data).Success? && UserFields(data).value.lastName == ".json"
    ensures var path := Submit(cfg, data, iso).workbook.value.path;
            |path| >= 5 && path[|path| - 5..] == ".json"
  {
    var user := UserFields(data).value;
    SubmitWorkbookAtSnapshot(cfg, data, iso);
    ExcelNameAsWrittenMisses(user.firstName, iso);
    var e := ExcelNameAsWritten(SnapshotName(".json", user.firstName, iso));
    assert (DataDir + e)[|DataDir + e| - 5..] == e[|e| - 5..];
  }

  /** The admin mail is built exactly when a BCC address is configured, the user mail exactly when an e-mail was given. */
  lemma SubmitMailsIff(cfg: Config, user: User, body: AdminBody, path: string)
    ensures var m := SubmitMails(cfg, user, body, path);
            && |m| == (if cfg.adminBcc != "" then 1 else 0) + (if user.email != "" then 1 else 0)
            && ((exists k :: 0 <= k < |m| && m[k].body.AdminHtml?) <==> cfg.adminBcc != "")
            && ((exists k :: 0 <= k < |m| && m[k].body.UserTemplate?) <==> user.email != "")
            && (cfg.adminBcc != "" ==> m[0] == AdminMail(cfg, user, body, path))
  {
    var m := SubmitMails(cfg, user, body, path);
    if cfg.adminBcc != "" {
      assert m[0].body.AdminHtml?;
    }
    if user.email != "" {
      assert m[|m| - 1].body.UserTemplate?;
    }
  }

  // ---------------------------------------------------------------------
  // /submit-radar

  /** The radar workbook: its path and its two sheets. */
  datatype RadarWorkbook = RadarWorkbook(path: string, responses: seq<DetailRow>, info: seq<(string, string)>)

  datatype RadarOutcome = RadarOutcome(status: Status, workbook: RadarWorkbook, mail: Envelope)

  function RadarMail(cfg: Config, req: RadarRequest, rows: seq<RadarRow>, path: string): Envelope {
    Envelope("\"Krialys Radar de maturit\U{E9}\" <" + cfg.outlookUser + ">", [cfg.adminBcc],
             "Radar de maturit\U{E9} - " + FormTitle(req.formNum),
             RadarHtml(HeaderOf(req), rows), [Attachment("radar-.xlsx", path)])
  }

  /**
   * `/submit-radar`: one workbook and one mail built for the BCC address.
   * The mail is built even without a BCC address; the transport's refusal
   * of such a mail is not part of this model.
   */
  function SubmitRadar(cfg: Config, req: RadarRequest): RadarOutcome {
    var path := DataDir + RadarFileName(FormTitle(req.formNum));
    RadarOutcome(Answered(200), RadarWorkbook(path, SheetRows(req.questions), InfoSheet(req)),
                 RadarMail(cfg, req, HtmlRows(req.questions), path))
  }

  method HandleSubmitRadar(cfg: Config, req: RadarRequest) returns (o: RadarOutcome)
    ensures o == SubmitRadar(cfg, req)
  {
    var title := FormTitle(req.formNum);
    var rows := BuildHtmlRows(req.questions);
    var sheet1 := BuildSheetRows(req.questions);
    var sheet2 := InfoSheet(req);
    var path := DataDir + RadarFileName(title);
    return RadarOutcome(Answered(200), RadarWorkbook(path, sheet1, sheet2), RadarMail(cfg, req, rows, path));
  }

  /**
   * The radar mail carries the table the workbook's first sheet mirrors,
   * and its attachment is the workbook, named "radar-.xlsx" whatever the form.
   */
  lemma RadarMailMatchesWorkbook(cfg: Config, req: RadarRequest)
    ensures var o := SubmitRadar(cfg, req);
            && o.mail.body.RadarHtml?
            && |o.mail.body.rows| == |o.workbook.responses|
            && (forall k :: 0 <= k < |o.mail.body.rows| ==> o.workbook.responses[k] == AsSheetRow(o.mail.body.rows[k]))
            && o.mail.attachments == [Attachment("radar-.xlsx", o.workbook.path)]
            && o.mail.to == [cfg.adminBcc]
  {
    SheetMatchesTable(req.questions);
  }
}
