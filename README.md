# Krialys diagnostic server: a Dafny model of its report derivation

The server (`server.js`) has two routes. `/submit` receives a maturity
diagnostic as one JSON object: sections keyed by theme, in the order
`Object.entries` lists them. It writes a raw snapshot, builds an HTML report
for the administrator and a two-sheet workbook ("Réponses par thématique" and
"Résumé synthétique"), and sends up to two mails. `/submit-radar` receives a
radar questionnaire. It builds a heading, a response table and a two-sheet
workbook, and mails them to the administrator.

This project models what the handlers derive from a request, as Dafny values:
- which sections become info lists, detail rows, the summary table or nothing;
- the rows of both workbooks;
- the comment block and the global average;
- the file names;
- which envelopes are built, and which status code is answered.

The handlers build their outputs in `forEach` loops. Those loops become
`while` loops in methods (`Report.RunHtmlPass`, `Sheets.BuildDetailSheet`,
`Sheets.BuildSummarySheet`, `Report.CollectNotes`, `Radar.BuildHtmlRows`,
`Radar.BuildSheetRows`), and the handlers call them from methods of their
own (`Dispatch.HandleSubmit` with its try block `Dispatch.RunSubmitTry`, and
`Dispatch.HandleSubmitRadar`). Each method is proved equal to a specification
function, and the properties are proved about those functions.

Modules, in dependency order:
- `Wrappers`: `Option` and `Result`.
- `JsText`: JavaScript whitespace and `trim`, lower-casing, `includes`, and accent removal (NFD followed by stripping U+0300–U+036F).
- `JsNumber`: a decimal-prefix `parseFloat` returning `Option<real>`, where `None` is NaN.
- `Maturity`: `getRecommendation`.
- `Question`: the question regex `^(\d+)[^\w]*(.*)$`.
- `Naming`: both `clean` helpers, the snapshot name, and the workbook names.
- `Submission`: the request shape, JavaScript truthiness, `getField`, and section classification.
- `Sheets`: the two `/submit` worksheets.
- `Report`: the HTML pass, the comment block, the global average, and the admin body.
- `Radar`: the `/submit-radar` derivations.
- `Dispatch`: both handlers end to end.
- `Seqs`: generic facts about concatenation, prefixes and suffixes.

The environment variables, the clock's ISO timestamp and the request body are
parameters. The model assumes the server is started from its own directory,
so that `./data/` (the snapshot, server.js:54-55) and
`path.join(__dirname, "data")` (the workbooks, server.js:227 and 657) are the
same directory, written `data/`.

Points of the code's behaviour that the model follows exactly:
- The separator dropped after a question number may contain line terminators. `[^\w]` matches them; only the text after it must not contain one, because `.` and `$` forbid it.
- The summary sheet copies `theme` and `score` exactly as given. A missing field stays missing (`None`), and only the recommendation is recomputed.
- The comment block requires the exact key `"Commentaire"`. The report loop skips every key that normalizes to "commentaire", so another spelling, such as "commentaire" or "Commentaíre", is dropped from both (`Report.OtherCommentSpellingIsLost`).
- `\w` is ASCII-only, so a question whose text starts with a letter outside ASCII loses that letter with the separators: "1. Évaluation" gives "1" and "valuation" (`Question.SplitOfAccentedTitle`).
- A submission's keys are taken in order. Lookups take the first section with the key, as they would for the unique keys `JSON.parse` yields.

## Model

| member | source | states |
|---|---|---|
| Maturity.GetRecommendation | server.js:43-51 | "Score invalide" exactly when the score does not parse; otherwise one of the five level labels |
| Maturity.RecommendationTable | server.js:46-50 | for a parsed score v, level 5 iff v >= 4.5, level 4 iff 3.5 <= v < 4.5, level 3 iff 2.5 <= v < 3.5, level 2 iff 1.5 <= v < 2.5, level 1 iff v < 1.5 |
| Maturity.LevelMonotone | server.js:46-50 | the level never decreases as the score grows |
| Maturity.LevelCountsBounds | server.js:46-50 | the level is one plus the number of inclusive lower bounds 1.5, 2.5, 3.5, 4.5 reached |
| Maturity.LabelsDistinct | server.js:45-50 | the five labels are pairwise distinct and none is the sentinel |
| Maturity.RecommendationOf | server.js:45-50 | NaN gives the sentinel; a number gives the label of its level |
| JsNumber.ParseFloat | server.js:44 | a value exactly when the text after leading whitespace starts with an optional sign then a digit, or a point and a digit |
| JsNumber.ParseFloatInteger | server.js:44 | a digit string followed by a non-numeric rest parses to its integer value |
| JsNumber.ParseFloatDecimal | server.js:44 | "d.f" followed by a non-numeric rest parses to d + f/10^len(f) |
| JsText.TrimEnds | server.js:31 | the result is an infix s[a..b] of the input with only JavaScript whitespace before a and after b, and none at its own ends; an all-whitespace string gives ""; a string without whitespace at its ends is unchanged (also line 60) |
| JsText.LowerFolds | server.js:31 | `toLowerCase` keeps the length, leaves no capital of A–Z or Latin-1, keeps every other character, and lower-casing twice is lower-casing once (also line 79) |
| JsText.NormalizeKeyIdempotent | server.js:79 | the key normalization leaves no combining mark, no decomposable letter and no capital, so normalizing a normalized key changes nothing (also line 214) |
| JsText.ReplaceSpaceRunsLeavesNoSpace | server.js:20 | `replace(/\s+/g, "-")` leaves no whitespace (also line 38) |
| JsText.ReplaceSpaceRunsOfUnspaced | server.js:20 | text without whitespace is unchanged (also line 38) |
| JsText.ReplaceSpaceRunsAfterWord | server.js:20 | text without whitespace is copied as it is, whatever follows it (also line 38) |
| JsText.ReplaceSpaceRunsOfRun | server.js:20 | a maximal whitespace run becomes exactly one "-": x + w + y, with x free of whitespace, w a non-empty run and y not starting with whitespace, gives x + "-" and then what y gives (also line 38) |
| JsText.RemoveAccentsLeavesNoMark | server.js:17-18 | after `normalize("NFD")` and the removal of `[\u0300-\u036f]`, no combining mark is left (also at lines 38, 79) |
| JsText.RemoveAccentsOfPlain | server.js:17-18 | text below U+00C0 without combining marks comes out of the accent removal unchanged (also at lines 38, 79) |
| JsText.DecomposeOfUnaccented | server.js:17 | `normalize("NFD")` leaves text below U+00C0 unchanged (also at lines 38, 79) |
| JsText.StripMarksLeavesNoMark | server.js:18 | the mark removal leaves no character of U+0300..U+036F (also at lines 38, 79) |
| JsText.StripMarksOfUnmarked | server.js:18 | the mark removal keeps text without marks unchanged (also at lines 38, 79) |
| JsText.StripMarksOfChar | server.js:18 | a single character is dropped exactly when it is a mark of U+0300..U+036F, and kept otherwise (also at lines 38, 79) |
| JsText.StripMarksAppend | server.js:18 | the mark removal works character by character: it distributes over concatenation, so every other character is kept, in order (also at lines 38, 79) |
| JsText.ContainsIff | server.js:83 | `includes` holds exactly when the pattern occurs at some index |
| Question.SplitQuestion | server.js:117-119 | with no number the text is the whole question; otherwise the number is the maximal leading digit run, a prefix of the question; the text is a suffix starting with a word character and holding no line terminator; and everything between them is non-word |
| Question.MatchSound | server.js:117 | a match yields d, sep and t with question == d + sep + t, in the shape the regex demands |
| Question.MatchCompleteAndGreedy | server.js:117 | whenever the regex can match, the matcher finds a match, with the maximal digit run and the maximal separator |
| Question.SplitNumbered | server.js:117-119 | digits, then non-word separators, then a word-initial text without line terminators, split into exactly that number and text |
| Question.SplitUnnumbered | server.js:117-119 | a question that does not start with a digit gives number "" and the whole question as text |
| Question.SplitDropsNonAsciiInitial | server.js:117 | a letter outside ASCII right after the separators is not a `\w` character, so it is dropped with them and the text starts after it |
| Question.SplitOfAccentedTitle | server.js:117-119 | "1. Évaluation" splits into "1" and "valuation" |
| Submission.JsString | server.js:60 | `String(value)` of a string is the string itself; for any value but a number it is "" exactly for "" and the empty array |
| Submission.JoinObjects | server.js:60 | `String` of an array of n objects has length 16·n − 1 for n ≥ 1 and 0 for n = 0 |
| Submission.Find | server.js:29 | `data[key]` is absent exactly when no section has the key, and otherwise is the first section with it |
| Submission.UserInfo | server.js:29 | `data["Informations Utilisateur"] \|\| []`: a failure exactly when the section is truthy and not an array; the array's elements when it is an array; [] otherwise |
| Submission.GetFieldFirstMatch | server.js:30-31 | the field is the value of the first entry whose lower-cased, trimmed label equals the lower-cased, trimmed target ("" when that entry has no value) |
| Submission.GetFieldNoMatch | server.js:30-31 | the field is "" when no label matches |
| Submission.GetFieldIgnoresLater | server.js:30-31 | entries after a matching one never change the field |
| Submission.UserFields | server.js:33-35 | first name, last name and e-mail are the fields "Prénom", "Nom" and "E-mail"; a failure exactly when `.find` would throw |
| Submission.MissingUserInfoGivesEmptyFields | server.js:29-35 | without the section, or with a falsy one, all three fields are "" |
| Submission.Classify | server.js:78-132 | each section takes exactly one of five branches, each stated by its iff condition in the handler's order: comment key, "resume" key, info list, scored list, nothing |
| Submission.CommentKeyIsNotSummaryKey | server.js:81-83 | a key normalizing to "commentaire" never contains "resume" |
| Submission.SummaryBranchIffSummaryKey | server.js:83 | the summary branch is taken exactly when the normalized key contains "resume" |
| Submission.EmptyArrayIsInfo | server.js:108 | an empty array outside the first two branches is an info list, since `every` holds vacuously |
| Submission.InfoWinsOverScored | server.js:108-115 | an array that is both an info list and a scored list is rendered as an info list |
| Sheets.RowsOf | server.js:189-199 | one detail row per element, in order, holding the theme, the split question and the parsed note |
| Sheets.BuildDetailSheet | server.js:186-203 | the worksheet loop builds exactly the detail sheet: the rows of every scored array, in section order |
| Sheets.AddScoredRows | server.js:189-201 | appends exactly the rows of one scored array |
| Sheets.DetailSheetAppend | server.js:186-203 | the sheet of a concatenation is the concatenation of the sheets |
| Sheets.DetailSheetIgnoresKeys | server.js:186-188 | a scored array contributes its rows whatever its key, including a comment or "resume" key |
| Sheets.SummaryRows | server.js:216-222 | one summary row per element of a "resume" array, in order |
| Sheets.SummaryRowRecomputed | server.js:217-221 | theme and score are copied; the recommendation is `getRecommendation` of the score (of "undefined" when absent); a given "recommendation" field changes nothing |
| Sheets.AbsentScoreIsInvalid | server.js:220 | an absent score gives "Score invalide" |
| Sheets.SummarySheet | server.js:213-224 | a failure is always the "resume" section that is not an array |
| Sheets.BuildSummarySheet | server.js:213-224 | the worksheet loop builds exactly the summary sheet, or throws as it does |
| Sheets.AddSummaryRows | server.js:216-222 | appends exactly the rows of one "resume" array |
| Sheets.SummarySheetFailsIff | server.js:215-216 | the summary sheet fails exactly when some "resume" section is not an array |
| Sheets.Only | server.js:78-132 | the sections taking a given branch, in order: a section is kept exactly when it is one of the submission's and takes that branch |
| Sheets.OnlyAppend | server.js:78-132 | the sections of a concatenation taking a branch are those of the first part, then those of the second |
| Sheets.SummarySheetAppend | server.js:213-224 | the summary sheet of a concatenation is the first part's sheet followed by the second's, and a failure when either fails |
| Sheets.SummarySheetOfSection | server.js:213-224 | one section gives the rows of its array under a "resume" key, a failure under a "resume" key without an array, and nothing under any other key |
| Sheets.SummarySheetKeepsEverySection | server.js:213-224 | the rows of every "resume" array appear in the sheet, between the rows of the sections before it and those of the sections after it |
| Report.RunHtmlPass | server.js:72-132 | the report loop computes exactly the HTML pass |
| Report.PassFailsIff | server.js:83-95 | the report loop throws exactly when some "resume" section is not an array, and then with that error |
| Report.PassInfos | server.js:108-111 | the info blocks are those of the info-list sections, in order |
| Report.PassRows | server.js:114-131 | the detail rows of the report are the detail sheet restricted to the scored-list sections |
| Report.PassSummaryLast | server.js:83-105 | with "resume" sections, the summary table holds the rows of the last one only |
| Report.PassSummaryUntouched | server.js:83-105 | sections without a "resume" key leave the summary as it was |
| Report.HtmlSummaryAbsent | server.js:73 | without a "resume" key there is no summary table |
| Report.HtmlPassFailsIffSummarySheetFails | server.js:95 | the report loop throws exactly when the summary sheet loop throws (also line 216) |
| Report.SummaryTableIsSheetSuffix | server.js:84-105 | the report's summary table is the final segment of the summary sheet, which holds the rows of every "resume" section (also at lines 213-224) |
| Report.SheetWithoutSummary | server.js:213-224 | without a "resume" key the summary sheet is empty |
| Report.InfoItems | server.js:110 | one item per element, holding its label and value |
| Report.InfoBlocks | server.js:108-111 | every block built from info lists is an info section |
| Report.AdminSectionsLayout | server.js:134-153 | the report sections are the info blocks, followed by the detail table only when there is at least one scored row |
| Report.CommentBlockOf | server.js:58-68 | no block exactly when the key "Commentaire" is absent; otherwise the placeholder exactly when the value's string form is all whitespace, and else the user comment, which is that string form trimmed: non-empty, with no whitespace at its ends |
| JsText.TrimOfSpaces | server.js:60 | a string that trims to "" is all whitespace (also line 64) |
| JsText.TrimEmptyIffSpaces | server.js:60 | `trim` gives "" exactly when the text is all whitespace (also line 64) |
| Report.CommentOf | server.js:60-64 | the placeholder exactly when the value's string form is all whitespace; otherwise that string form trimmed, non-empty, with no whitespace at its ends |
| Report.OtherCommentSpellingIsLost | server.js:59 | another spelling of "commentaire" yields neither a comment block nor any report section (also line 81) |
| Report.CollectNotes | server.js:156-165 | the average loop collects exactly the parsed notes of every scored array |
| Report.GlobalAverage | server.js:167-171 | an average exactly when at least one note parses |
| Report.NotesAreSheetNotes | server.js:156-165 | the averaged notes are exactly the parsed notes of the detail sheet, in order (also at lines 186-203) |
| Report.AverageIffParsedNote | server.js:168 | an average exactly when some detail-sheet row has a parsed note |
| Report.MeanWithin | server.js:169 | the mean of notes between two bounds lies between them |
| Report.SumBounds | server.js:169 | the sum of n values between lo and hi lies between n·lo and n·hi |
| Naming.KeepAllowed | server.js:19 | only characters of `[a-zA-Z0-9-_ ]` are kept, and text made of them only is unchanged |
| Naming.KeepAllowedOfChar | server.js:19 | a single character is kept exactly when it is in `[a-zA-Z0-9-_ ]` |
| Naming.KeepAllowedAppend | server.js:19 | the filter works character by character: it distributes over concatenation, so every allowed character is kept, in order |
| Naming.Clean | server.js:16-20 | the output holds only `[A-Za-z0-9_-]`, hence no whitespace |
| Naming.CleanJoinsWords | server.js:16-20 | two words of `[A-Za-z0-9_-]` separated by a run of blanks come out as the two words joined by one "-" |
| Naming.CleanIdempotent | server.js:16-20 | cleaning twice is cleaning once |
| Naming.CleanName | server.js:38 | the filename `clean` leaves no whitespace and no combining mark |
| Naming.DashTimestamp | server.js:39 | same length; every ":" and "." becomes "-" and every other character is kept |
| Naming.ReplaceFirstAt | server.js:227 | a string `replace` rewrites the first occurrence of the pattern only |
| Naming.ExcelNameAsWrittenMisses | server.js:40 | with last name ".json", the workbook name as written still ends in ".json" (also line 227) |
| Naming.ExcelName | server.js:227 | the snapshot name with its final ".json" replaced by ".xlsx" and the rest kept |
| Naming.SnapshotNameIsJson | server.js:40 | every snapshot name ends in ".json" |
| Naming.SnapshotNameLayout | server.js:40 | "responses-", the cleaned last name, "-", the cleaned first name, "-", the dashed timestamp and ".json", each at its position, and nothing else |
| Naming.SnapshotJsonOnlyAtEnd | server.js:40 | when neither cleaned name contains ".json", ".json" occurs in the snapshot name only as its extension |
| Naming.ExcelNameAsWrittenAgrees | server.js:227 | when ".json" occurs in a name only as its final extension, the first-occurrence replace gives the name's stem followed by ".xlsx" |
| Naming.ExcelNameAgreesForPlainNames | server.js:227 | when neither cleaned name contains ".json", the code's workbook name is the snapshot's stem followed by ".xlsx" (also line 40) |
| Naming.RadarFileName | server.js:656 | "radar-", then only `[A-Za-z0-9_-]`, then ".xlsx" |
| Radar.FormTitle | server.js:567-572 | forms "1", "2" and "3" get their titles; any other form number gets "Formulaire " followed by it |
| Radar.FormTitleKnownIff | server.js:567-572 | a known form exactly when the title is one of the three "Évaluation" titles, unknown exactly when it starts with "Formulaire " |
| Radar.ThemeHtmlRows | server.js:579-591 | one table row per response, in order, holding the theme, the split question and the raw note |
| Radar.ThemeSheetRows | server.js:629-641 | one sheet row per response, in order, holding the parsed note |
| Radar.BuildHtmlRows | server.js:577-592 | the `rows +=` loop builds exactly the table rows |
| Radar.AddThemeHtmlRows | server.js:579-591 | appends exactly the rows of one theme |
| Radar.BuildSheetRows | server.js:628-642 | the `sheet1.addRow` loop builds exactly the sheet rows |
| Radar.AddThemeSheetRows | server.js:629-641 | appends exactly the rows of one theme |
| Radar.SheetMatchesTable | server.js:577-592 | the sheet and the mailed table have the same rows, pairwise, with the same theme, number and question, and the parsed note of the raw note (also at lines 628-642) |
| Radar.InfoSheet | server.js:645-653 | eight rows, the first being the header ("Champ", "Valeur") |
| Radar.FallbackIffEmptyCell | server.js:596-602 | on a string or missing field, the heading shows its fallback exactly when the sheet cell is "" (also at lines 647-653) |
| Radar.HeaderAgreesWithInfoSheet | server.js:594-602 | every field of the mailed heading is the matching sheet cell, or its own fallback when that cell is "" (also at lines 645-653) |
| Radar.EmptyArrayDefeatsFallback | server.js:596-602 | an empty array is truthy, so it suppresses the fallback while its string form is "" |
| Dispatch.WorkbookPath | server.js:227 | the workbook lies in the data directory under the name the first-occurrence replace gives, which is the snapshot's stem followed by ".xlsx" when ".json" occurs only as its extension |
| Dispatch.SubmitWorkbookOfPlainNames | server.js:227 | when neither cleaned name contains ".json", `/submit` writes its workbook as the snapshot's stem followed by ".xlsx" in the data directory (also line 40) |
| Dispatch.SubmitWorkbookOfJsonLastName | server.js:227 | with the last name ".json", the workbook `/submit` writes keeps the ".json" extension (also line 40) |
| Dispatch.HandleSubmit | server.js:24-558 | the handler computes exactly the outcome of `/submit`, with the workbook path as the code builds it and every file write succeeding |
| Dispatch.RunSubmitTry | server.js:53-557 | the try block computes exactly the outcome of `/submit` once the user fields are read: 500 when the report pass throws, otherwise 200 with the workbook at the path the code builds and the mails |
| Dispatch.BuildAdminBody | server.js:57-171 | the comment, report and average loops compute exactly the admin body |
| Dispatch.SubmitUnansweredIff | server.js:29-31 | no answer exactly when `.find` throws before the try; then no file and no mail (also line 53) |
| Dispatch.SubmitServerErrorIff | server.js:54-55 | status 500 exactly when the user fields are read and some "resume" section is not an array; the snapshot is written, with no workbook and no mail (also at lines 95, 554-557) |
| Dispatch.SubmitAnsweredOk | server.js:552 | every other submission is answered 200, with a workbook, when the file writes succeed |
| Dispatch.SubmitMailsIff | server.js:243-249 | the admin mail exactly when a BCC address is set, and then first; the user mail exactly when an e-mail was given (also at lines 548-549) |
| Dispatch.HandleSubmitRadar | server.js:561-691 | the radar handler computes exactly the outcome of `/submit-radar` |
| Dispatch.RadarMailMatchesWorkbook | server.js:672-684 | the mail goes to the BCC address and carries the table the first sheet mirrors row by row, attached as "radar-.xlsx" |

## Left out

- IEEE arithmetic: notes and scores are exact reals. `toFixed(2)` rounding of the average (server.js:169) is not modelled, and neither are exponent overflow nor `parseFloat("Infinity")`, which the model reads as NaN.
- Unicode: NFD decomposition covers the Latin-1 accented letters only, and lower-casing covers ASCII and Latin-1 only; other scripts pass through unchanged.
- HTML bytes: the admin report, the radar heading and the table are structured values. Markup, escaping and the static user template (server.js:270-545) are not modelled.
- Dispatch.SubmitAnsweredOk: assumes every file write succeeds. The filename `clean` (server.js:38) keeps "/" and NUL, so a name such as "a/b" points `writeFileSync` (server.js:55) into a missing directory, and a NUL fails Node's path check; either throws, and the handler answers 500 (server.js:554-557) with no file written, where the model answers 200. The same holds for `Dispatch.HandleSubmit` and `Dispatch.RunSubmitTry`.
- Radar responses whose `question` is not a string: `r.question.match` throws (server.js:580) and the handler answers 500. A radar response holds strings only, so `Dispatch.HandleSubmitRadar` does not capture that case.
- StripMarksOfUnmarked: states only the case without marks; that every other character of marked text is kept, in order, is stated by `JsText.StripMarksAppend` with `JsText.StripMarksOfChar`.
- KeepAllowed: its own contract states only the shape of the result; that every allowed character is kept, in order, is stated by `Naming.KeepAllowedAppend` with `Naming.KeepAllowedOfChar`.
- The `.xlsx` encoding, the column headers and widths, `fs.existsSync`, `mkdirSync`, `writeFileSync`, `writeFile` and `fs.unlink`: file I/O. An outcome records only which files would be written.
- Mail transport: `createTransport` and `sendMail`. A rejected `sendMail` (which would turn a 200 into a 500) is not modelled. In particular the radar mail is addressed to `ADMIN_BCC_EMAIL` even when it is unset (server.js:674), and the transport then refuses it for lack of a recipient; the model answers 200 there.
- An unset `ADMIN_BCC_EMAIL` is the empty string in the configuration, which is exact for the admin-mail test (server.js:244) but not for the radar recipient, where the code passes `undefined`.
- The process: an `Unanswered` outcome is a rejected handler promise. Assuming Express 4, which leaves the rejection of an async handler unhandled, that also ends the Node process by default; what follows is not modelled. Express 5 would answer 500 instead.
- The working directory: `./data/` is resolved against it and `__dirname` against the server's file. The model assumes they agree.
- Express routing, CORS, body parsing, `listen`, and all console logging.
- The clock: `new Date().toISOString()` is the `iso` input.
- Array elements that are not objects, and entry values that are not strings: elements are maps from string to string.
- A missing radar user field is `Null`. A `null` user, for which the default `{}` does not apply and the field reads throw, is not modelled.
- Radar `questions` or `responses` that are not arrays (they throw, giving status 500) are not modelled: they are sequences.
- The radar form number is looked up by its string form. Inherited property names such as "constructor" are not modelled.
- The ordering `Object.entries` gives to integer-like keys: the submission is already in enumeration order.
- `Dispatch.AdminSubject` has no contract of its own: it is `trim` of the subject template.
- `test-mail.js` and `testSubmit.js`: an SMTP smoke test and an HTTP client posting a fixture, with no logic of the server.

## Findings

| source | as written | input that shows it | evidently intended | confidence | as-written member | corrected member |
|---|---|---|---|---|---|---|
| server.js:227 | `filename.replace(".json", ".xlsx")` replaces the first ".json" of the snapshot name | last name ".json" (kept by the filename `clean`, which keeps points): the name becomes "responses-.xlsx-…-….json" and the workbook keeps the ".json" extension | replace the final ".json" extension with ".xlsx" | not executed | Naming.ExcelNameAsWrittenMisses | Naming.ExcelName |

The handler follows the code as written: `Dispatch.WorkbookPath` applies the
first-occurrence replace. `Naming.ExcelName` is the intended name, and
`Naming.ExcelNameAgreesForPlainNames` proves that the two agree whenever
neither cleaned name contains ".json".
