/**
 * The body of a `/submit` request and what the handler reads from it:
 * the user fields of the "Informations Utilisateur" section (`getField`)
 * and the branch each section takes in the report loop.
 */
module Submission {
  import opened Wrappers
  import opened JsText

  /** An element of an array section: a JSON object, here with string values. */
  type Entry = map<string, string>

  /** A section's value, as far as the handler distinguishes it. */
  datatype Payload =
    | Arr(elems: seq<Entry>)
    | Str(s: string)
    | Num(text: string)   // the number's JavaScript string form
    | Bool(b: bool)
    | Null
    | Obj                 // an object that is not an array

  /** The sections in the order `Object.entries` yields them. */
  type Submission = seq<(string, Payload)>

  /** The two ways the handler throws on a well-formed JSON body. */
  datatype Failure =
    | UserInfoNotArray   // `.find` on a truthy non-array, before the try: the request is never answered
    | SummaryNotArray    // `.map` on a non-array "resume" section, inside the try: status 500

  predicate Truthy(p: Payload) {
    match p
    case Arr(_) => true
    case Str(s) => s != ""
    case Num(t) => t != "0" && t != "NaN"
    case Bool(b) => b
    case Null => false
    case Obj => true
  }

  /** `String` of an array of n objects: n copies of "[object Object]" joined by commas. */
  function JoinObjects(n: nat): (r: string)
    ensures |r| == if n == 0 then 0 else 16 * n - 1
  {
    if n == 0 then "" else if n == 1 then "[object Object]" else JoinObjects(n - 1) + ",[object Object]"
  }

  /** `String(value)`: apart from numbers, "" exactly for the empty string and the empty array. */
  function JsString(p: Payload): (r: string)
    ensures !p.Num? ==> (r == "" <==> p == Str("") || p == Arr([]))
    ensures p.Str? ==> r == p.s
  {
    match p
    case Arr(elems) => JoinObjects(|elems|)
    case Str(s) => s
    case Num(t) => t
    case Bool(b) => if b then "true" else "false"
    case Null => "null"
    case Obj => "[object Object]"
  }

  predicate HasKey(data: Submission, key: string) {
    exists i :: 0 <= i < |data| && data[i].0 == key
  }

  /** `data[key]`: the payload of the first section with that key. */
  function Find(data: Submission, key: string): (r: Option<Payload>)
    ensures r.None? <==> !HasKey(data, key)
    ensures r.Some? ==> exists i :: 0 <= i < |data| && data[i] == (key, r.value)
                                  && forall j :: 0 <= j < i ==> data[j].0 != key
  {
    if data == [] then None
    else if data[0].0 == key then
      assert data[0] == (key, data[0].1);
      Some(data[0].1)
    else
      var r := Find(data[1..], key);
      assert forall i :: 1 <= i < |data| ==> data[i] == data[1..][i - 1];
      r
  }

  // ---------------------------------------------------------------------
  // getField

  const UserInfoKey: string := "Informations Utilisateur"

  /** `data["Informations Utilisateur"] || []`, and whether `.find` may then be called on it. */
  function UserInfo(data: Submission): (r: Result<seq<Entry>, Failure>)
    ensures r.Failure? <==> Find(data, UserInfoKey).Some? && Truthy(Find(data, UserInfoKey).value)
                            && !Find(data, UserInfoKey).value.Arr?
    ensures r.Success? && Find(data, UserInfoKey).Some? && Find(data, UserInfoKey).value.Arr? ==>
              r.value == Find(data, UserInfoKey).value.elems
    ensures r.Success? && !(Find(data, UserInfoKey).Some? && Find(data, UserInfoKey).value.Arr?) ==>
              r.value == []
  {
    match Find(data, UserInfoKey)
    case None => Success([])
    case Some(p) =>
      if !Truthy(p) then Success([])
      else if p.Arr? then Success(p.elems)
      else Failure(UserInfoNotArray)
  }

  /** How `getField` compares labels: lower-cased, then trimmed. */
  function LabelKey(s: string): string {
    Trim(Lower(s))
  }

  predicate LabelMatches(f: Entry, lab: string) {
    "label" in f && LabelKey(f["label"]) == LabelKey(lab)
  }

  /** `f.value || ""` on the entry `find` returned. */
  function ValueOf(f: Entry): string {
    if "value" in f then f["value"] else ""
  }

  predicate IsFirstMatch(info: seq<Entry>, lab: string, i: int) {
    && 0 <= i < |info| && LabelMatches(info[i], lab)
    && forall j :: 0 <= j < i ==> !LabelMatches(info[j], lab)
  }

  /**
   * `getField(label)`: the value of the first entry whose label matches,
   * and "" when no label matches or that first match has no value or an
   * empty one. Later matching entries are never consulted.
   */
  function GetField(info: seq<Entry>, lab: string): string
  {
    if info == [] then ""
    else if LabelMatches(info[0], lab) then ValueOf(info[0])
    else GetField(info[1..], lab)
  }

  /** No entry's label matches: the field is "". */
  lemma {:induction false} GetFieldNoMatch(info: seq<Entry>, lab: string)
    requires forall i :: 0 <= i < |info| ==> !LabelMatches(info[i], lab)
    ensures GetField(info, lab) == ""
  {
    if info != [] {
      assert !LabelMatches(info[0], lab);
      GetFieldNoMatch(info[1..], lab);
    }
  }

  /** The field is the value of the first entry whose label matches. */
  lemma {:induction false} GetFieldFirstMatch(info: seq<Entry>, lab: string, i: int)
    requires IsFirstMatch(info, lab, i)
    ensures GetField(info, lab) == ValueOf(info[i])
    decreases i
  {
    if i > 0 {
      FirstMatchInTail(info, lab, i);
      GetFieldFirstMatch(info[1..], lab, i - 1);
    }
  }

  lemma FirstMatchInTail(info: seq<Entry>, lab: string, i: int)
    requires IsFirstMatch(info, lab, i) && i > 0
    ensures !LabelMatches(info[0], lab) && IsFirstMatch(info[1..], lab, i - 1) && info[1..][i - 1] == info[i]
  {
    assert forall j :: 0 <= j < i - 1 ==> info[1..][j] == info[j + 1];
  }

  /** Entries after a matching one do not change the result. */
  lemma GetFieldIgnoresLater(a: seq<Entry>, b: seq<Entry>, lab: string)
    requires exists i :: 0 <= i < |a| && LabelMatches(a[i], lab)
    ensures GetField(a + b, lab) == GetField(a, lab)
  {
    var i :| 0 <= i < |a| && LabelMatches(a[i], lab);
    var k := FirstMatchIndex(a, lab, i);
    assert IsFirstMatch(a + b, lab, k);
    GetFieldFirstMatch(a, lab, k);
    GetFieldFirstMatch(a + b, lab, k);
  }

  lemma {:induction false} FirstMatchIndex(a: seq<Entry>, lab: string, i: int) returns (k: int)
    requires 0 <= i < |a| && LabelMatches(a[i], lab)
    ensures k <= i && IsFirstMatch(a, lab, k)
    decreases i
  {
    if exists j :: 0 <= j < i && LabelMatches(a[j], lab) {
      var j :| 0 <= j < i && LabelMatches(a[j], lab);
      k := FirstMatchIndex(a, lab, j);
    } else {
      k := i;
    }
  }

  datatype User = User(firstName: string, lastName: string, email: string)

  /** The three `getField` calls of the handler, which run before its try block. */
  function UserFields(data: Submission): (r: Result<User, Failure>)
    ensures r.Failure? <==> UserInfo(data).Failure?
    ensures r.Success? ==> r.value == User(GetField(UserInfo(data).value, "Prénom"),
                                           GetField(UserInfo(data).value, "Nom"),
                                           GetField(UserInfo(data).value, "E-mail"))
  {
    var info :- UserInfo(data);
    Success(User(GetField(info, "Prénom"), GetField(info, "Nom"), GetField(info, "E-mail")))
  }

  /** Without an "Informations Utilisateur" section, or with a falsy one, all three fields are "". */
  lemma MissingUserInfoGivesEmptyFields(data: Submission)
    requires !HasKey(data, UserInfoKey) || !Truthy(Find(data, UserInfoKey).value)
    ensures UserFields(data) == Success(User("", "", ""))
  {
  }

  // ---------------------------------------------------------------------
  // Classification of a section in the report loop

  datatype Branch =
    | CommentSkipped  // the key normalizes to "commentaire"
    | Summary         // the normalized key contains "resume"
    | InfoList        // every element has "label" and "value"
    | ScoredList      // every element has "note" and "question"
    | Unrendered      // anything else

  predicate IsCommentKey(key: string) {
    NormalizeKey(key) == "commentaire"
  }

  predicate IsSummaryKey(key: string) {
    Contains(NormalizeKey(key), "resume")
  }

  predicate AllHave(elems: seq<Entry>, a: string, b: string) {
    forall i :: 0 <= i < |elems| ==> a in elems[i] && b in elems[i]
  }

  /** `Array.isArray(responses) && responses.every(r => "label" in r && "value" in r)` */
  predicate IsInfo(p: Payload) {
    p.Arr? && AllHave(p.elems, "label", "value")
  }

  /** `Array.isArray(responses) && responses.every(r => "note" in r && "question" in r)` */
  predicate IsScored(p: Payload) {
    p.Arr? && AllHave(p.elems, "note", "question")
  }

  /** The branch the section takes, tried in the handler's order. */
  function Classify(key: string, p: Payload): (b: Branch)
    ensures b == CommentSkipped <==> IsCommentKey(key)
    ensures b == Summary <==> !IsCommentKey(key) && IsSummaryKey(key)
    ensures b == InfoList <==> !IsCommentKey(key) && !IsSummaryKey(key) && IsInfo(p)
    ensures b == ScoredList <==> !IsCommentKey(key) && !IsSummaryKey(key) && !IsInfo(p) && IsScored(p)
    ensures b == Unrendered <==> !IsCommentKey(key) && !IsSummaryKey(key) && !IsInfo(p) && !IsScored(p)
  {
    if IsCommentKey(key) then CommentSkipped
    else if IsSummaryKey(key) then Summary
    else if IsInfo(p) then InfoList
    else if IsScored(p) then ScoredList
    else Unrendered
  }

  /** "commentaire" does not contain "resume", so the first two branches never compete. */
  lemma CommentKeyIsNotSummaryKey(key: string)
    requires IsCommentKey(key)
    ensures !IsSummaryKey(key)
  {
    CommentaireHasNoResume();
  }

  lemma CommentaireHasNoResume()
    ensures !Contains("commentaire", "resume")
  {
    var c := "commentaire";
    ContainsIff(c, "resume");
    forall i | 0 <= i <= 5 ensures !OccursAt(c, "resume", i) {
      assert c[i..i + 6][0] == c[i] != 'r';
    }
  }

  lemma SummaryBranchIffSummaryKey(key: string, p: Payload)
    ensures Classify(key, p) == Summary <==> IsSummaryKey(key)
  {
    if IsCommentKey(key) {
      CommentKeyIsNotSummaryKey(key);
    }
  }

  /** An empty array satisfies every `every`: outside the first two branches it is an info list. */
  lemma EmptyArrayIsInfo(key: string)
    requires !IsCommentKey(key) && !IsSummaryKey(key)
    ensures Classify(key, Arr([])) == InfoList
  {
  }

  /** An array that is both an info list and a scored list is rendered as an info list. */
  lemma InfoWinsOverScored(key: string, p: Payload)
    requires !IsCommentKey(key) && !IsSummaryKey(key) && IsInfo(p) && IsScored(p)
    ensures Classify(key, p) == InfoList
  {
  }
}
