/**
 * The two tables of shared/schema.ts and the zod validators built on them.
 * A validator is modelled as a parse function from a JSON request body to either the
 * parsed value or the list of issues zod reports, together with a predicate that says
 * directly which bodies it accepts.
 */
module Schema {
  import opened Wrappers
  import opened Text
  import opened Json

  // ---------------------------------------------------------------- tables

  /** A row of `users`; `createdAt` and `lastLogin` are milliseconds since the epoch. */
  datatype UserRow = UserRow(
    id: nat,
    username: string,
    password: string,
    createdAt: int,
    lastLogin: Option<int>,
    isActive: bool)

  /** What `insertUserSchema` picks: the two columns a caller supplies. */
  datatype InsertUser = InsertUser(username: string, password: string)

  /** A row of `waitlist_signups`. Nullable columns are `Option`s; times are milliseconds. */
  datatype SignupRow = SignupRow(
    id: nat,
    fullName: string,
    email: string,
    timestamp: int,
    status: string,
    emailVerified: bool,
    verificationToken: Option<string>,
    verificationExpiry: Option<int>,
    referralSource: Option<string>,
    interests: Option<seq<string>>,
    ipAddress: Option<string>,
    userAgent: Option<string>,
    notes: Option<string>,
    priority: int,
    invitedAt: Option<int>,
    declinedAt: Option<int>)

  const DefaultStatus: string := "pending"
  const Statuses: seq<string> := ["pending", "verified", "invited", "declined"]
  const DefaultPriority: int := 0
  const MinPriority: int := 0
  const MaxPriority: int := 10

  /** A row as the column defaults leave it: status pending, e-mail not verified,
      priority 0, and every column without a default and not supplied left null. */
  predicate HasColumnDefaults(row: SignupRow) {
    && row.status == DefaultStatus
    && !row.emailVerified
    && row.priority == DefaultPriority
    && row.verificationToken.None?
    && row.verificationExpiry.None?
    && row.ipAddress.None?
    && row.userAgent.None?
    && row.notes.None?
    && row.invitedAt.None?
    && row.declinedAt.None?
  }

  /** The fields of a signup after `insertWaitlistSignupSchema` has parsed it: only
      these four can come from a caller. */
  datatype SignupInput = SignupInput(
    fullName: string,
    email: string,
    referralSource: Option<string>,
    interests: Option<seq<string>>)

  /** The row `INSERT ... VALUES (input) RETURNING *` produces, given the serial value
      `id` and the transaction time `now` that `defaultNow()` stores. */
  function NewSignupRow(id: nat, input: SignupInput, now: int): (row: SignupRow)
    ensures HasColumnDefaults(row)
    ensures row.id == id && row.timestamp == now
    ensures row.fullName == input.fullName && row.email == input.email
    ensures row.referralSource == input.referralSource && row.interests == input.interests
  {
    SignupRow(id, input.fullName, input.email, now, DefaultStatus, false, None, None,
              input.referralSource, input.interests, None, None, None, DefaultPriority, None, None)
  }

  // ---------------------------------------------------------------- zod issues

  /** One entry of a `ZodError`'s `errors`: the offending field and its message. */
  datatype Issue = Issue(path: string, message: string)

  /** What `schema.safeParse(body)` yields. */
  datatype Parsed<T> = Ok(value: T) | Invalid(issues: seq<Issue>)

  const EmailMessage: string := "Please enter a valid email address"
  const NameTooShortMessage: string := "Name must be at least 2 characters"
  const NameTooLongMessage: string := "Name too long"
  const TokenRequiredMessage: string := "Verification token is required"
  const StatusEnumText: string := "'pending' | 'verified' | 'invited' | 'declined'"
  const PriorityTooSmallMessage: string := "Number must be greater than or equal to 0"
  const PriorityTooBigMessage: string := "Number must be less than or equal to 10"

  function RequiredIssue(path: string): Issue {
    Issue(path, "Required")
  }

  function TypeIssue(path: string, expected: string, got: Json): Issue {
    Issue(path, "Expected " + expected + ", received " + TypeName(got))
  }

  function IssuesOf<T>(p: Parsed<T>): seq<Issue> {
    if p.Ok? then [] else p.issues
  }

  // ---------------------------------------------------------------- insertWaitlistSignupSchema

  /** `z.string().min(2, ...).max(100, ...)` on `fullName`. */
  function ParseFullName(v: Option<Json>): (r: Parsed<string>)
    ensures r.Invalid? ==> |r.issues| > 0
  {
    match v
    case None => Invalid([RequiredIssue("fullName")])
    case Some(JStr(s)) =>
      if |s| < 2 then Invalid([Issue("fullName", NameTooShortMessage)])
      else if |s| > 100 then Invalid([Issue("fullName", NameTooLongMessage)])
      else Ok(s)
    case Some(j) => Invalid([TypeIssue("fullName", "string", j)])
  }

  /** `z.string().email(...)` on `email`: syntax only, no length cap, no normalisation. */
  function ParseEmail(v: Option<Json>): (r: Parsed<string>)
    ensures r.Invalid? ==> |r.issues| > 0
  {
    match v
    case None => Invalid([RequiredIssue("email")])
    case Some(JStr(s)) => if IsEmail(s) then Ok(s) else Invalid([Issue("email", EmailMessage)])
    case Some(j) => Invalid([TypeIssue("email", "string", j)])
  }

  /** `z.string().optional()`: absent is accepted, `null` is not. */
  function ParseOptionalString(path: string, v: Option<Json>): (r: Parsed<Option<string>>)
    ensures r.Invalid? ==> |r.issues| > 0
  {
    match v
    case None => Ok(None)
    case Some(JStr(s)) => Ok(Some(s))
    case Some(j) => Invalid([TypeIssue(path, "string", j)])
  }

  /** `z.array(z.string())` on the elements of an array: one issue per non-string. */
  function ParseStrings(path: string, items: seq<Json>): (r: Parsed<seq<string>>)
    ensures r.Invalid? ==> |r.issues| > 0
    ensures r.Ok? ==> |r.value| == |items|
  {
    if items == [] then Ok([])
    else
      var rest := ParseStrings(path, items[1..]);
      match items[0]
      case JStr(s) => if rest.Ok? then Ok([s] + rest.value) else rest
      case j => Invalid([TypeIssue(path, "string", j)] + IssuesOf(rest))
  }

  /** `z.array(z.string()).optional()` on `interests`. */
  function ParseInterests(v: Option<Json>): (r: Parsed<Option<seq<string>>>)
    ensures r.Invalid? ==> |r.issues| > 0
  {
    match v
    case None => Ok(None)
    case Some(JArr(items)) =>
      var p := ParseStrings("interests", items);
      if p.Ok? then Ok(Some(p.value)) else Invalid(p.issues)
    case Some(j) => Invalid([TypeIssue("interests", "array", j)])
  }

  /** `insertWaitlistSignupSchema.parse(body)`: the four picked fields are checked in
      declaration order, every failing field contributes its issues, and any other key
      of the body (status, priority, notes, id, timestamp, ...) is stripped. */
  function ParseSignup(body: Json): (r: Parsed<SignupInput>)
    ensures r.Invalid? ==> |r.issues| > 0
  {
    match body
    case JObj(m) =>
      var name := ParseFullName(Get(m, "fullName"));
      var email := ParseEmail(Get(m, "email"));
      var referral := ParseOptionalString("referralSource", Get(m, "referralSource"));
      var interests := ParseInterests(Get(m, "interests"));
      if name.Ok? && email.Ok? && referral.Ok? && interests.Ok? then
        Ok(SignupInput(name.value, email.value, referral.value, interests.value))
      else
        Invalid(IssuesOf(name) + IssuesOf(email) + IssuesOf(referral) + IssuesOf(interests))
    case _ => Invalid([TypeIssue("", "object", body)])
  }

  /** Every element of `items` is a JSON string. */
  predicate AllStrings(items: seq<Json>) {
    forall k :: 0 <= k < |items| ==> items[k].JStr?
  }

  /** The signup bodies the validator accepts, stated field by field. */
  predicate IsValidSignupBody(body: Json) {
    && body.JObj?
    && "fullName" in body.fields && body.fields["fullName"].JStr?
    && 2 <= |body.fields["fullName"].s| <= 100
    && "email" in body.fields && body.fields["email"].JStr?
    && IsEmail(body.fields["email"].s)
    && ("referralSource" in body.fields ==> body.fields["referralSource"].JStr?)
    && ("interests" in body.fields ==>
          body.fields["interests"].JArr? && AllStrings(body.fields["interests"].items))
  }

  /** The strings an all-string array holds, in order. */
  lemma {:induction false} ParseStringsExact(path: string, items: seq<Json>)
    ensures ParseStrings(path, items).Ok? <==> AllStrings(items)
    ensures ParseStrings(path, items).Ok? ==>
      forall k :: 0 <= k < |items| ==> ParseStrings(path, items).value[k] == items[k].s
  {
    if items != [] {
      ParseStringsExact(path, items[1..]);
      var rest := ParseStrings(path, items[1..]);
      assert AllStrings(items) <==> items[0].JStr? && AllStrings(items[1..]) by {
        if AllStrings(items[1..]) && items[0].JStr? {
          forall k | 0 <= k < |items| ensures items[k].JStr? {
            if k > 0 { assert items[k] == items[1..][k - 1]; }
          }
        }
      }
      if ParseStrings(path, items).Ok? {
        forall k | 0 <= k < |items|
          ensures ParseStrings(path, items).value[k] == items[k].s
        {
          if k > 0 { assert items[k] == items[1..][k - 1]; }
        }
      }
    }
  }

  /** The signup validator accepts exactly the bodies `IsValidSignupBody` describes, and
      what it yields is the body's own strings, unchanged. */
  lemma SignupValidatorExact(body: Json)
    ensures ParseSignup(body).Ok? <==> IsValidSignupBody(body)
    ensures ParseSignup(body).Ok? ==>
      var m := body.fields;
      var input := ParseSignup(body).value;
      && input.fullName == m["fullName"].s
      && input.email == m["email"].s
      && input.referralSource == (if "referralSource" in m then Some(m["referralSource"].s) else None)
      && (input.interests.Some? <==> "interests" in m)
      && (input.interests.Some? ==>
            |input.interests.value| == |m["interests"].items|
            && forall k :: 0 <= k < |m["interests"].items| ==>
                 input.interests.value[k] == m["interests"].items[k].s)
  {
    if body.JObj? && "interests" in body.fields && body.fields["interests"].JArr? {
      ParseStringsExact("interests", body.fields["interests"].items);
    }
  }

  /** A name of 2 to 100 characters is necessary: both bounds are inclusive. */
  lemma SignupNameBounds(body: Json)
    requires ParseSignup(body).Ok?
    ensures 2 <= |ParseSignup(body).value.fullName| <= 100
  {
    SignupValidatorExact(body);
  }

  /** Keys other than the four picked ones never influence the parse. */
  lemma SignupIgnoresOtherKeys(m: map<string, Json>, key: string, v: Json)
    requires key !in {"fullName", "email", "referralSource", "interests"}
    ensures ParseSignup(JObj(m[key := v])) == ParseSignup(JObj(m))
  {
    var m' := m[key := v];
    assert Get(m', "fullName") == Get(m, "fullName");
    assert Get(m', "email") == Get(m, "email");
    assert Get(m', "referralSource") == Get(m, "referralSource");
    assert Get(m', "interests") == Get(m, "interests");
  }

  /** The address is kept exactly as typed: capitals are not folded. */
  lemma SignupKeepsAddressAsTyped()
    ensures ParseSignup(JObj(map["fullName" := JStr("Jane Doe"), "email" := JStr("JANE@Example.com")]))
              == Ok(SignupInput("Jane Doe", "JANE@Example.com", None, None))
  {
    var email := "JANE@Example.com";
    SampleAddressIsEmail();
    var m := map["fullName" := JStr("Jane Doe"), "email" := JStr(email)];
    assert Get(m, "referralSource") == None && Get(m, "interests") == None;
    assert ParseFullName(Get(m, "fullName")) == Ok("Jane Doe");
    assert ParseEmail(Get(m, "email")) == Ok(email);
  }

  lemma SampleAddressIsEmail()
    ensures IsEmail("JANE@Example.com")
  {
    var email := "JANE@Example.com";
    var local, domain := email[..4], email[5..];
    assert local == "JANE" && domain == "Example.com";
    assert domain[7] == '.';
    assert EmailParts(local, domain);
    assert email[4] == '@';
  }

  // ---------------------------------------------------------------- updateWaitlistSignupSchema

  /** A parsed update; `notes` is `None` when absent and `Some(None)` when `null`. */
  datatype SignupUpdate = SignupUpdate(status: string, priority: int, notes: Option<Option<string>>)

  function ParseStatus(v: Option<Json>): (r: Parsed<string>)
    ensures r.Invalid? ==> |r.issues| > 0
  {
    match v
    case None => Invalid([RequiredIssue("status")])
    case Some(JStr(s)) =>
      if s in Statuses then Ok(s)
      else Invalid([Issue("status", "Invalid enum value. Expected " + StatusEnumText + ", received '" + s + "'")])
    case Some(j) => Invalid([TypeIssue("status", StatusEnumText, j)])
  }

  function ParsePriority(v: Option<Json>): (r: Parsed<int>)
    ensures r.Invalid? ==> |r.issues| > 0
  {
    match v
    case None => Invalid([RequiredIssue("priority")])
    case Some(JNum(n)) =>
      if n < MinPriority then Invalid([Issue("priority", PriorityTooSmallMessage)])
      else if n > MaxPriority then Invalid([Issue("priority", PriorityTooBigMessage)])
      else Ok(n)
    case Some(j) => Invalid([TypeIssue("priority", "number", j)])
  }

  /** `notes` keeps the column's generated `z.string().nullable().optional()`. */
  function ParseNotes(v: Option<Json>): (r: Parsed<Option<Option<string>>>)
    ensures r.Invalid? ==> |r.issues| > 0
  {
    match v
    case None => Ok(None)
    case Some(JNull) => Ok(Some(None))
    case Some(JStr(s)) => Ok(Some(Some(s)))
    case Some(j) => Invalid([TypeIssue("notes", "string", j)])
  }

  /** `updateWaitlistSignupSchema.parse(body)`. */
  function ParseUpdate(body: Json): (r: Parsed<SignupUpdate>)
    ensures r.Invalid? ==> |r.issues| > 0
  {
    match body
    case JObj(m) =>
      var status := ParseStatus(Get(m, "status"));
      var priority := ParsePriority(Get(m, "priority"));
      var notes := ParseNotes(Get(m, "notes"));
      if status.Ok? && priority.Ok? && notes.Ok? then
        Ok(SignupUpdate(status.value, priority.value, notes.value))
      else
        Invalid(IssuesOf(status) + IssuesOf(priority) + IssuesOf(notes))
    case _ => Invalid([TypeIssue("", "object", body)])
  }

  /** The update bodies the validator accepts, stated field by field. */
  predicate IsValidUpdateBody(body: Json) {
    && body.JObj?
    && "status" in body.fields && body.fields["status"].JStr?
    && body.fields["status"].s in {"pending", "verified", "invited", "declined"}
    && "priority" in body.fields && body.fields["priority"].JNum?
    && 0 <= body.fields["priority"].n <= 10
    && ("notes" in body.fields ==> body.fields["notes"].JNull? || body.fields["notes"].JStr?)
  }

  /** The update validator accepts exactly the bodies `IsValidUpdateBody` describes:
      status is one of the four values and 0 <= priority <= 10 are both required. */
  lemma UpdateValidatorExact(body: Json)
    ensures ParseUpdate(body).Ok? <==> IsValidUpdateBody(body)
    ensures ParseUpdate(body).Ok? ==>
      && ParseUpdate(body).value.status in {"pending", "verified", "invited", "declined"}
      && 0 <= ParseUpdate(body).value.priority <= 10
  {
  }

  // ---------------------------------------------------------------- emailVerificationSchema

  /** `emailVerificationSchema.parse(body)`: a token of at least one character. */
  function ParseVerification(body: Json): (r: Parsed<string>)
    ensures r.Invalid? ==> |r.issues| > 0
    ensures r.Ok? <==> body.JObj? && "token" in body.fields && body.fields["token"].JStr?
                         && body.fields["token"].s != ""
    ensures body == JObj(map["token" := JStr("")]) ==>
              r == Invalid([Issue("token", TokenRequiredMessage)])
  {
    match body
    case JObj(m) =>
      (match Get(m, "token")
       case None => Invalid([RequiredIssue("token")])
       case Some(JStr(s)) => if |s| < 1 then Invalid([Issue("token", TokenRequiredMessage)]) else Ok(s)
       case Some(j) => Invalid([TypeIssue("token", "string", j)]))
    case _ => Invalid([TypeIssue("", "object", body)])
  }
}
