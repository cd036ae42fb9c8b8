/** The enquiry endpoint of backend/server.js: its own sanitising, the validation of the
    four enquiry fields, and the handler that runs the captcha gate, the validation and
    the relay in that order. */
module ExpressServer {
  import opened Wrappers
  import opened JsText
  import opened Foreign
  import opened Http
  import opened Captcha
  import opened Mail
  import opened FieldRules

  /** `sanitizeInput` of the server: anything but a string counts as "", which goes
      through DOMPurify and is then trimmed. */
  function SanitizeInput(v: JsValue, purify: string -> string): (r: string)
    ensures IsTrimmed(r)
  {
    Trim(purify(if v.JsString? then v.s else ""))
  }

  /** A missing or non-string field is sanitised exactly like an empty string. */
  lemma NonStringSanitizedAsEmpty(purify: string -> string)
    ensures SanitizeInput(NotAString, purify) == SanitizeInput(JsString(""), purify)
  {
  }

  /** The enquiry form's fields after sanitising. */
  datatype Enquiry = Enquiry(name: string, email: string, brief: string, budget: string)

  /** The keys of the enquiry form's error map. */
  datatype EnquiryField = Name | Email | Brief | Budget

  /** The property name each key has in the request body and in the `errors` object. */
  function EnquiryKey(f: EnquiryField): string {
    match f
    case Name => "name"
    case Email => "email"
    case Brief => "brief"
    case Budget => "budget"
  }

  /** The value of one field of a sanitised enquiry. */
  function Value(e: Enquiry, f: EnquiryField): string {
    match f
    case Name => e.name
    case Email => e.email
    case Brief => e.brief
    case Budget => e.budget
  }

  /** One field of the body, sanitised: a purified "" when the body lacks it, and
      always trimmed. */
  function ReadField(fields: map<string, JsValue>, f: EnquiryField, purify: string -> string): (r: string)
    ensures EnquiryKey(f) !in fields ==> r == Trim(purify(""))
    ensures IsTrimmed(r)
  {
    SanitizeInput(Field(fields, EnquiryKey(f)), purify)
  }

  /** Destructure the body and sanitise every field: each field of the enquiry is the
      body's property of the same name, read by `ReadField`. */
  function ReadEnquiry(fields: map<string, JsValue>, purify: string -> string): (e: Enquiry)
    ensures forall f :: Value(e, f) == ReadField(fields, f, purify)
  {
    var e := Enquiry(
      ReadField(fields, Name, purify), ReadField(fields, Email, purify),
      ReadField(fields, Brief, purify), ReadField(fields, Budget, purify));
    ReadsEveryField(fields, purify, e);
    e
  }

  lemma ReadsEveryField(fields: map<string, JsValue>, purify: string -> string, e: Enquiry)
    requires e == Enquiry(
      ReadField(fields, Name, purify), ReadField(fields, Email, purify),
      ReadField(fields, Brief, purify), ReadField(fields, Budget, purify))
    ensures forall f :: Value(e, f) == ReadField(fields, f, purify)
  {
    forall f ensures Value(e, f) == ReadField(fields, f, purify) {
      match f
      case Name => case Email => case Brief => case Budget =>
    }
  }

  /** The budget ranges the form offers; the dashes are EN DASH (U+2013). */
  const BudgetOptions: seq<string> := [
    "Under R5,000", "R5,000 \U{2013} R10,000", "R10,000 \U{2013} R20,000", "R20,000+", "Not sure yet"]

  /** Every budget option the form offers is trimmed, accepted, and written without an
      ASCII hyphen: its ranges use the en dash. */
  lemma BudgetOptionsPass(o: string)
    requires o in BudgetOptions
    ensures IsTrimmed(o)
    ensures BudgetEntry(o) == None
    ensures '-' !in o
  {
  }

  /** The messages of the enquiry validator's error map. */
  datatype EnquiryMessage =
    | NameTooLong | NameRequired | NameInvalid
    | EmailTooLong | EmailRequired | EmailInvalid
    | BriefTooLong | BriefRequired
    | BudgetTooLong | BudgetRequired | BudgetInvalid

  /** The text of each message; none is empty. */
  function EnquiryText(m: EnquiryMessage): (t: string)
    ensures t != ""
  {
    match m
    case NameTooLong => "Full name cannot exceed 100 characters."
    case NameRequired => "Full name is required."
    case NameInvalid => "Invalid full name."
    case EmailTooLong => "Email cannot exceed 50 characters."
    case EmailRequired => "Email is required."
    case EmailInvalid => "Invalid email format."
    case BriefTooLong => "Brief cannot exceed 500 characters."
    case BriefRequired => "Brief is required."
    case BudgetTooLong => "Budget cannot exceed 50 characters."
    case BudgetRequired => "Budget is required."
    case BudgetInvalid => "Invalid budget option."
  }

  type EnquiryResponse = Response<EnquiryField, EnquiryMessage>

  predicate BriefAccepted(brief: string) {
    0 < |brief| <= 500
  }

  predicate BudgetAccepted(budget: string) {
    0 < |budget| <= 50 && budget in BudgetOptions
  }

  predicate EnquiryAccepted(e: Enquiry, lib: Lib) {
    && NameAccepted(e.name, lib.isLetter)
    && EmailAccepted(e.email, lib.isEmail)
    && BriefAccepted(e.brief)
    && BudgetAccepted(e.budget)
  }

  /** The brief has a length check and a presence check, and no rule. */
  function BriefEntry(brief: string): (m: Option<EnquiryMessage>)
    ensures m == None <==> BriefAccepted(brief)
    ensures brief == "" ==> m == Some(BriefRequired)
    ensures |brief| > 500 ==> m == Some(BriefTooLong)
  {
    var m := Mark(None, brief != "" && |brief| > 500, BriefTooLong);
    Mark(m, brief == "", BriefRequired)
  }

  function BudgetEntry(budget: string): (m: Option<EnquiryMessage>)
    ensures m == None <==> BudgetAccepted(budget)
  {
    Check(budget, 50, budget in BudgetOptions, BudgetTooLong, BudgetRequired, BudgetInvalid)
  }

  /** Every budget option is at most 50 characters long, so an over-long budget always
      fails the option check as well, and that message replaces the length message:
      "Budget cannot exceed 50 characters." is never sent. */
  lemma BudgetTooLongUnreachable(budget: string)
    ensures BudgetEntry(budget) != Some(BudgetTooLong)
    ensures |budget| > 50 ==> BudgetEntry(budget) == Some(BudgetInvalid)
  {
    assert forall k | 0 <= k < |BudgetOptions| :: |BudgetOptions[k]| <= 50;
  }

  /** The entry of every field of the error map, `None` for a field that passed. */
  datatype Entries = Entries(
    name: Option<EnquiryMessage>, email: Option<EnquiryMessage>,
    brief: Option<EnquiryMessage>, budget: Option<EnquiryMessage>)

  function Entry(v: Entries, f: EnquiryField): Option<EnquiryMessage> {
    match f
    case Name => v.name
    case Email => v.email
    case Brief => v.brief
    case Budget => v.budget
  }

  const EnquiryFields: set<EnquiryField> := {Name, Email, Brief, Budget}

  /** The `errors` object: a key for each field with an entry. */
  function ErrorMap(v: Entries): (errors: map<EnquiryField, EnquiryMessage>)
    ensures forall f :: f in errors <==> Entry(v, f).Some?
    ensures forall f | f in errors :: Entry(v, f) == Some(errors[f])
    ensures errors == map[] <==> v == Entries(None, None, None, None)
  {
    var errors := map f | f in EnquiryFields && Entry(v, f).Some? :: Entry(v, f).value;
    assert errors == map[] ==> v == Entries(None, None, None, None) by {
      if errors == map[] {
        assert Name !in errors && Email !in errors && Brief !in errors && Budget !in errors;
      }
    }
    errors
  }

  function CheckEnquiry(e: Enquiry, lib: Lib): Entries {
    Entries(
      NameEntry(e.name, lib.isLetter, NameTooLong, NameRequired, NameInvalid),
      EmailEntry(e.email, lib.isEmail, EmailTooLong, EmailRequired, EmailInvalid),
      BriefEntry(e.brief),
      BudgetEntry(e.budget))
  }

  /** The error map of the enquiry validator: one entry for each field whose checks
      fail, holding the message of the last failing check. */
  function EnquiryErrors(e: Enquiry, lib: Lib): (errors: map<EnquiryField, EnquiryMessage>)
    ensures forall f :: f in errors <==> Entry(CheckEnquiry(e, lib), f) != None
    ensures errors == map[] <==> EnquiryAccepted(e, lib)
    ensures forall f | f in errors :: Entry(CheckEnquiry(e, lib), f) == Some(errors[f])
  {
    ErrorMap(CheckEnquiry(e, lib))
  }

  /** The `POST /contact` route. `body` is `req.body`, `NullBody` when no JSON body was
      parsed; `minScore` is `parseFloat(RECAPTCHA_MIN_SCORE)`; the verification and the
      outcome of the Mailgun call are inputs rather than effects. */
  function HandleEnquiry(
    body: Body, verification: Verification, env: map<string, string>, minScore: JsNumber,
    mail: SendOutcome, lib: Lib): (r: EnquiryResponse)
    ensures r.status in {200, 400, 429, 500, 502}
    ensures r.status == 200 <==>
      && body.Object?
      && SanitizeInput(Field(body.fields, "captchaToken"), lib.purify) != ""
      && Vouches(verification, SanitizeInput(Field(body.fields, "captchaAction"), lib.purify), minScore)
      && EnquiryAccepted(ReadEnquiry(body.fields, lib.purify), lib)
      && Configured(env)
      && mail.Sent?
    ensures r.status == 200 ==> r == Submitted()
    ensures r.reply.FieldErrors? ==> r.status == 400 && r.reply.errors != map[]
    ensures body.NullBody? ==> r == Failure(429, "Captcha verification error.")
    ensures body.Object? ==>
      var rejection := Gate<EnquiryField, EnquiryMessage>(
        SanitizeInput(Field(body.fields, "captchaToken"), lib.purify),
        SanitizeInput(Field(body.fields, "captchaAction"), lib.purify), verification, minScore);
      && (rejection.Some? ==> r == rejection.value)
      && (rejection.None? && !EnquiryAccepted(ReadEnquiry(body.fields, lib.purify), lib)
          ==> r == Response(400, FieldErrors(EnquiryErrors(ReadEnquiry(body.fields, lib.purify), lib))))
      && (rejection.None? && EnquiryAccepted(ReadEnquiry(body.fields, lib.purify), lib) ==> r == ExpressRelay(env, mail))
  {
    match body
    case NullBody => Failure(429, "Captcha verification error.")
    case Object(fields) =>
      var token := SanitizeInput(Field(fields, "captchaToken"), lib.purify);
      var action := SanitizeInput(Field(fields, "captchaAction"), lib.purify);
      match Gate(token, action, verification, minScore)
      case Some(rejection) => rejection
      case None =>
        var errors := EnquiryErrors(ReadEnquiry(fields, lib.purify), lib);
        if errors != map[] then Response(400, FieldErrors(errors))
        else ExpressRelay(env, mail)
  }

  /** A body without a captcha token is answered before anything else is looked at. */
  lemma TokenCheckedFirst(
    fields: map<string, JsValue>, verification: Verification, env: map<string, string>, minScore: JsNumber,
    mail: SendOutcome, lib: Lib)
    requires SanitizeInput(Field(fields, "captchaToken"), lib.purify) == ""
    ensures HandleEnquiry(Object(fields), verification, env, minScore, mail, lib)
         == Failure(400, "Captcha required.")
  {
  }

  /** Once the gate lets a request through, invalid fields are answered with the error map
      and the Mailgun call is never reached. */
  lemma FieldsCheckedBeforeRelay(
    fields: map<string, JsValue>, verification: Verification, env: map<string, string>, minScore: JsNumber,
    mail: SendOutcome, lib: Lib)
    requires SanitizeInput(Field(fields, "captchaToken"), lib.purify) != ""
    requires Vouches(verification, SanitizeInput(Field(fields, "captchaAction"), lib.purify), minScore)
    requires !EnquiryAccepted(ReadEnquiry(fields, lib.purify), lib)
    ensures HandleEnquiry(Object(fields), verification, env, minScore, mail, lib)
         == Response(400, FieldErrors(EnquiryErrors(ReadEnquiry(fields, lib.purify), lib)))
  {
  }

  /** Every field that is missing or over its length limit gets an entry, and so a key in
      the error map; a missing field is reported as missing. */
  lemma LimitsEnforced(e: Enquiry, lib: Lib)
    ensures var v := CheckEnquiry(e, lib);
      && (e.name == "" ==> v.name == Some(NameRequired))
      && (e.email == "" ==> v.email == Some(EmailRequired))
      && (e.brief == "" ==> v.brief == Some(BriefRequired))
      && (e.budget == "" ==> v.budget == Some(BudgetRequired))
      && (|e.name| > 100 ==> v.name != None)
      && (|e.email| > 50 ==> v.email != None)
      && (|e.brief| > 500 ==> v.brief == Some(BriefTooLong))
      && (|e.budget| > 50 ==> v.budget == Some(BudgetInvalid))
  {
    BudgetTooLongUnreachable(e.budget);
  }
}
