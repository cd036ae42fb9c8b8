/** The booking endpoint of functions/api/contact.js: sanitising, the authoritative
    validation of the seven booking fields, and the handler that runs the captcha gate,
    the validation and the relay in that order. */
module EdgeFunction {
  import opened Wrappers
  import opened JsText
  import opened Foreign
  import opened Http
  import opened Captcha
  import opened Mail
  import opened FieldRules
  import opened BookingForm

  /** The characters `validator.stripLow(_, true)` removes: C0 controls other than line
      feed and carriage return, and DEL. */
  predicate IsLowControl(c: char) {
    (c <= '\U{1F}' && c != '\n' && c != '\r') || c == '\U{7F}'
  }

  predicate SurvivesStripLow(c: char) {
    !IsLowControl(c)
  }

  predicate IsNotAngle(c: char) {
    c != '<' && c != '>'
  }

  /** The characters a sanitised string may contain. */
  const Clean: char -> bool := Both(SurvivesStripLow, IsNotAngle)

  /** `sanitizeInput`: trim, then strip low controls, then drop angle brackets. */
  function SanitizeInput(v: JsValue): (r: string)
    ensures v.NotAString? ==> r == ""
    ensures forall k | 0 <= k < |r| :: !IsLowControl(r[k]) && r[k] != '<' && r[k] != '>'
    ensures v.JsString? ==> |r| <= |v.s| && r == Filter(Trim(v.s), Clean)
  {
    match v
    case NotAString => ""
    case JsString(s) =>
      var trimmed := Trim(s);
      assert Filter(Filter(trimmed, SurvivesStripLow), IsNotAngle) == Filter(trimmed, Clean) by {
        FilterFilter(trimmed, SurvivesStripLow, IsNotAngle);
      }
      Filter(Filter(trimmed, SurvivesStripLow), IsNotAngle)
  }

  /** Sanitising leaves a string unchanged exactly when it has no white space at either
      end and none of the characters that the removals drop. */
  lemma SanitizeFixpoint(s: string)
    ensures SanitizeInput(JsString(s)) == s
        <==> IsTrimmed(s) && forall k | 0 <= k < |s| :: !IsLowControl(s[k]) && IsNotAngle(s[k])
  {
    if SanitizeInput(JsString(s)) == s {
      FixpointIsTrimmed(s);
    }
    if IsTrimmed(s) && forall k | 0 <= k < |s| :: !IsLowControl(s[k]) && IsNotAngle(s[k]) {
      TrimTrimmed(s);
      forall k | 0 <= k < |s| ensures Clean(s[k]) {
        BothApply(SurvivesStripLow, IsNotAngle, s[k]);
      }
      FilterIdentity(s, Clean);
    }
  }

  lemma FixpointIsTrimmed(s: string)
    requires SanitizeInput(JsString(s)) == s
    ensures IsTrimmed(s)
  {
    var t := Trim(s);
    var i, j :| 0 <= i <= j <= |s| && t == s[i..j];
    assert |t| == |s|;
    assert t == s;
  }

  /** On text with nothing for the removals to drop, sanitising is trimming. */
  lemma SanitizeCleanIsTrim(s: string)
    requires forall k | 0 <= k < |s| :: !IsLowControl(s[k]) && IsNotAngle(s[k])
    ensures SanitizeInput(JsString(s)) == Trim(s)
  {
    var t := Trim(s);
    var i, j :| 0 <= i <= j <= |s| && t == s[i..j];
    forall k | 0 <= k < |t| ensures Clean(t[k]) {
      assert t[k] == s[i + k];
      BothApply(SurvivesStripLow, IsNotAngle, t[k]);
    }
    FilterIdentity(t, Clean);
  }

  /** A non-white-space character that the removals keep survives sanitising. */
  lemma SanitizeKeepsCharacter(s: string, c: char)
    requires c in s && !IsSpace(c) && !IsLowControl(c) && IsNotAngle(c)
    ensures c in SanitizeInput(JsString(s))
  {
    TrimKeepsNonSpace(s, c);
    BothApply(SurvivesStripLow, IsNotAngle, c);
    FilterMembership(Trim(s), Clean, c);
  }

  /** A control character or angle bracket inside otherwise clean, trimmed text is simply
      removed: sanitising joins the text on either side of it. */
  lemma SanitizeDropsCharacter(a: string, c: char, b: string)
    requires forall k | 0 <= k < |a| :: !IsLowControl(a[k]) && IsNotAngle(a[k])
    requires forall k | 0 <= k < |b| :: !IsLowControl(b[k]) && IsNotAngle(b[k])
    requires IsLowControl(c) || !IsNotAngle(c)
    requires IsTrimmed(a + [c] + b)
    ensures SanitizeInput(JsString(a + [c] + b)) == a + b
  {
    var s := a + [c] + b;
    assert Filter(a, Clean) == a by {
      forall k | 0 <= k < |a| ensures Clean(a[k]) {
        BothApply(SurvivesStripLow, IsNotAngle, a[k]);
      }
      FilterIdentity(a, Clean);
    }
    assert Filter(b, Clean) == b by {
      forall k | 0 <= k < |b| ensures Clean(b[k]) {
        BothApply(SurvivesStripLow, IsNotAngle, b[k]);
      }
      FilterIdentity(b, Clean);
    }
    assert Filter([c], Clean) == [] by {
      BothApply(SurvivesStripLow, IsNotAngle, c);
    }
    assert Filter(s, Clean) == a + b by {
      FilterAppend(a + [c], b, Clean);
      FilterAppend(a, [c], Clean);
    }
    TrimTrimmed(s);
  }

  /** Because the trim runs before the removals, the result need not be trimmed and
      sanitising twice can differ from sanitising once. */
  lemma SanitizeNeitherTrimsNorSettles()
    ensures SanitizeInput(JsString("a <")) == "a "
    ensures !IsTrimmed(SanitizeInput(JsString("a <")))
    ensures SanitizeInput(JsString(SanitizeInput(JsString("a <")))) == "a"
  {
    SanitizeALt();
    SanitizeASpace();
  }

  lemma SanitizeALt()
    ensures SanitizeInput(JsString("a <")) == "a "
  {
    TrimTrimmed("a <");
    FilterALt();
  }

  lemma FilterALt()
    ensures Filter("a <", Clean) == "a "
  {
    var s := "a <";
    BothApply(SurvivesStripLow, IsNotAngle, 'a');
    BothApply(SurvivesStripLow, IsNotAngle, ' ');
    BothApply(SurvivesStripLow, IsNotAngle, '<');
    assert Filter(s[2..], Clean) == [];
    assert Filter(s[1..], Clean) == " ";
  }

  lemma SanitizeASpace()
    ensures SanitizeInput(JsString("a ")) == "a"
  {
    TrimASpace();
    FilterA();
  }

  lemma FilterA()
    ensures Filter("a", Clean) == "a"
  {
    BothApply(SurvivesStripLow, IsNotAngle, 'a');
    assert Filter("a"[1..], Clean) == [];
  }

  lemma TrimASpace()
    ensures Trim("a ") == "a"
  {
    assert TrimStart("a ") == "a " by {
      assert Span("a ", IsSpace) == 0;
    }
    assert TrimEnd("a ") == "a" by {
      assert TrailingSpaces("a ") == 1;
    }
  }

  /** The booking form's fields after sanitising. */
  datatype Booking = Booking(
    name: string, number: string, email: string, bookingType: string,
    date: string, venue: string, details: string)

  /** The value of one field of a sanitised booking. */
  function Value(b: Booking, f: BookingField): string {
    match f
    case Name => b.name
    case Number => b.number
    case Email => b.email
    case Type => b.bookingType
    case Date => b.date
    case Venue => b.venue
    case Details => b.details
  }

  /** One field of the body, sanitised: "" when the body lacks it, and free of low
      control characters and angle brackets. */
  function ReadField(fields: map<string, JsValue>, f: BookingField): (r: string)
    ensures BookingKey(f) !in fields ==> r == ""
    ensures forall k | 0 <= k < |r| :: !IsLowControl(r[k]) && IsNotAngle(r[k])
  {
    SanitizeInput(Field(fields, BookingKey(f)))
  }

  /** Destructure the body and sanitise every field: each field of the booking is the
      body's property of the same name, read by `ReadField`. */
  function ReadBooking(fields: map<string, JsValue>): (b: Booking)
    ensures forall f :: Value(b, f) == ReadField(fields, f)
  {
    var b := Booking(
      ReadField(fields, Name), ReadField(fields, Number), ReadField(fields, Email),
      ReadField(fields, Type), ReadField(fields, Date), ReadField(fields, Venue),
      ReadField(fields, Details));
    ReadsEveryField(fields, b);
    b
  }

  lemma ReadsEveryField(fields: map<string, JsValue>, b: Booking)
    requires b == Booking(
      ReadField(fields, Name), ReadField(fields, Number), ReadField(fields, Email),
      ReadField(fields, Type), ReadField(fields, Date), ReadField(fields, Venue),
      ReadField(fields, Details))
    ensures forall f :: Value(b, f) == ReadField(fields, f)
  {
    forall f ensures Value(b, f) == ReadField(fields, f) {
      match f
      case Name => case Number => case Email => case Type =>
      case Date => case Venue => case Details =>
    }
  }

  const ValidTypes: seq<string> := ["Wedding", "Engagement", "Couple Session", "Matric Farewell", "Other"]

  /** Every booking type the form offers is left alone by sanitising and accepted. */
  lemma ValidTypesPass(t: string)
    requires t in ValidTypes
    ensures SanitizeInput(JsString(t)) == t
    ensures TypeEntry(t) == None
  {
    assert IsTrimmed(t);
    assert forall k | 0 <= k < |t| :: !IsLowControl(t[k]) && IsNotAngle(t[k]);
    SanitizeFixpoint(t);
  }

  predicate IsPresentationSelector(c: char) {
    c == '\U{FE0E}' || c == '\U{FE0F}'
  }

  /** `validator.isLength(s, { max })`: the length discounts presentation selectors
      (surrogate pairs, which the library also discounts, do not arise for `char`). */
  predicate IsLength(s: string, max: nat) {
    |s| - Selectors(s) <= max
  }

  function Selectors(s: string): (n: nat)
    ensures n <= |s|
  {
    if s == [] then 0 else (if IsPresentationSelector(s[0]) then 1 else 0) + Selectors(s[1..])
  }

  /** The messages of the booking validator's error map. */
  datatype BookingMessage =
    | NameTooLong | NameRequired | NameInvalid
    | NumberTooLong | NumberRequired | NumberTooFewDigits
    | EmailTooLong | EmailRequired | EmailInvalid
    | TypeInvalid
    | DateTooLong | DateRequired | DateInvalid
    | VenueTooLong | VenueRequired | VenueInvalid
    | DetailsTooLong | DetailsRequired

  /** The text of each message; none is empty. */
  function BookingText(m: BookingMessage): (t: string)
    ensures t != ""
  {
    match m
    case NameTooLong => "Full name cannot exceed 100 characters."
    case NameRequired => "Full name is required."
    case NameInvalid => "Invalid full name."
    case NumberTooLong => "Phone number cannot exceed 50 characters."
    case NumberRequired => "Phone number required."
    case NumberTooFewDigits => "Phone number must be at least 10 digits."
    case EmailTooLong => "Email cannot exceed 50 characters."
    case EmailRequired => "Email is required."
    case EmailInvalid => "Invalid email format."
    case TypeInvalid => "Invalid booking type."
    case DateTooLong => "Date cannot exceed 50 characters."
    case DateRequired => "Date is required."
    case DateInvalid => "Invalid date format."
    case VenueTooLong => "Venue cannot exceed 100 characters."
    case VenueRequired => "Venue is required."
    case VenueInvalid => "Invalid venue."
    case DetailsTooLong => "Details cannot exceed 200 characters."
    case DetailsRequired => "Details are required."
  }

  type BookingResponse = Response<BookingField, BookingMessage>

  // What each field must satisfy to stay out of the error map.

  predicate NumberAccepted(number: string) {
    0 < |number| <= 50 && |OnlyDigits(number)| >= 10
  }

  predicate TypeAccepted(bookingType: string) {
    bookingType in ValidTypes
  }

  predicate DateAccepted(date: string, isIsoDate: string -> bool) {
    0 < |date| <= 50 && isIsoDate(date)
  }

  predicate VenueAccepted(venue: string, isLetter: char -> bool) {
    0 < |venue| <= 100 && VenuePattern(venue, isLetter)
  }

  predicate DetailsAccepted(details: string) {
    0 < |details| <= 200
  }

  predicate BookingAccepted(b: Booking, lib: Lib) {
    && NameAccepted(b.name, lib.isLetter)
    && NumberAccepted(b.number)
    && EmailAccepted(b.email, lib.isEmail)
    && TypeAccepted(b.bookingType)
    && DateAccepted(b.date, lib.isIsoDate)
    && VenueAccepted(b.venue, lib.isLetter)
    && DetailsAccepted(b.details)
  }

  // The entry each field ends up with in the error map.

  function NumberEntry(number: string): (m: Option<BookingMessage>)
    ensures m == None <==> NumberAccepted(number)
  {
    Check(number, 50, |OnlyDigits(number)| >= 10, NumberTooLong, NumberRequired, NumberTooFewDigits)
  }

  /** The booking type has no length check and a single message. */
  function TypeEntry(bookingType: string): (m: Option<BookingMessage>)
    ensures m == None <==> TypeAccepted(bookingType)
    ensures m != None ==> m == Some(TypeInvalid)
  {
    Mark(None, bookingType == "" || bookingType !in ValidTypes, TypeInvalid)
  }

  function DateEntry(date: string, isIsoDate: string -> bool): (m: Option<BookingMessage>)
    ensures m == None <==> DateAccepted(date, isIsoDate)
  {
    Check(date, 50, isIsoDate(date), DateTooLong, DateRequired, DateInvalid)
  }

  function VenueEntry(venue: string, isLetter: char -> bool): (m: Option<BookingMessage>)
    ensures m == None <==> VenueAccepted(venue, isLetter)
  {
    Check(venue, 100, VenuePattern(venue, isLetter), VenueTooLong, VenueRequired, VenueInvalid)
  }

  /** Both length checks on the details write the same message, so the entry only says
      whether the details are missing or longer than 200 characters. */
  function DetailsEntry(details: string): (m: Option<BookingMessage>)
    ensures m == None <==> DetailsAccepted(details)
    ensures details == "" ==> m == Some(DetailsRequired)
    ensures |details| > 200 ==> m == Some(DetailsTooLong)
  {
    var m := Mark(None, details != "" && |details| > 200, DetailsTooLong);
    assert !IsLength(details, 200) ==> |details| > 200;
    Mark(m, details == "" || !IsLength(details, 200),
         if details == "" then DetailsRequired else DetailsTooLong)
  }

  /** The entry of every field of the error map, `None` for a field that passed. */
  datatype Entries = Entries(
    name: Option<BookingMessage>, number: Option<BookingMessage>, email: Option<BookingMessage>,
    bookingType: Option<BookingMessage>, date: Option<BookingMessage>, venue: Option<BookingMessage>,
    details: Option<BookingMessage>)

  function Entry(v: Entries, f: BookingField): Option<BookingMessage> {
    match f
    case Name => v.name
    case Number => v.number
    case Email => v.email
    case Type => v.bookingType
    case Date => v.date
    case Venue => v.venue
    case Details => v.details
  }

  const BookingFields: set<BookingField> := {Name, Number, Email, Type, Date, Venue, Details}

  /** The `errors` object: a key for each field with an entry. */
  function ErrorMap(v: Entries): (errors: map<BookingField, BookingMessage>)
    ensures forall f :: f in errors <==> Entry(v, f).Some?
    ensures forall f | f in errors :: Entry(v, f) == Some(errors[f])
    ensures errors == map[] <==> v == Entries(None, None, None, None, None, None, None)
  {
    var errors := map f | f in BookingFields && Entry(v, f).Some? :: Entry(v, f).value;
    assert errors == map[] ==> v == Entries(None, None, None, None, None, None, None) by {
      if errors == map[] {
        assert Name !in errors && Number !in errors && Email !in errors && Type !in errors;
        assert Date !in errors && Venue !in errors && Details !in errors;
      }
    }
    errors
  }

  function CheckBooking(b: Booking, lib: Lib): Entries {
    Entries(
      NameEntry(b.name, lib.isLetter, NameTooLong, NameRequired, NameInvalid),
      NumberEntry(b.number),
      EmailEntry(b.email, lib.isEmail, EmailTooLong, EmailRequired, EmailInvalid),
      TypeEntry(b.bookingType), DateEntry(b.date, lib.isIsoDate), VenueEntry(b.venue, lib.isLetter),
      DetailsEntry(b.details))
  }

  /** The error map of the booking validator: one entry for each field whose checks fail,
      holding the message of the last failing check. */
  function BookingErrors(b: Booking, lib: Lib): (errors: map<BookingField, BookingMessage>)
    ensures forall f :: f in errors <==> Entry(CheckBooking(b, lib), f) != None
    ensures errors == map[] <==> BookingAccepted(b, lib)
    ensures forall f | f in errors :: Entry(CheckBooking(b, lib), f) == Some(errors[f])
  {
    ErrorMap(CheckBooking(b, lib))
  }

  /** `onRequestPost`. `minScore` is `parseFloat(RECAPTCHA_MIN_SCORE)`; the verification
      and the mail call are inputs rather than effects. */
  function HandleBooking(
    request: Request, verification: Verification, env: map<string, string>, minScore: JsNumber,
    mail: FetchOutcome, lib: Lib): (r: BookingResponse)
    ensures r.status in {200, 400, 429, 500, 502}
    ensures r.status == 200 <==>
      && request.Parsed? && request.body.Object?
      && var fields := request.body.fields;
         && SanitizeInput(Field(fields, "captchaToken")) != ""
         && Vouches(verification, SanitizeInput(Field(fields, "captchaAction")), minScore)
         && BookingAccepted(ReadBooking(fields), lib)
         && Configured(env)
         && mail.Answered? && mail.ok
    ensures r.status == 200 ==> r == Submitted()
    ensures r.reply.FieldErrors? ==> r.status == 400 && r.reply.errors != map[]
    ensures request.Unparsable? ==> r == Failure(400, "Invalid JSON body.")
    ensures request == Parsed(NullBody) ==> r == Failure(429, "Captcha verification error.")
    ensures request.Parsed? && request.body.Object? ==>
      var fields := request.body.fields;
      var rejection := Gate<BookingField, BookingMessage>(
        SanitizeInput(Field(fields, "captchaToken")), SanitizeInput(Field(fields, "captchaAction")),
        verification, minScore);
      && (rejection.Some? ==> r == rejection.value)
      && (rejection.None? && !BookingAccepted(ReadBooking(fields), lib)
          ==> r == Response(400, FieldErrors(BookingErrors(ReadBooking(fields), lib))))
      && (rejection.None? && BookingAccepted(ReadBooking(fields), lib) ==> r == EdgeRelay(env, mail))
  {
    match request
    case Unparsable => Failure(400, "Invalid JSON body.")
    case Parsed(NullBody) => Failure(429, "Captcha verification error.")
    case Parsed(Object(fields)) =>
      var token := SanitizeInput(Field(fields, "captchaToken"));
      var action := SanitizeInput(Field(fields, "captchaAction"));
      match Gate(token, action, verification, minScore)
      case Some(rejection) => rejection
      case None =>
        var errors := BookingErrors(ReadBooking(fields), lib);
        if errors != map[] then Response(400, FieldErrors(errors))
        else EdgeRelay(env, mail)
  }

  /** A body without a captcha token is answered before anything else is looked at: the
      verification, the fields, the configuration and the mail call make no difference. */
  lemma TokenCheckedFirst(
    fields: map<string, JsValue>, verification: Verification, env: map<string, string>, minScore: JsNumber,
    mail: FetchOutcome, lib: Lib)
    requires SanitizeInput(Field(fields, "captchaToken")) == ""
    ensures HandleBooking(Parsed(Object(fields)), verification, env, minScore, mail, lib)
         == Failure(400, "Captcha required.")
  {
  }

  /** Once the gate lets a request through, invalid fields are answered with the error map
      and the relay is never reached: the configuration and the mail call make no
      difference. */
  lemma FieldsCheckedBeforeRelay(
    fields: map<string, JsValue>, verification: Verification, env: map<string, string>, minScore: JsNumber,
    mail: FetchOutcome, lib: Lib)
    requires SanitizeInput(Field(fields, "captchaToken")) != ""
    requires Vouches(verification, SanitizeInput(Field(fields, "captchaAction")), minScore)
    requires !BookingAccepted(ReadBooking(fields), lib)
    ensures HandleBooking(Parsed(Object(fields)), verification, env, minScore, mail, lib)
         == Response(400, FieldErrors(BookingErrors(ReadBooking(fields), lib)))
  {
  }

  /** Every field that is missing or over its length limit gets an entry, and so a key in
      the error map; a missing field is reported as missing, except the booking type,
      which has a single message. */
  lemma LimitsEnforced(b: Booking, lib: Lib)
    ensures var v := CheckBooking(b, lib);
      && (b.name == "" ==> v.name == Some(NameRequired))
      && (b.number == "" ==> v.number == Some(NumberRequired))
      && (b.email == "" ==> v.email == Some(EmailRequired))
      && (b.bookingType == "" ==> v.bookingType == Some(TypeInvalid))
      && (b.date == "" ==> v.date == Some(DateRequired))
      && (b.venue == "" ==> v.venue == Some(VenueRequired))
      && (b.details == "" ==> v.details == Some(DetailsRequired))
      && (|b.name| > 100 ==> v.name != None)
      && (|b.number| > 50 ==> v.number != None)
      && (|b.email| > 50 ==> v.email != None)
      && (|b.date| > 50 ==> v.date != None)
      && (|b.venue| > 100 ==> v.venue != None)
      && (|b.details| > 200 ==> v.details == Some(DetailsTooLong))
  {
    assert "" !in ValidTypes;
  }
}
