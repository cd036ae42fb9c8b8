/** The browser's per-field validator, `validateForm` of
    frontend/src/components/ContactForm.js: for one field and its raw value it computes
    a single message, "" when the value is acceptable, and records it under the field's
    name. Each field runs an else-if chain, so the first failing check decides. */
module ContactForm {
  import opened JsText
  import opened FieldRules
  import opened BookingForm

  /** The messages `validateForm` can record; `NoError` is the empty string. */
  datatype ClientMessage =
    | NoError
    | NameRequired | NameInvalid
    | NumberRequired | NumberInvalid
    | EmailRequired | EmailInvalid
    | TypeRequired
    | DateRequired
    | VenueRequired | VenueInvalid
    | DetailsRequired | DetailsInvalid
    | Max50 | Max100 | Max200

  /** The text `validateForm` records; "" stands for no error, and only for that. */
  function ClientText(m: ClientMessage): (t: string)
    ensures t == "" <==> m == NoError
  {
    match m
    case NoError => ""
    case NameRequired => "Full name is required."
    case NameInvalid => "Invalid full name. Only letters, spaces, hyphens, and apostrophes allowed."
    case NumberRequired => "Phone number required."
    case NumberInvalid => "Phone number must contain only digits (min 10)."
    case EmailRequired => "Email is required."
    case EmailInvalid => "Invalid email format."
    case TypeRequired => "Please select a booking type."
    case DateRequired => "Please select a date."
    case VenueRequired => "Venue / Location is required."
    case VenueInvalid => "Invalid venue. Only letters, numbers, spaces, hyphens, apostrophes, commas, @, and & allowed."
    case DetailsRequired => "Please provide some details."
    case DetailsInvalid => "Only letters, numbers, spaces, ', -, ! are allowed (max 200 chars)."
    case Max50 => "Maximum 50 characters allowed."
    case Max100 => "Maximum 100 characters allowed."
    case Max200 => "Maximum 200 characters allowed."
  }

  /** The common chain: presence, then the length limit, then the field's rule. */
  function FirstFailure(present: bool, tooLong: bool, rule: bool, required: ClientMessage,
                        maximum: ClientMessage, invalid: ClientMessage): (m: ClientMessage)
    requires required != NoError && maximum != NoError && invalid != NoError
    ensures m == NoError <==> present && !tooLong && rule
    ensures !present ==> m == required
    ensures present && tooLong ==> m == maximum
    ensures present && !tooLong && !rule ==> m == invalid
  {
    if !present then required
    else if tooLong then maximum
    else if !rule then invalid
    else NoError
  }

  /** `[^\s@]` */
  predicate IsEmailPart(c: char) {
    !IsSpace(c) && c != '@'
  }

  /** `/^[^\s@]+@[^\s@]+\.[^\s@]+$/`: a local part, `@`, and a domain made of two parts
      around a dot. The last two parts may themselves contain dots. */
  predicate EmailPattern(s: string) {
    exists i, j | 0 < i && i + 1 < j < |s| - 1 ::
      && s[i] == '@' && s[j] == '.'
      && All(s[..i], IsEmailPart) && All(s[i + 1..j], IsEmailPart) && All(s[j + 1..], IsEmailPart)
  }

  /** An independent description of the same shape: no white space, exactly one `@`,
      not at either end, and some dot after the `@` that is neither next to it nor last. */
  predicate EmailShape(s: string) {
    && All(s, IsNotSpace)
    && exists i | 0 < i < |s| ::
         && s[i] == '@'
         && (forall k | 0 <= k < |s| && k != i :: s[k] != '@')
         && (exists j | i + 1 < j < |s| - 1 :: s[j] == '.')
  }

  lemma EmailPatternMeaning(s: string)
    ensures EmailPattern(s) <==> EmailShape(s)
  {
    if EmailPattern(s) {
      PatternToShape(s);
    }
    if EmailShape(s) {
      ShapeToPattern(s);
    }
  }

  lemma PatternToShape(s: string)
    requires EmailPattern(s)
    ensures EmailShape(s)
  {
    var i, j :| 0 < i && i + 1 < j < |s| - 1 && s[i] == '@' && s[j] == '.'
                && All(s[..i], IsEmailPart) && All(s[i + 1..j], IsEmailPart) && All(s[j + 1..], IsEmailPart);
    forall k | 0 <= k < |s| && k != i ensures IsEmailPart(s[k]) {
      if k < i {
        assert s[k] == s[..i][k];
      } else if k < j {
        assert s[k] == s[i + 1..j][k - i - 1];
      } else if k > j {
        assert s[k] == s[j + 1..][k - j - 1];
      }
    }
    assert All(s, IsNotSpace) by {
      forall k | 0 <= k < |s| ensures IsNotSpace(s[k]) {
        if k != i {
          assert IsEmailPart(s[k]);
        }
      }
    }
    assert s[i] == '@' && (forall k | 0 <= k < |s| && k != i :: s[k] != '@');
    assert i + 1 < j < |s| - 1 && s[j] == '.';
  }

  lemma ShapeToPattern(s: string)
    requires EmailShape(s)
    ensures EmailPattern(s)
  {
    var i :| 0 < i < |s| && s[i] == '@'
         && (forall k | 0 <= k < |s| && k != i :: s[k] != '@')
         && (exists j | i + 1 < j < |s| - 1 :: s[j] == '.');
    var j :| i + 1 < j < |s| - 1 && s[j] == '.';
    var local, domain, top := s[..i], s[i + 1..j], s[j + 1..];
    assert All(local, IsEmailPart) by {
      forall k | 0 <= k < |local| ensures IsEmailPart(local[k]) {
        assert local[k] == s[k];
      }
    }
    assert All(domain, IsEmailPart) by {
      forall k | 0 <= k < |domain| ensures IsEmailPart(domain[k]) {
        assert domain[k] == s[k + i + 1];
      }
    }
    assert All(top, IsEmailPart) by {
      forall k | 0 <= k < |top| ensures IsEmailPart(top[k]) {
        assert top[k] == s[k + j + 1];
      }
    }
  }

  /** `[\p{L}\d\s'!\-]` */
  function IsDetailsChar(isLetter: char -> bool): char -> bool {
    c => isLetter(c) || IsAsciiDigit(c) || IsSpace(c) || c == '\'' || c == '!' || c == '-'
  }

  // What each field must satisfy for `validateForm` to record "".

  predicate ClientNameOk(value: string, isLetter: char -> bool) {
    0 < |value| <= 100 && NamePattern(CollapseSpaces(Trim(value)), isLetter)
  }

  predicate ClientNumberOk(value: string) {
    10 <= |value| <= 50 && All(value, IsAsciiDigit)
  }

  predicate ClientEmailOk(value: string) {
    0 < |value| <= 50 && EmailPattern(value)
  }

  predicate ClientTypeOk(value: string) {
    value != "" && value != "Select option"
  }

  predicate ClientDateOk(value: string) {
    0 < |value| <= 50
  }

  predicate ClientVenueOk(value: string, isLetter: char -> bool) {
    |value| <= 100 && VenuePattern(CollapseSpaces(Trim(value)), isLetter)
  }

  predicate ClientDetailsOk(value: string, isLetter: char -> bool) {
    0 < |value| <= 200 && All(value, IsDetailsChar(isLetter))
  }

  predicate ClientOk(field: BookingField, value: string, isLetter: char -> bool) {
    match field
    case Name => ClientNameOk(value, isLetter)
    case Number => ClientNumberOk(value)
    case Email => ClientEmailOk(value)
    case Type => ClientTypeOk(value)
    case Date => ClientDateOk(value)
    case Venue => ClientVenueOk(value, isLetter)
    case Details => ClientDetailsOk(value, isLetter)
  }

  /** The name chain: presence and length are judged on the raw value, the pattern on
      the value trimmed and then collapsed. */
  function NameMessage(value: string, isLetter: char -> bool): (m: ClientMessage)
    ensures m == NoError <==> ClientNameOk(value, isLetter)
    ensures value == "" ==> m == NameRequired
    ensures |value| > 100 ==> m == Max100
    ensures 0 < |value| <= 100 && !NamePattern(CollapseSpaces(Trim(value)), isLetter) ==> m == NameInvalid
  {
    var tidy := CollapseSpaces(Trim(value));
    var ok := NamePattern(tidy, isLetter);
    assert ClientNameOk(value, isLetter) <==> 0 < |value| <= 100 && ok;
    FirstFailure(value != "", |value| > 100, ok, NameRequired, Max100, NameInvalid)
  }

  /** `/^\d{10,}$/`: nothing but ASCII digits, at least ten of them. */
  function NumberMessage(value: string): (m: ClientMessage)
    ensures m == NoError <==> ClientNumberOk(value)
    ensures value == "" ==> m == NumberRequired
    ensures |value| > 50 ==> m == Max50
    ensures 0 < |value| <= 50 && !(|value| >= 10 && All(value, IsAsciiDigit)) ==> m == NumberInvalid
  {
    FirstFailure(value != "", |value| > 50, |value| >= 10 && All(value, IsAsciiDigit),
                 NumberRequired, Max50, NumberInvalid)
  }

  function EmailMessage(value: string): (m: ClientMessage)
    ensures m == NoError <==> ClientEmailOk(value)
    ensures value == "" ==> m == EmailRequired
    ensures |value| > 50 ==> m == Max50
    ensures 0 < |value| <= 50 && !EmailPattern(value) ==> m == EmailInvalid
  {
    FirstFailure(value != "", |value| > 50, EmailPattern(value), EmailRequired, Max50, EmailInvalid)
  }

  function TypeMessage(value: string): (m: ClientMessage)
    ensures m == NoError <==> ClientTypeOk(value)
    ensures m in {NoError, TypeRequired}
  {
    if value == "" || value == "Select option" then TypeRequired else NoError
  }

  function DateMessage(value: string): (m: ClientMessage)
    ensures m == NoError <==> ClientDateOk(value)
    ensures value == "" ==> m == DateRequired
    ensures |value| > 50 ==> m == Max50
  {
    FirstFailure(value != "", |value| > 50, true, DateRequired, Max50, DateRequired)
  }

  /** The venue chain judges presence on the trimmed, collapsed value, the length on the
      raw value and the pattern on the trimmed, collapsed value. */
  function VenueMessage(value: string, isLetter: char -> bool): (m: ClientMessage)
    ensures m == NoError <==> ClientVenueOk(value, isLetter)
    ensures All(value, IsSpace) ==> m == VenueRequired
    ensures !All(value, IsSpace) && |value| > 100 ==> m == Max100
    ensures !All(value, IsSpace) && |value| <= 100 && !VenuePattern(CollapseSpaces(Trim(value)), isLetter)
            ==> m == VenueInvalid
  {
    var tidy := CollapseSpaces(Trim(value));
    FirstFailure(tidy != "", |value| > 100, VenuePattern(tidy, isLetter), VenueRequired, Max100, VenueInvalid)
  }

  function DetailsMessage(value: string, isLetter: char -> bool): (m: ClientMessage)
    ensures m == NoError <==> ClientDetailsOk(value, isLetter)
    ensures value == "" ==> m == DetailsRequired
    ensures |value| > 200 ==> m == Max200
    ensures 0 < |value| <= 200 && !All(value, IsDetailsChar(isLetter)) ==> m == DetailsInvalid
  {
    FirstFailure(value != "", |value| > 200, All(value, IsDetailsChar(isLetter)),
                 DetailsRequired, Max200, DetailsInvalid)
  }

  /** The message `validateForm` computes for one field. */
  function FieldMessage(field: BookingField, value: string, isLetter: char -> bool): (m: ClientMessage)
    ensures m == NoError <==> ClientOk(field, value, isLetter)
  {
    match field
    case Name => NameMessage(value, isLetter)
    case Number => NumberMessage(value)
    case Email => EmailMessage(value)
    case Type => TypeMessage(value)
    case Date => DateMessage(value)
    case Venue => VenueMessage(value, isLetter)
    case Details => DetailsMessage(value, isLetter)
  }

  /** `validateForm(name, value)`: the field's entry is replaced by its message, and
      every other entry stays as it was. */
  function ValidateForm(errors: map<BookingField, ClientMessage>, field: BookingField, value: string,
                        isLetter: char -> bool): (r: map<BookingField, ClientMessage>)
    ensures r.Keys == errors.Keys + {field}
    ensures r[field] == NoError <==> ClientOk(field, value, isLetter)
    ensures forall f | f in errors && f != field :: r[f] == errors[f]
  {
    errors[field := FieldMessage(field, value, isLetter)]
  }
}
