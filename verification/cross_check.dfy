/** The browser's validator against the booking endpoint's: where the two agree and the
    inputs on which they part ways, among them the two placeholders the form itself shows. */
module CrossCheck {
  import opened Wrappers
  import opened JsText
  import opened Http
  import opened Foreign
  import opened FieldRules
  import opened ContactForm
  import EdgeFunction

  /** The placeholder of the phone-number input. */
  const PhonePlaceholder: string := "012 345 6789"

  /** The placeholder of the venue input. */
  const VenuePlaceholder: string := "E.g. De Harte Wedding Venue, Pretoria"

  /** A phone number written as digit groups separated by single spaces fails in the
      browser, which wants digits only, and passes at the booking endpoint, which counts
      only the digits among the characters. */
  lemma SpacedDigitsSplitVerdicts(a: string, b: string, c: string)
    requires All(a, IsAsciiDigit) && All(b, IsAsciiDigit) && All(c, IsAsciiDigit)
    requires a != [] && c != [] && 10 <= |a| + |b| + |c| <= 48
    ensures NumberMessage(a + " " + b + " " + c) == NumberInvalid
    ensures EdgeFunction.SanitizeInput(JsString(a + " " + b + " " + c)) == a + " " + b + " " + c
    ensures EdgeFunction.NumberEntry(a + " " + b + " " + c) == None
  {
    var p := a + " " + b + " " + c;
    assert p[|a|] == ' ';
    assert IsTrimmed(p) by {
      assert p[0] == a[0] && p[|p| - 1] == c[|c| - 1];
    }
    forall k | 0 <= k < |p| ensures !EdgeFunction.IsLowControl(p[k]) && EdgeFunction.IsNotAngle(p[k]) {
      assert IsAsciiDigit(p[k]) || p[k] == ' ' by {
        if k < |a| {
          assert p[k] == a[k];
        } else if |a| < k < |a| + 1 + |b| {
          assert p[k] == b[k - |a| - 1];
        } else if k > |a| + 1 + |b| {
          assert p[k] == c[k - |a| - |b| - 2];
        }
      }
    }
    EdgeFunction.SanitizeFixpoint(p);
    SpacedDigits(a, b, c);
  }

  lemma SpacedDigits(a: string, b: string, c: string)
    requires All(a, IsAsciiDigit) && All(b, IsAsciiDigit) && All(c, IsAsciiDigit)
    ensures OnlyDigits(a + " " + b + " " + c) == a + b + c
  {
    var x1 := a + " ";
    OnlyDigitsAppend(a, " ");
    OnlyDigitsAppend(" ", []);
    assert OnlyDigits(x1) == a;
    var x2 := x1 + b;
    OnlyDigitsAppend(x1, b);
    assert OnlyDigits(x2) == a + b;
    var x3 := x2 + " ";
    OnlyDigitsAppend(x2, " ");
    assert OnlyDigits(x3) == a + b;
    OnlyDigitsAppend(x3, c);
  }

  /** The phone-number placeholder is such a number. */
  lemma PhonePlaceholderSplitsVerdicts(p: string)
    requires p == PhonePlaceholder
    ensures NumberMessage(p) == NumberInvalid
    ensures EdgeFunction.SanitizeInput(JsString(p)) == p
    ensures EdgeFunction.NumberEntry(p) == None
  {
    assert p == "012" + " " + "345" + " " + "6789";
    SpacedDigitsSplitVerdicts("012", "345", "6789");
  }

  /** Every phone number the browser accepts reaches the booking endpoint unchanged and is
      accepted there too. */
  lemma ClientNumberAcceptedByEdge(value: string)
    requires ClientNumberOk(value)
    ensures EdgeFunction.SanitizeInput(JsString(value)) == value
    ensures EdgeFunction.NumberEntry(value) == None
  {
    assert IsTrimmed(value) by {
      assert IsAsciiDigit(value[0]) && IsAsciiDigit(value[|value| - 1]);
    }
    assert forall k | 0 <= k < |value| :: !EdgeFunction.IsLowControl(value[k]) && EdgeFunction.IsNotAngle(value[k]) by {
      forall k | 0 <= k < |value| ensures !EdgeFunction.IsLowControl(value[k]) && EdgeFunction.IsNotAngle(value[k]) {
        assert IsAsciiDigit(value[k]);
      }
    }
    EdgeFunction.SanitizeFixpoint(value);
    assert OnlyDigits(value) == value;
  }

  /** For a name of at most 100 characters with nothing that sanitising removes, the
      browser and the booking endpoint reach the same verdict: the endpoint trims first and
      the browser trims as part of its pattern check. */
  lemma NameVerdictsAgree(value: string, isLetter: char -> bool)
    requires |value| <= 100
    requires forall k | 0 <= k < |value| :: !EdgeFunction.IsLowControl(value[k]) && EdgeFunction.IsNotAngle(value[k])
    ensures ClientNameOk(value, isLetter) <==> NameAccepted(EdgeFunction.SanitizeInput(JsString(value)), isLetter)
  {
    var t := Trim(value);
    EdgeFunction.SanitizeCleanIsTrim(value);
    NameAcceptedTrimmed(t, isLetter);
    assert t == [] ==> !NamePattern(CollapseSpaces(t), isLetter);
  }

  /** An ASCII character that no copy of the venue rule allows: neither a letter, a digit
      nor one of `-'@&,`, and not white space. */
  predicate IsForeignToVenue(c: char) {
    && c < '\U{80}' && !IsAsciiLetter(c) && !IsAsciiDigit(c) && !IsSpace(c)
    && !IsVenueJoiner(c) && !IsVenueSeparator(c)
  }

  /** A character foreign to the venue rule that sanitising also keeps: not a control
      character and not an angle bracket. */
  predicate IsStray(c: char) {
    IsForeignToVenue(c) && !EdgeFunction.IsLowControl(c) && EdgeFunction.IsNotAngle(c)
  }

  /** The browser refuses every venue holding a character foreign to the venue rule: the
      character survives trimming and collapsing and fits nowhere in the pattern. */
  lemma ForeignCharacterRefusedByBrowser(s: string, c: char, isLetter: char -> bool)
    requires AsciiLetters(isLetter)
    requires c in s && IsForeignToVenue(c)
    ensures |s| <= 100 ==> VenueMessage(s, isLetter) == VenueInvalid
    ensures |s| > 100 ==> VenueMessage(s, isLetter) == Max100
  {
    TrimKeepsNonSpace(s, c);
    CollapseKeepsCharacter(Trim(s), c);
    NoVenueWith(CollapseSpaces(Trim(s)), c, isLetter);
  }

  /** A venue holding a stray character is refused by the browser and by the booking
      endpoint: sanitising keeps the character as well. */
  lemma StrayCharacterRejected(s: string, c: char, isLetter: char -> bool)
    requires AsciiLetters(isLetter)
    requires c in s && IsStray(c)
    ensures |s| <= 100 ==> VenueMessage(s, isLetter) == VenueInvalid
    ensures |s| > 100 ==> VenueMessage(s, isLetter) == Max100
    ensures EdgeFunction.VenueEntry(EdgeFunction.SanitizeInput(JsString(s)), isLetter) == Some(EdgeFunction.VenueInvalid)
  {
    ForeignCharacterRefusedByBrowser(s, c, isLetter);
    EdgeFunction.SanitizeKeepsCharacter(s, c);
    NoVenueWith(EdgeFunction.SanitizeInput(JsString(s)), c, isLetter);
  }

  lemma NoVenueWith(s: string, c: char, isLetter: char -> bool)
    requires AsciiLetters(isLetter)
    requires c in s && IsForeignToVenue(c)
    ensures !VenuePattern(s, isLetter)
  {
    VenuePatternMeaning(s, isLetter);
    var k :| 0 <= k < |s| && s[k] == c;
    assert !isLetter(c);
    assert !VenueAtom(isLetter)(s[k]);
  }

  /** An angle bracket between two letters, as in "A<B", is refused by the browser, but
      the booking endpoint removes it while sanitising and accepts what is left. */
  lemma AngleBracketSplitsVerdicts(x: char, y: char, isLetter: char -> bool)
    requires IsAsciiLetter(x) && IsAsciiLetter(y)
    requires AsciiLetters(isLetter)
    ensures VenueMessage([x, '<', y], isLetter) == VenueInvalid
    ensures EdgeFunction.SanitizeInput(JsString([x, '<', y])) == [x, y]
    ensures EdgeFunction.VenueEntry([x, y], isLetter) == None
  {
    ForeignCharacterRefusedByBrowser([x, '<', y], '<', isLetter);
    AngleBracketDropped(x, y);
    TwoLetterVenue(x, y, isLetter);
  }

  lemma AngleBracketDropped(x: char, y: char)
    requires IsAsciiLetter(x) && IsAsciiLetter(y)
    ensures EdgeFunction.SanitizeInput(JsString([x, '<', y])) == [x, y]
  {
    var a, b := [x], [y];
    assert a + ['<'] + b == [x, '<', y];
    assert IsTrimmed(a + ['<'] + b) by {
      assert (a + ['<'] + b)[0] == x && (a + ['<'] + b)[2] == y;
    }
    assert !EdgeFunction.IsNotAngle('<');
    EdgeFunction.SanitizeDropsCharacter(a, '<', b);
    assert a + b == [x, y];
  }

  lemma TwoLetterVenue(x: char, y: char, isLetter: char -> bool)
    requires IsAsciiLetter(x) && IsAsciiLetter(y)
    requires AsciiLetters(isLetter)
    ensures EdgeFunction.VenueEntry([x, y], isLetter) == None
  {
    var w := [x, y];
    VenuePatternMeaning(w, isLetter);
    assert isLetter(x) && isLetter(y);
    assert VenueAtom(isLetter)(w[0]) && VenueAtom(isLetter)(w[1]);
  }

  /** The venue placeholder holds a dot, so both validators refuse it. */
  lemma VenuePlaceholderRejected(p: string, isLetter: char -> bool)
    requires p == VenuePlaceholder
    requires AsciiLetters(isLetter)
    ensures VenueMessage(p, isLetter) == VenueInvalid
    ensures EdgeFunction.VenueEntry(EdgeFunction.SanitizeInput(JsString(p)), isLetter) == Some(EdgeFunction.VenueInvalid)
  {
    assert p[1] == '.' && |p| == 37;
    StrayCharacterRejected(p, '.', isLetter);
  }

  /** A comma followed by a space, as a postal address is usually written, is refused by
      every copy of the venue rule. */
  lemma CommaSpaceRejected(s: string, k: nat, isLetter: char -> bool)
    requires AsciiLetters(isLetter)
    requires k + 1 < |s| && s[k] == ',' && s[k + 1] == ' '
    ensures !VenuePattern(s, isLetter)
  {
    VenuePatternMeaning(s, isLetter);
    assert !isLetter(',') && !isLetter(' ');
    assert !VenueAtom(isLetter)(s[k]) && !VenueAtom(isLetter)(s[k + 1]);
  }

  /** A doubled space inside a venue, as in "A  B", passes in the browser, which collapses
      white space before matching, and fails at the booking endpoint, which does not. */
  lemma DoubledSpaceSplitsVerdicts(x: char, y: char, isLetter: char -> bool)
    requires IsAsciiLetter(x) && IsAsciiLetter(y)
    requires AsciiLetters(isLetter)
    ensures VenueMessage([x, ' ', ' ', y], isLetter) == NoError
    ensures EdgeFunction.SanitizeInput(JsString([x, ' ', ' ', y])) == [x, ' ', ' ', y]
    ensures EdgeFunction.VenueEntry([x, ' ', ' ', y], isLetter) == Some(EdgeFunction.VenueInvalid)
  {
    DoubledSpaceClientOk(x, y, isLetter);
    ClientVenueMessage([x, ' ', ' ', y], isLetter);
    DoubledSpaceKeptBySanitising(x, y);
    DoubledSpaceNotVenue(x, y, isLetter);
  }

  lemma ClientVenueMessage(v: string, isLetter: char -> bool)
    requires ClientVenueOk(v, isLetter)
    ensures VenueMessage(v, isLetter) == NoError
  {
  }

  lemma DoubledSpaceKeptBySanitising(x: char, y: char)
    requires IsAsciiLetter(x) && IsAsciiLetter(y)
    ensures EdgeFunction.SanitizeInput(JsString([x, ' ', ' ', y])) == [x, ' ', ' ', y]
  {
    var v := [x, ' ', ' ', y];
    assert IsTrimmed(v);
    assert forall k | 0 <= k < |v| :: !EdgeFunction.IsLowControl(v[k]) && EdgeFunction.IsNotAngle(v[k]);
    EdgeFunction.SanitizeFixpoint(v);
  }

  lemma DoubledSpaceClientOk(x: char, y: char, isLetter: char -> bool)
    requires IsAsciiLetter(x) && IsAsciiLetter(y)
    requires AsciiLetters(isLetter)
    ensures ClientVenueOk([x, ' ', ' ', y], isLetter)
  {
    var v := [x, ' ', ' ', y];
    TrimTrimmed(v);
    DoubledSpaceCollapses(x, y);
    SingleSpaceVenue(x, y, isLetter);
  }

  lemma DoubledSpaceCollapses(x: char, y: char)
    requires !IsSpace(x) && !IsSpace(y)
    ensures CollapseSpaces([x, ' ', ' ', y]) == [x, ' ', y]
  {
    var v := [x, ' ', ' ', y];
    var u := v[1..];
    assert CollapseSpaces(v) == [x] + CollapseSpaces(u);
    assert u[2..] == [y];
    assert Span(u, IsSpace) == 2 by {
      assert Span(u[2..], IsSpace) == 0;
      assert u[1..][1..] == u[2..];
    }
    assert CollapseSpaces(u) == [' '] + CollapseSpaces(u[2..]);
    CollapseIdentity([y]);
  }

  lemma SingleSpaceVenue(x: char, y: char, isLetter: char -> bool)
    requires IsAsciiLetter(x) && IsAsciiLetter(y)
    requires AsciiLetters(isLetter)
    ensures VenuePattern([x, ' ', y], isLetter)
  {
    var w := [x, ' ', y];
    VenuePatternMeaning(w, isLetter);
    assert isLetter(x) && isLetter(y);
    assert VenueAtom(isLetter)(w[0]) && VenueAtom(isLetter)(w[2]);
  }

  lemma DoubledSpaceNotVenue(x: char, y: char, isLetter: char -> bool)
    requires AsciiLetters(isLetter)
    ensures !VenuePattern([x, ' ', ' ', y], isLetter)
  {
    var v := [x, ' ', ' ', y];
    VenuePatternMeaning(v, isLetter);
    assert !isLetter(' ') && v[1] == ' ' && v[2] == ' ';
    assert !VenueAtom(isLetter)(v[1]) && !VenueAtom(isLetter)(v[2]);
  }

  /** A line break between two letters, as in "A\nB", passes in the browser, which turns
      it into a space, and fails at the booking endpoint, where sanitising keeps line feed
      and carriage return and the venue rule allows neither. */
  lemma LineBreakSplitsVerdicts(x: char, brk: char, y: char, isLetter: char -> bool)
    requires IsAsciiLetter(x) && IsAsciiLetter(y) && (brk == '\n' || brk == '\r')
    requires AsciiLetters(isLetter)
    ensures VenueMessage([x, brk, y], isLetter) == NoError
    ensures EdgeFunction.SanitizeInput(JsString([x, brk, y])) == [x, brk, y]
    ensures EdgeFunction.VenueEntry([x, brk, y], isLetter) == Some(EdgeFunction.VenueInvalid)
  {
    LineBreakClientOk(x, brk, y, isLetter);
    ClientVenueMessage([x, brk, y], isLetter);
    LineBreakKeptBySanitising(x, brk, y);
    LineBreakNotVenue(x, brk, y, isLetter);
  }

  lemma LineBreakKeptBySanitising(x: char, brk: char, y: char)
    requires IsAsciiLetter(x) && IsAsciiLetter(y) && (brk == '\n' || brk == '\r')
    ensures EdgeFunction.SanitizeInput(JsString([x, brk, y])) == [x, brk, y]
  {
    var v := [x, brk, y];
    assert IsTrimmed(v);
    assert forall k | 0 <= k < |v| :: !EdgeFunction.IsLowControl(v[k]) && EdgeFunction.IsNotAngle(v[k]);
    EdgeFunction.SanitizeFixpoint(v);
  }

  lemma LineBreakClientOk(x: char, brk: char, y: char, isLetter: char -> bool)
    requires IsAsciiLetter(x) && IsAsciiLetter(y) && (brk == '\n' || brk == '\r')
    requires AsciiLetters(isLetter)
    ensures ClientVenueOk([x, brk, y], isLetter)
  {
    var v := [x, brk, y];
    TrimTrimmed(v);
    LineBreakCollapses(x, brk, y);
    SingleSpaceVenue(x, y, isLetter);
  }

  lemma LineBreakCollapses(x: char, brk: char, y: char)
    requires !IsSpace(x) && !IsSpace(y) && IsSpace(brk)
    ensures CollapseSpaces([x, brk, y]) == [x, ' ', y]
  {
    assert [x, brk, y] == [x] + [brk] + [y];
    CollapseSplit([x], [brk], [y]);
    CollapseNonSpace([x]);
    CollapseNonSpace([y]);
  }

  lemma LineBreakNotVenue(x: char, brk: char, y: char, isLetter: char -> bool)
    requires AsciiLetters(isLetter) && (brk == '\n' || brk == '\r')
    ensures !VenuePattern([x, brk, y], isLetter)
  {
    var v := [x, brk, y];
    VenuePatternMeaning(v, isLetter);
    assert !isLetter(brk);
    assert !VenueAtom(isLetter)(v[1]) && !IsVenueJoiner(v[1]) && !IsVenueSeparator(v[1]);
  }

  /** A double-barrelled first name and a surname with an apostrophe, as in
      "Jean-Pierre O'Neil", make a full name. */
  lemma DoubleBarrelledName(first: string, second: string, prefix: string, surname: string, isLetter: char -> bool)
    requires first != [] && second != [] && prefix != [] && surname != []
    requires forall k | 0 <= k < |first| :: isLetter(first[k])
    requires forall k | 0 <= k < |second| :: isLetter(second[k])
    requires forall k | 0 <= k < |prefix| :: isLetter(prefix[k])
    requires forall k | 0 <= k < |surname| :: isLetter(surname[k])
    ensures NamePattern(first + "-" + second + " " + prefix + "'" + surname, isLetter)
  {
    LettersAreName(first, isLetter);
    LettersAreName(second, isLetter);
    LettersAreName(prefix, isLetter);
    LettersAreName(surname, isLetter);
    NamesJoin(first, '-', second, isLetter);
    NamesJoin(first + "-" + second, ' ', prefix, isLetter);
    NamesJoin(first + "-" + second + " " + prefix, '\'', surname, isLetter);
  }

  /** A name with `@` is not. */
  lemma AtSignName(name: string, isLetter: char -> bool)
    requires name == "J@ne"
    requires AsciiLetters(isLetter)
    ensures !NamePattern(name, isLetter)
  {
    NamePatternMeaning(name, isLetter);
    assert !isLetter('@') && name[1] == '@';
  }
}
