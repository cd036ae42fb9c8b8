/** Field rules that all three copies of the validation share: the full-name and venue
    patterns and the digit extractor. */
module FieldRules {
  import opened Wrappers
  import opened JsText
  import opened Grammar

  predicate IsNameJoiner(c: char) {
    c == '-' || c == '\''
  }

  predicate IsNameSeparator(c: char) {
    c == ' '
  }

  /** `/^[\p{L}]+(?:[-'][\p{L}]+)*(?: [\p{L}]+(?:[-'][\p{L}]+)*)*$/u` */
  predicate NamePattern(s: string, isLetter: char -> bool) {
    IsPhrase(s, isLetter, IsNameJoiner, IsNameSeparator)
  }

  /** `[\p{L}\d]` */
  function VenueAtom(isLetter: char -> bool): char -> bool {
    c => isLetter(c) || IsAsciiDigit(c)
  }

  predicate IsVenueJoiner(c: char) {
    c == '-' || c == '\'' || c == '@' || c == '&'
  }

  predicate IsVenueSeparator(c: char) {
    c == ' ' || c == ','
  }

  /** `/^[\p{L}\d]+(?:[-'@&][\p{L}\d]+)*(?:[ ,][\p{L}\d]+(?:[-'@&][\p{L}\d]+)*)*$/u` */
  predicate VenuePattern(s: string, isLetter: char -> bool) {
    IsPhrase(s, VenueAtom(isLetter), IsVenueJoiner, IsVenueSeparator)
  }

  /** A full name is a non-empty string in which every character is a letter, or a
      hyphen, apostrophe or space standing between two letters. */
  lemma NamePatternMeaning(s: string, isLetter: char -> bool)
    ensures NamePattern(s, isLetter) <==>
      && |s| > 0
      && forall k | 0 <= k < |s| ::
           || isLetter(s[k])
           || (&& 0 < k < |s| - 1
               && (s[k] == '-' || s[k] == '\'' || s[k] == ' ')
               && isLetter(s[k - 1]) && isLetter(s[k + 1]))
  {
    PhraseIsFlat(s, isLetter, IsNameJoiner, IsNameSeparator);
    var mark := Either(IsNameJoiner, IsNameSeparator);
    assert forall k | 0 <= k < |s| :: mark(s[k]) <==> (s[k] == '-' || s[k] == '\'' || s[k] == ' ');
  }

  /** A run of letters is a full name. */
  lemma LettersAreName(s: string, isLetter: char -> bool)
    requires |s| > 0 && forall k | 0 <= k < |s| :: isLetter(s[k])
    ensures NamePattern(s, isLetter)
  {
    NamePatternMeaning(s, isLetter);
  }

  /** Two full names joined by a hyphen, an apostrophe or a space make a full name. */
  lemma NamesJoin(a: string, m: char, b: string, isLetter: char -> bool)
    requires NamePattern(a, isLetter) && NamePattern(b, isLetter)
    requires m == '-' || m == '\'' || m == ' '
    ensures NamePattern(a + [m] + b, isLetter)
  {
    NamePatternMeaning(a, isLetter);
    NamePatternMeaning(b, isLetter);
    var s := a + [m] + b;
    NamePatternMeaning(s, isLetter);
    assert isLetter(a[|a| - 1]) && isLetter(b[0]);
    forall k | 0 <= k < |s|
      ensures || isLetter(s[k])
              || (&& 0 < k < |s| - 1
                  && (s[k] == '-' || s[k] == '\'' || s[k] == ' ')
                  && isLetter(s[k - 1]) && isLetter(s[k + 1]))
    {
      if k < |a| {
        assert s[k] == a[k];
        if 0 < k < |a| - 1 {
          assert s[k - 1] == a[k - 1] && s[k + 1] == a[k + 1];
        }
      } else if k > |a| {
        var k' := k - |a| - 1;
        assert s[k] == b[k'];
        if 0 < k' < |b| - 1 {
          assert s[k - 1] == b[k' - 1] && s[k + 1] == b[k' + 1];
        }
      } else {
        assert s[k - 1] == a[|a| - 1] && s[k + 1] == b[0];
      }
    }
  }

  /** A venue is a non-empty string in which every character is a letter or digit, or
      one of `-'@&`, space and comma standing between two letters or digits. In
      particular a comma must be followed directly by a letter or digit. */
  lemma VenuePatternMeaning(s: string, isLetter: char -> bool)
    ensures VenuePattern(s, isLetter) <==>
      && |s| > 0
      && forall k | 0 <= k < |s| ::
           || VenueAtom(isLetter)(s[k])
           || (&& 0 < k < |s| - 1
               && (IsVenueJoiner(s[k]) || IsVenueSeparator(s[k]))
               && VenueAtom(isLetter)(s[k - 1]) && VenueAtom(isLetter)(s[k + 1]))
  {
    PhraseIsFlat(s, VenueAtom(isLetter), IsVenueJoiner, IsVenueSeparator);
  }

  /** The full-name rule of both servers: present, at most 100 characters, and of the
      name pattern once white-space runs are collapsed and the ends trimmed. */
  predicate NameAccepted(name: string, isLetter: char -> bool) {
    0 < |name| <= 100 && NamePattern(Trim(CollapseSpaces(name)), isLetter)
  }

  /** On a trimmed name the servers' trim after collapsing changes nothing. */
  lemma NameAcceptedTrimmed(name: string, isLetter: char -> bool)
    requires IsTrimmed(name)
    ensures NameAccepted(name, isLetter) <==> 0 < |name| <= 100 && NamePattern(CollapseSpaces(name), isLetter)
  {
    CollapseTrimmed(name);
  }

  /** The e-mail rule of both servers. */
  predicate EmailAccepted(email: string, isEmail: string -> bool) {
    0 < |email| <= 50 && isEmail(email)
  }

  /** The full-name entry of both servers' error maps, with each server's messages. */
  function NameEntry<M>(name: string, isLetter: char -> bool, tooLong: M, required: M, invalid: M): (m: Option<M>)
    ensures m == None <==> NameAccepted(name, isLetter)
  {
    Check(name, 100, NamePattern(Trim(CollapseSpaces(name)), isLetter), tooLong, required, invalid)
  }

  /** The e-mail entry of both servers' error maps. */
  function EmailEntry<M>(email: string, isEmail: string -> bool, tooLong: M, required: M, invalid: M): (m: Option<M>)
    ensures m == None <==> EmailAccepted(email, isEmail)
  {
    Check(email, 50, isEmail(email), tooLong, required, invalid)
  }

  /** `(str || "").replace(/\D+/g, "")` */
  function OnlyDigits(s: string): (r: string)
    ensures All(r, IsAsciiDigit)
    ensures |r| <= |s|
    ensures r == s <==> All(s, IsAsciiDigit)
  {
    assert Filter(s, IsAsciiDigit) == s <==> All(s, IsAsciiDigit) by {
      FilterIdentity(s, IsAsciiDigit);
    }
    Filter(s, IsAsciiDigit)
  }

  /** The digits of a concatenation are the digits of each part, in order: with the
      one-character case this makes `OnlyDigits` the in-order subsequence of digits. */
  lemma OnlyDigitsAppend(a: string, b: string)
    ensures OnlyDigits(a + b) == OnlyDigits(a) + OnlyDigits(b)
    ensures |a| == 1 ==> OnlyDigits(a) == (if IsAsciiDigit(a[0]) then a else [])
  {
    FilterAppend(a, b, IsAsciiDigit);
    if |a| == 1 {
      assert a[1..] == [];
    }
  }

  /** One assignment `errors.field = message` guarded by `failed`, seen from a single
      field: the later assignment wins. */
  function Mark<M>(entry: Option<M>, failed: bool, message: M): Option<M> {
    if failed then Some(message) else entry
  }

  /** The checks both servers run on most fields: a length check that writes `tooLong`,
      then a presence check and the field's rule, whose message overwrites it. The entry
      is empty exactly when the field is present, short enough and obeys its rule; a
      missing field is reported as missing, a rule violation as invalid, and the length
      message survives only when the rule holds. */
  function Check<M>(value: string, max: nat, rule: bool, tooLong: M, required: M, invalid: M): (m: Option<M>)
    ensures m == None <==> 0 < |value| <= max && rule
    ensures value == "" ==> m == Some(required)
    ensures value != "" && !rule ==> m == Some(invalid)
    ensures |value| > max && rule ==> m == Some(tooLong)
  {
    var m := Mark(None, value != "" && |value| > max, tooLong);
    Mark(m, value == "" || !rule, if value == "" then required else invalid)
  }
}
