# Contact-form validation, modelled in Dafny

The site's contact forms validate a submission in three places, and this project models all three:

- **Booking endpoint.** The Cloudflare Pages function `onRequestPost` in `functions/api/contact.js` handles the booking form: name, phone number, e-mail, booking type, date, venue and details. It parses the body and runs the reCAPTCHA gate. Then it sanitises every field, validates all seven and builds an error map. If the map is empty it relays the enquiry to Mailgun.
- **Enquiry endpoint.** The Express route `POST /contact` in `backend/server.js` does the same for the enquiry form: name, e-mail, brief and budget. Its sanitising step is different: DOMPurify, then trim.
- **Browser validator.** `validateForm` in `frontend/src/components/ContactForm.js` checks one booking field at a time, as the user types.

Each handler is a pure function: from the parsed body, the verification result, the environment, the score threshold and the mail provider's outcome to a `Response(status, reply)`. The reply is either a notice `{success, message}` or a field-error map. The map's keys are a datatype of field names, and each form's module gives the text of every message.

The two field grammars are recursive predicates over `seq<char>`. They follow the regular expressions' structure and are proved equal to a position-by-position description. The grammars are:

- full names: letters joined by `-`/`'`, words separated by single spaces;
- venues: letters and digits joined by `-'@&`, tokens separated by a single space or comma.

Library code is passed in as function values in a `Lib` record:

- `\p{L}`;
- `validator.isEmail`;
- `validator.isISO8601`;
- `DOMPurify.sanitize`.

So every result holds whatever those functions compute. Concrete examples that need letter facts assume only `AsciiLetters`: on ASCII, `\p{L}` is exactly A–Z and a–z. `validator.stripLow(_, true)` is given its documented definition: it removes C0 controls except line feed and carriage return, and removes DEL.

Modules, by file:

| file | module | what it holds |
|---|---|---|
| `js_text.dfy` | `JsText` | JavaScript white space; filtering (`replace` of a character class by ""); `trim`; white-space collapsing (`replace(/\s+/g, " ")`) |
| `grammar.dfy` | `Grammar` | the shared shape of the name and venue patterns, and its flat characterisation |
| `field_rules.dfy` | `FieldRules` | the name and venue patterns, `onlyDigits`, and the checks both servers share |
| `foreign.dfy`, `http.dfy`, `wrappers.dfy` | `Foreign`, `Http`, `Wrappers` | the library record, bodies and responses, `Option` |
| `captcha.dfy` | `Captcha` | the reCAPTCHA gate, with JavaScript number comparison (NaN included) |
| `mail.dfy` | `Mail` | the configuration check and both relay steps |
| `booking_form.dfy` | `BookingForm` | the booking form's field names |
| `edge_function.dfy` | `EdgeFunction` | the booking endpoint |
| `express_server.dfy` | `ExpressServer` | the enquiry endpoint |
| `contact_form.dfy` | `ContactForm` | the browser's validator |
| `cross_check.dfy` | `CrossCheck` | where the browser and the booking endpoint agree and where they differ |

Two inputs that the form itself suggests as placeholders are settled:

- **Phone placeholder.** "012 345 6789" is refused by the browser, because it contains spaces. The booking endpoint accepts it, because it counts only the ten digits. The same holds for any number written as three digit groups separated by single spaces, with 10 to 48 digits in all. A number with fewer than ten digits, such as "1 2", is refused by both.
- **Venue placeholder.** "E.g. De Harte Wedding Venue, Pretoria" is refused by both validators. The first character that rules it out is the dot of "E.g.". Both validators refuse any venue containing a non-white-space ASCII character that the venue rule does not allow, provided sanitising keeps that character. The browser refuses `<`, `>` and the non-white-space control characters too, but the booking endpoint removes them while sanitising. So "A<B" is refused by the browser and accepted by the endpoint as "AB". White space splits the verdicts the other way: the browser turns a line feed or carriage return into a space, so it accepts "A\nB", while the endpoint keeps the line break and refuses it. Its ", Pretoria" rules it out as well: a comma followed by a space is refused wherever it occurs, because a comma must be followed directly by a letter or digit.

## Model

| member | source | states |
|---|---|---|
| JsText.IsSpace | functions/api/contact.js:123 | the white space of JavaScript's `\s` and `trim`: the WhiteSpace and LineTerminator characters of ECMA-262, from tab to U+FEFF |
| JsText.Filter | functions/api/contact.js:7-8 | the kept characters are all accepted by the test and no more numerous than the input's |
| JsText.FilterAppend | functions/api/contact.js:12-14 | filtering distributes over concatenation, so the result is the in-order subsequence of kept characters |
| JsText.FilterIdentity | functions/api/contact.js:7-8 | filtering leaves a string unchanged exactly when every character is kept |
| JsText.FilterMembership | functions/api/contact.js:7-8 | a character occurs in the result exactly when it occurs in the input and is kept |
| JsText.FilterFilter | functions/api/contact.js:7-8 | filtering by one test and then another equals one filter by both tests, so stripping controls and then angle brackets is a single removal |
| JsText.TrimStart | functions/api/contact.js:6 | the result is a suffix of the input, what was dropped is white space, and it does not start with white space |
| JsText.TrimEnd | functions/api/contact.js:6 | the result is a prefix of the input, what was dropped is white space, and it does not end with white space |
| JsText.Trim | functions/api/contact.js:6 | the result is a slice of the input with only white space outside it, has no white space at either end, and is empty exactly when the input is all white space |
| JsText.TrimKeepsNonSpace | functions/api/contact.js:6 | every non-white-space character of the input survives trimming |
| JsText.TrimTrimmed | functions/api/contact.js:6 | trimming a string with no white space at its ends changes nothing |
| JsText.CollapseSpaces | functions/api/contact.js:123 | the result holds no white space other than single plain spaces, is empty exactly when the input is, and begins and ends with white space exactly when the input does |
| JsText.CollapseIdentity | backend/server.js:115 | collapsing changes nothing on a string that is already collapsed |
| JsText.CollapseIdempotent | backend/server.js:115 | collapsing twice is collapsing once |
| JsText.CollapseKeepsNonSpace | functions/api/contact.js:123 | collapsing keeps every non-white-space character, in order, and adds none |
| JsText.CollapseKeepsCharacter | functions/api/contact.js:123 | a non-white-space character of the input occurs in the collapsed string |
| JsText.CollapseNonSpace | functions/api/contact.js:123 | text without white space collapses to itself |
| JsText.CollapseRun | functions/api/contact.js:123 | a run of white space of any length and kind collapses to a single plain space |
| JsText.CollapseSplit | functions/api/contact.js:123 | a maximal run of white space between two pieces of text becomes one space between the two pieces, each collapsed on its own; so "ab  " collapses to "ab " |
| JsText.CollapseTrimmed | functions/api/contact.js:123 | collapsing a trimmed string leaves it trimmed, so the trim after collapsing changes nothing |
| Grammar.WordIsFlat | functions/api/contact.js:125 | one word of the pattern (letters joined by single joiners) is exactly a non-empty string whose every character is a letter or a joiner between two letters |
| Grammar.PhraseIsFlat | functions/api/contact.js:166 | the whole pattern (words separated by single separators) is exactly a non-empty string whose every character is an atom or a joiner or separator between two atoms |
| FieldRules.NamePatternMeaning | functions/api/contact.js:124-130 | a full name is non-empty, with every character a letter or a hyphen, apostrophe or space between two letters |
| FieldRules.LettersAreName | functions/api/contact.js:125 | a non-empty run of letters is a full name |
| FieldRules.NamesJoin | functions/api/contact.js:125 | two full names joined by a hyphen, apostrophe or space make a full name |
| FieldRules.VenuePatternMeaning | functions/api/contact.js:165-171 | a venue is non-empty, with every character a letter or digit, or one of `-'@&`, space or comma between two letters or digits |
| FieldRules.NameAcceptedTrimmed | functions/api/contact.js:123 | for a trimmed name the servers' rule is the length check plus the pattern on the collapsed name |
| FieldRules.NamePattern | functions/api/contact.js:125 | the full-name regular expression: letter runs joined by `-` or `'` form words, and words are separated by single spaces |
| FieldRules.VenuePattern | functions/api/contact.js:166 | the venue regular expression: runs of letters and digits joined by one of `-'@&` form tokens, and tokens are separated by a single space or comma |
| FieldRules.NameEntry | functions/api/contact.js:107-131 | the name gets no entry exactly when it is present, at most 100 characters and a full name after collapsing and trimming |
| FieldRules.EmailEntry | functions/api/contact.js:140-144 | the e-mail gets no entry exactly when it is present, at most 50 characters and accepted by `isEmail` |
| FieldRules.OnlyDigits | functions/api/contact.js:12-14 | the result is all ASCII digits, no longer than the input, and equal to it exactly when the input is all digits |
| FieldRules.OnlyDigitsAppend | backend/server.js:53-55 | the digits of a concatenation are the digits of each part in order, and a single character contributes itself exactly when it is a digit |
| FieldRules.Check | functions/api/contact.js:107-144 | the shared length-then-rule checks give no entry exactly when the value is present, within its limit and obeys its rule; a missing value is reported missing, a rule violation invalid, and the length message survives only when the rule holds |
| Captcha.Gate | functions/api/contact.js:39-93 | the gate lets a request through exactly when the token is present and the provider vouches for it; an empty token gets 400 "Captcha required." and every other rejection is a 429 notice, with the message for a thrown error, a failed verification and an action mismatch |
| Captcha.Below | functions/api/contact.js:82 | JavaScript's `<` on numbers: false whenever either side is NaN, with the infinities at the ends |
| Captcha.Vouches | functions/api/contact.js:68-87 | the provider's verdict is a success, its action does not contradict the declared one, and any numeric score is not below the threshold |
| Captcha.NaNThresholdIgnoresScore | functions/api/contact.js:82-87 | with a NaN threshold the gate decides as if no score had been reported |
| Captcha.ScoreRejection | functions/api/contact.js:82-87 | with a successful, consistent verdict the gate rejects exactly when the score is below the threshold, with "Captcha score too low." |
| Mail.ThrownMessage | functions/api/contact.js:250-255 | the message of a thrown value is its own message when it is an error object with a non-empty message, the thrown string when it is a non-empty string, and "Failed to send email." otherwise |
| Mail.Configured | functions/api/contact.js:185-195 | an API key (`MAILGUN_API_KEY`, else `API_KEY`), a sending domain and a recipient are all non-empty |
| Mail.EdgeRelay | functions/api/contact.js:184-256 | 200 exactly when configured and the provider answered ok; 500 when unconfigured; a provider answer that is not ok is a 502 carrying the provider's text, or "Failed to send email." when the text is empty; a thrown call is a 502 carrying the thrown value's message |
| Mail.ExpressRelay | backend/server.js:143-188 | 200 exactly when configured and the send resolved; 500 when unconfigured; a failed send is a 502 whose non-empty message is the error's own message when it has one, and otherwise the response body's message when that is non-empty, else "Failed to send email." |
| EdgeFunction.SanitizeInput | functions/api/contact.js:4-9 | non-strings become ""; the result has no low control characters and no angle brackets, is no longer than the input, and is the trimmed input with those characters removed |
| EdgeFunction.IsLowControl | functions/api/contact.js:7 | the characters `validator.stripLow(_, true)` removes: C0 controls other than line feed and carriage return, and DEL |
| EdgeFunction.ReadField | functions/api/contact.js:97-105 | a field the body lacks reads as "", and every field read holds no low control character and no angle bracket |
| EdgeFunction.ReadBooking | functions/api/contact.js:97-105 | each of the seven fields of the booking is the body's property of the same name, sanitised |
| EdgeFunction.ValidTypesPass | functions/api/contact.js:146-155 | each of the five booking types the form offers passes sanitising unchanged and gets no entry |
| EdgeFunction.SanitizeFixpoint | functions/api/contact.js:4-9 | sanitising leaves a string unchanged exactly when it has no white space at either end and nothing the removals drop |
| EdgeFunction.SanitizeCleanIsTrim | functions/api/contact.js:6-8 | on text with nothing for the removals to drop, sanitising is trimming |
| EdgeFunction.SanitizeKeepsCharacter | functions/api/contact.js:6-8 | a non-white-space character that the removals keep survives sanitising |
| EdgeFunction.SanitizeDropsCharacter | functions/api/contact.js:6-8 | a control character or angle bracket inside otherwise clean, trimmed text is removed and the text on either side is joined |
| EdgeFunction.SanitizeNeitherTrimsNorSettles | functions/api/contact.js:6-8 | "a <" sanitises to "a ", which is not trimmed and sanitises again to "a" |
| EdgeFunction.NumberEntry | functions/api/contact.js:133-138 | the phone number gets no entry exactly when it is present, at most 50 characters and holds at least ten ASCII digits, whatever else it contains |
| EdgeFunction.TypeEntry | functions/api/contact.js:146-155 | the booking type gets no entry exactly when it is one of the five types, and otherwise gets "Invalid booking type." |
| EdgeFunction.DateEntry | functions/api/contact.js:157-161 | the date gets no entry exactly when it is present, at most 50 characters and a strict ISO 8601 date |
| EdgeFunction.VenueEntry | functions/api/contact.js:163-171 | the venue gets no entry exactly when it is present, at most 100 characters and a venue as sanitised, without collapsing |
| EdgeFunction.DetailsEntry | functions/api/contact.js:173-177 | the details get no entry exactly when present and at most 200 characters; missing details are reported missing, longer ones too long |
| EdgeFunction.IsLength | functions/api/contact.js:175 | `validator.isLength` with a maximum: the length not counting the presentation selectors U+FE0E and U+FE0F is within the maximum |
| EdgeFunction.ErrorMap | functions/api/contact.js:179-180 | a field has a key exactly when it has an entry, holding that entry's message, and the map is empty exactly when no field has one |
| EdgeFunction.BookingText | functions/api/contact.js:107-176 | the text the booking endpoint sends for each message; none is empty |
| EdgeFunction.BookingErrors | functions/api/contact.js:107-177 | the booking's error map is empty exactly when all seven fields are accepted, with one key per failing field |
| EdgeFunction.HandleBooking | functions/api/contact.js:27-256 | an unparsable body gets 400 "Invalid JSON body." and a null body 429 "Captcha verification error."; otherwise a gate rejection is the answer, then invalid fields get 400 with the non-empty error map, then the relay decides (500 unconfigured, 502 provider failure, 200); 200 exactly when every stage passes |
| EdgeFunction.TokenCheckedFirst | functions/api/contact.js:39-43 | without a token the answer is 400 "Captcha required.", whatever the verification, fields, configuration and mail call |
| EdgeFunction.FieldsCheckedBeforeRelay | functions/api/contact.js:179-181 | past the gate, invalid fields are answered with 400 and the error map, whatever the configuration and mail call |
| EdgeFunction.LimitsEnforced | functions/api/contact.js:107-177 | every missing field gets its "required" entry (the booking type its single message), and every field over its limit gets an entry |
| ExpressServer.SanitizeInput | backend/server.js:46-51 | the result is always trimmed |
| ExpressServer.ReadField | backend/server.js:100-105 | a field the body lacks reads as a purified "", and every field read is trimmed |
| ExpressServer.ReadEnquiry | backend/server.js:100-105 | each of the four fields of the enquiry is the body's property of the same name, sanitised |
| ExpressServer.NonStringSanitizedAsEmpty | backend/server.js:47 | a missing or non-string field is sanitised exactly like "" |
| ExpressServer.BriefEntry | backend/server.js:127-129 | the brief gets no entry exactly when present and at most 500 characters; a missing brief is reported missing, a longer one too long |
| ExpressServer.BudgetEntry | backend/server.js:131-135 | the budget gets no entry exactly when present, at most 50 characters and one of the five options |
| ExpressServer.BudgetOptionsPass | backend/server.js:93-99 | each of the five budget options is trimmed, gets no entry, and holds no ASCII hyphen: the ranges are written with an en dash |
| ExpressServer.BudgetTooLongUnreachable | backend/server.js:110 | "Budget cannot exceed 50 characters." is never the final message: an over-long budget is reported as an invalid option |
| ExpressServer.ErrorMap | backend/server.js:137-139 | a field has a key exactly when it has an entry, and the map is empty exactly when no field has one |
| ExpressServer.EnquiryText | backend/server.js:107-134 | the text the enquiry endpoint sends for each message; none is empty |
| ExpressServer.EnquiryErrors | backend/server.js:107-135 | the enquiry's error map is empty exactly when all four fields are accepted |
| ExpressServer.HandleEnquiry | backend/server.js:57-190 | a missing body gets 429 "Captcha verification error."; otherwise a gate rejection is the answer, then invalid fields get 400 with the non-empty error map, then the relay decides (500 unconfigured, 502 failed send, 200); 200 exactly when every stage passes |
| ExpressServer.TokenCheckedFirst | backend/server.js:59-61 | without a token the answer is 400 "Captcha required.", whatever comes after |
| ExpressServer.FieldsCheckedBeforeRelay | backend/server.js:137-139 | past the gate, invalid fields are answered with 400 and the error map and the Mailgun call is never reached |
| ExpressServer.LimitsEnforced | backend/server.js:107-135 | every missing field is reported missing and every field over its limit gets an entry |
| ContactForm.ClientText | frontend/src/components/ContactForm.js:31-97 | the text `validateForm` records for each message; it is "" exactly for no error |
| ContactForm.EmailPatternMeaning | frontend/src/components/ContactForm.js:59 | the e-mail pattern holds exactly for text without white space, with exactly one `@` that is not first, and a dot after the `@` that is neither next to it nor last |
| ContactForm.EmailPattern | frontend/src/components/ContactForm.js:59 | `^[^\s@]+@[^\s@]+\.[^\s@]+$`: a local part, `@`, and two domain parts around a dot, none of them empty or holding white space or `@` |
| ContactForm.NameMessage | frontend/src/components/ContactForm.js:33-42 | an empty name gets "required", a raw name over 100 characters the 100-character message, and one whose trimmed, collapsed form is not a full name "invalid"; "" exactly when none of these applies |
| ContactForm.NumberMessage | frontend/src/components/ContactForm.js:44-52 | an empty number gets "required", one over 50 characters the 50-character message, and one that is not at least ten ASCII digits and nothing else the digits-only message; "" exactly when the number is 10 to 50 digits |
| ContactForm.EmailMessage | frontend/src/components/ContactForm.js:54-62 | an empty e-mail gets "required", one over 50 characters the 50-character message, and one not of the `x@y.z` shape "invalid"; "" exactly when none of these applies |
| ContactForm.TypeMessage | frontend/src/components/ContactForm.js:64-68 | "" exactly when the type is neither "" nor "Select option" |
| ContactForm.DateMessage | frontend/src/components/ContactForm.js:70-76 | an empty date gets "Please select a date." and one over 50 characters the 50-character message; "" exactly when the date is present and at most 50 characters |
| ContactForm.VenueMessage | frontend/src/components/ContactForm.js:78-87 | a venue that is empty or all white space gets "required", otherwise a raw value over 100 characters the 100-character message, and a trimmed, collapsed value that is not a venue "invalid"; "" exactly when none of these applies |
| ContactForm.DetailsMessage | frontend/src/components/ContactForm.js:89-97 | empty details get "required", details over 200 characters the 200-character message, and details with a character other than letters, digits, white space, `'`, `!` and `-` "invalid"; "" exactly when none of these applies |
| ContactForm.IsDetailsChar | frontend/src/components/ContactForm.js:94 | the class `[\p{L}\d\s'!\-]`: a letter, an ASCII digit, white space, an apostrophe, `!` or `-` |
| ContactForm.FieldMessage | frontend/src/components/ContactForm.js:30-98 | the message for a field is "" exactly when the field's rule accepts the value |
| ContactForm.ValidateForm | frontend/src/components/ContactForm.js:30-100 | the named field's entry is replaced, "" exactly when its value is acceptable, and every other entry stays as it was |
| CrossCheck.SpacedDigitsSplitVerdicts | frontend/src/components/ContactForm.js:49 | a number written as three digit groups separated by single spaces, with 10 to 48 digits in all, is refused by the browser and reaches the booking endpoint unchanged and accepted |
| CrossCheck.PhonePlaceholderSplitsVerdicts | frontend/src/components/ContactForm.js:190 | the phone placeholder is refused by the browser and accepted by the booking endpoint |
| CrossCheck.ClientNumberAcceptedByEdge | functions/api/contact.js:133-138 | every number the browser accepts reaches the booking endpoint unchanged and is accepted there |
| CrossCheck.NameVerdictsAgree | frontend/src/components/ContactForm.js:33-42 | for a name of at most 100 characters with nothing for sanitising to remove, the browser and the booking endpoint reach the same verdict |
| CrossCheck.ForeignCharacterRefusedByBrowser | frontend/src/components/ContactForm.js:78-87 | the browser refuses any venue holding a non-white-space ASCII character the venue rule does not allow, with the 100-character message when the raw value is too long and "invalid" otherwise |
| CrossCheck.StrayCharacterRejected | functions/api/contact.js:163-171 | when sanitising also keeps that character (not a control character or angle bracket), the booking endpoint refuses the venue too, with "Invalid venue." |
| CrossCheck.AngleBracketSplitsVerdicts | functions/api/contact.js:8 | a venue of two letters around `<` is refused by the browser, while the booking endpoint removes the bracket and accepts the two letters |
| CrossCheck.LineBreakSplitsVerdicts | frontend/src/components/ContactForm.js:78-87 | a line feed or carriage return between two letters is accepted by the browser, which collapses it to a space, and refused by the booking endpoint, whose sanitising keeps it and whose venue rule allows no white space other than a single plain space |
| CrossCheck.VenuePlaceholderRejected | frontend/src/components/ContactForm.js:249 | the venue placeholder is refused by the browser with the invalid-venue message and by the booking endpoint with "Invalid venue." |
| CrossCheck.CommaSpaceRejected | functions/api/contact.js:166 | a comma followed by a space rules out a venue |
| CrossCheck.DoubledSpaceSplitsVerdicts | frontend/src/components/ContactForm.js:79 | a venue of two letters separated by two spaces passes in the browser, which collapses, and fails at the booking endpoint, which does not |
| CrossCheck.DoubleBarrelledName | functions/api/contact.js:125 | a double-barrelled first name and a surname with an apostrophe, as in "Jean-Pierre O'Neil", make a full name |
| CrossCheck.AtSignName | functions/api/contact.js:125 | "J@ne" is not a full name |

## Left out

- Network calls are not modelled: the reCAPTCHA `siteverify` request (secret, remote IP) and the Mailgun request or `mailgun.js` client. Their outcomes are inputs: `Verification`, `FetchOutcome` and `SendOutcome`.
- `parseFloat(RECAPTCHA_MIN_SCORE)` is not modelled. The parsed threshold is an input `JsNumber`, which can be NaN.
- Composing the mail is not modelled: subject, text and HTML bodies, `validator.escape` and `FROM_EMAIL`. None of it affects the response.
- Response and Express plumbing is not modelled: `json`/`Response` construction, headers, `express.json`, helmet, the static files and the catch-all route. When `express.json` rejects a malformed body, Express answers before the route runs, so that case is not modelled. A missing body is `NullBody`.
- Library predicates are not defined: `\p{L}`, `validator.isEmail`, `validator.isISO8601` and DOMPurify are parameters. `validator.stripLow` and `validator.isLength` are given their documented definitions.
- Lengths count Unicode scalar values, whereas JavaScript's `length` counts UTF-16 code units. The two agree on text within the Basic Multilingual Plane.
- `onlyDigits(undefined)` is not modelled: `OnlyDigits` takes a string, because the booking endpoint only calls it on a sanitised string. The enquiry server defines `onlyDigits` but never calls it.
- ContactForm.ValidateForm: takes one of the seven booking field names. `validateForm` records "" for any other name, which the form never passes.
- The rest of ContactForm.js is UI state and asynchronous code: `handleChange`, `handleSubmit`, `handleClear` and rendering. DotGridBackground.js and LogoCursor.js (floating-point animation) and the remaining components are markup.
- CrossCheck.NameVerdictsAgree: covers names of at most 100 characters with no control characters or angle brackets. Beyond that the browser judges the raw length and the endpoint the sanitised one, so they can disagree.
- CrossCheck.DoubleBarrelledName: is stated for any such four words, not for the literal "Jean-Pierre O'Neil".
- CrossCheck.DoubledSpaceSplitsVerdicts: is stated for two ASCII letters around the doubled space, not for every venue.
- CrossCheck.SpacedDigitsSplitVerdicts: is stated for three digit groups holding 10 to 48 digits in all, not for any number of groups.
- CrossCheck.AngleBracketSplitsVerdicts: is stated for two ASCII letters around `<`, not for every venue holding an angle bracket.
- CrossCheck.LineBreakSplitsVerdicts: is stated for one line feed or carriage return between two ASCII letters, not for every venue holding a line break.
