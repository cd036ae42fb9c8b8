/** Library code that the handlers call but that this model does not define. Each
    operation is passed in as a function value, so every result proved here holds for
    whatever the library actually computes. */
module Foreign {
  import opened JsText

  datatype Lib = Lib(
    /** membership of a code point in the Unicode class `\p{L}` */
    isLetter: char -> bool,
    /** `validator.isEmail` with its default options */
    isEmail: string -> bool,
    /** `validator.isISO8601(_, { strict: true })` */
    isIsoDate: string -> bool,
    /** `DOMPurify.sanitize(_, { USE_PROFILES: { html: false } })` */
    purify: string -> string)

  /** What `\p{L}` says about ASCII: exactly the 52 Latin letters are letters. Concrete
      examples need this much about the letter class and nothing more. */
  predicate AsciiLetters(isLetter: char -> bool) {
    forall c: char | c < '\U{80}' :: isLetter(c) <==> IsAsciiLetter(c)
  }
}
