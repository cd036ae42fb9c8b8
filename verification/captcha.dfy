/** The reCAPTCHA gate that both handlers run before looking at the form fields. The
    call to the verification service is not modelled: its result is an input. */
module Captcha {
  import opened Wrappers
  import opened Http

  /** A JavaScript number. */
  datatype JsNumber = NaN | PosInfinity | NegInfinity | Finite(value: real)

  /** JavaScript's `a < b` on numbers: false whenever either side is NaN. */
  predicate Below(a: JsNumber, b: JsNumber) {
    if a.NaN? || b.NaN? || a == b then false
    else if a.NegInfinity? || b.PosInfinity? then true
    else if a.PosInfinity? || b.NegInfinity? then false
    else a.value < b.value
  }

  /** What the verification step produced. `VerifyError` stands for anything thrown while
      calling the service or parsing its reply. Otherwise: whether `success` was truthy,
      the reported `action` ("" when absent or falsy) and the `score` when it is of type
      number (NaN included). */
  datatype Verification =
    | VerifyError
    | Verdict(success: bool, action: string, score: Option<JsNumber>)

  /** The provider vouches for the submission: it reported success, its action does not
      contradict the declared one, and it reported no numeric score below the threshold. */
  predicate Vouches(v: Verification, action: string, minScore: JsNumber) {
    && v.Verdict?
    && v.success
    && (v.action == "" || action == "" || v.action == action)
    && !(v.score.Some? && Below(v.score.value, minScore))
  }

  /** The gate: `None` lets the request through, `Some(r)` answers it with `r`. `token`
      and `action` are the sanitised `captchaToken` and `captchaAction`; `minScore` is
      `parseFloat(RECAPTCHA_MIN_SCORE)`. */
  function Gate<F, M>(token: string, action: string, v: Verification, minScore: JsNumber): (rejection: Option<Response<F, M>>)
    ensures rejection.None? <==> token != "" && Vouches(v, action, minScore)
    ensures token == "" ==> rejection == Some(Failure(400, "Captcha required."))
    ensures rejection.Some? ==> rejection.value.reply.Notice?
    ensures token != "" && rejection.Some? ==> rejection.value.status == 429
    ensures token != "" && v.VerifyError? ==> rejection == Some(Failure(429, "Captcha verification error."))
    ensures token != "" && v.Verdict? && !v.success ==> rejection == Some(Failure(429, "Captcha verification failed."))
    ensures token != "" && v.Verdict? && v.success && v.action != "" && action != "" && v.action != action
            ==> rejection == Some(Failure(429, "Captcha action mismatch."))
  {
    if token == "" then Some(Failure(400, "Captcha required."))
    else match v
      case VerifyError => Some(Failure(429, "Captcha verification error."))
      case Verdict(success, reported, score) =>
        if !success then Some(Failure(429, "Captcha verification failed."))
        else if reported != "" && action != "" && reported != action then Some(Failure(429, "Captcha action mismatch."))
        else if score.Some? && Below(score.value, minScore) then Some(Failure(429, "Captcha score too low."))
        else None
  }

  /** With an unset or non-numeric threshold (`parseFloat` gives NaN) the score is never
      held against the submission: the gate decides as if no score had been reported. */
  lemma NaNThresholdIgnoresScore<F, M>(token: string, action: string, success: bool, reported: string, score: Option<JsNumber>)
    ensures Gate<F, M>(token, action, Verdict(success, reported, score), NaN)
         == Gate<F, M>(token, action, Verdict(success, reported, None), NaN)
  {
  }

  /** A score rejects exactly when it is a number strictly below the threshold. */
  lemma ScoreRejection<F, M>(token: string, action: string, reported: string, score: JsNumber, minScore: JsNumber)
    requires token != ""
    requires reported == "" || action == "" || reported == action
    ensures Gate<F, M>(token, action, Verdict(true, reported, Some(score)), minScore).Some?
        <==> Below(score, minScore)
    ensures Below(score, minScore)
        ==> Gate<F, M>(token, action, Verdict(true, reported, Some(score)), minScore) == Some(Failure(429, "Captcha score too low."))
  {
  }
}
