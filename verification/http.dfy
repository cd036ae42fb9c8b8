/** Request bodies and responses of the contact endpoints, as JSON-shaped values. */
module Http {

  /** A property of a parsed JSON body: a string, or anything else (a number, `null`,
      an object, or the property being absent). Only strings survive sanitising. */
  datatype JsValue = JsString(s: string) | NotAString

  /** A parsed body. `NullBody` is a body on which property access throws: JSON `null`
      in the edge function, an unparsed (`undefined`) body in the Express server.
      Every other JSON value is an `Object`; a primitive has no fields. */
  datatype Body = NullBody | Object(fields: map<string, JsValue>)

  /** The edge function parses the body itself, and can fail to. */
  datatype Request = Unparsable | Parsed(body: Body)

  function Field(fields: map<string, JsValue>, key: string): JsValue {
    if key in fields then fields[key] else NotAString
  }

  /** `{ success, message }` or `{ success: false, errors }`. `F` names the form's fields,
      the keys of the `errors` object, and `M` its messages; each form's module gives
      the text of every message. */
  datatype Reply<F, M> = Notice(success: bool, message: string) | FieldErrors(errors: map<F, M>)

  datatype Response<F, M> = Response(status: int, reply: Reply<F, M>)

  function Failure<F, M>(status: int, message: string): Response<F, M> {
    Response(status, Notice(false, message))
  }

  function Submitted<F, M>(): Response<F, M> {
    Response(200, Notice(true, "Form submitted successfully."))
  }
}
