/** The response helpers of the generated project: the body each helper
    builds and the HTTP status it sets. Express is outside the model; a
    reply is the status passed to `res.status` together with the object
    passed to `json`. */
module ApiResponse {
  import opened Wrappers

  datatype Status = Succeeded | Errored {
    /** The text the body carries. */
    function Text(): string {
      match this
      case Succeeded => "success"
      case Errored => "error"
    }
  }

  /** A response body. An absent optional field is `None`; JSON output
      leaves such fields out. */
  datatype Body<T> = Body(status: Status, code: int, message: Option<string>, data: Option<T>)

  /** What a helper hands to Express: `res.status(httpStatus).json(body)`. */
  datatype Reply<T> = Reply(httpStatus: int, body: Body<T>)

  /** The message a success body falls back to. */
  const DefaultMessage := "success"

  /** `successResponse`: status `success`, the code and data unchanged,
      and the message, or `success` when the message is absent or empty. */
  function SuccessResponse<T>(code: int, message: Option<string>, data: Option<T>): (r: Reply<T>)
    ensures r.httpStatus == code && r.body.code == code
    ensures r.body.status == Succeeded && r.body.status.Text() == "success"
    ensures r.body.data == data
    ensures message.Some? && message.value != "" ==> r.body.message == message
    ensures message.None? || message == Some("") ==> r.body.message == Some(DefaultMessage)
  {
    var text := if message.Some? && message.value != "" then message.value else DefaultMessage;
    Reply(code, Body(Succeeded, code, Some(text), data))
  }

  /** `errorResponse`: status `error`, the code and the message, and no
      data field. */
  function ErrorResponse<T>(code: int, message: string): (r: Reply<T>)
    ensures r.httpStatus == code && r.body.code == code
    ensures r.body.status == Errored && r.body.status.Text() == "error"
    ensures r.body.message == Some(message)
    ensures r.body.data.None?
  {
    Reply(code, Body(Errored, code, Some(message), None))
  }

  /** The shape every reply the helpers build has: the HTTP status is the
      body's code, a message is always present, a success message is never
      empty, and an error carries no data. */
  predicate WellFormed<T>(r: Reply<T>) {
    && r.httpStatus == r.body.code
    && r.body.message.Some?
    && (r.body.status == Succeeded ==> r.body.message.value != "")
    && (r.body.status == Errored ==> r.body.data.None?)
  }

  lemma HelpersWellFormed<T>(code: int, message: Option<string>, data: Option<T>, error: string)
    ensures WellFormed(SuccessResponse(code, message, data))
    ensures WellFormed(ErrorResponse<T>(code, error))
  {
  }

  /** A success reply gives back what it was built from: the code, the
      data, and the message whenever one was given. */
  lemma SuccessRecoverable<T>(c1: int, m1: Option<string>, d1: Option<T>, c2: int, m2: Option<string>, d2: Option<T>)
    requires SuccessResponse(c1, m1, d1) == SuccessResponse(c2, m2, d2)
    ensures c1 == c2 && d1 == d2
    ensures m1.Some? && m1.value != "" && m2.Some? && m2.value != "" ==> m1 == m2
  {
  }

  /** An error reply gives back its code and message. */
  lemma ErrorRecoverable<T>(c1: int, m1: string, c2: int, m2: string)
    requires ErrorResponse<T>(c1, m1) == ErrorResponse<T>(c2, m2)
    ensures c1 == c2 && m1 == m2
  {
  }

  /** The two helpers never build the same reply. */
  lemma SuccessIsNotError<T>(code: int, message: Option<string>, data: Option<T>, c: int, m: string)
    ensures SuccessResponse(code, message, data) != ErrorResponse<T>(c, m)
  {
  }
}
