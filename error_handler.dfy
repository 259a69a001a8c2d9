/**
 * The Express error handler of backend/src/middlewares/errorHandler.js:
 * it turns an error that reached `next(err)` into a status code and a
 * message, looking at the error's MongoDB `code`, its Mongoose `name`, and
 * finally its own `statusCode` and `message`.
 */
module ErrorHandler {
  import opened Wrappers
  import opened Text

  /** The parts of a thrown error the handler reads: `code`, `name`, the
      keys of `keyValue` (absent when the error has none), the messages of
      the sub-errors of `errors`, `statusCode` and `message`. */
  datatype ServerError = ServerError(
    code: Option<int>,
    name: string,
    keyValueFields: Option<seq<string>>,
    subMessages: seq<string>,
    statusCode: Option<int>,
    message: string)

  /** The JSON reply `{ success: false, message }` with its status. */
  datatype ErrorReply = ErrorReply(status: int, message: string)

  /** `field.charAt(0).toUpperCase() + field.slice(1)`. */
  function Capitalize(field: string): (r: string)
    ensures |r| == |field|
    ensures field != [] ==> r[0] == UpperChar(field[0]) && r[1..] == field[1..]
  {
    if field == [] then [] else [UpperChar(field[0])] + field[1..]
  }

  const DuplicateCode := 11000

  /** The intermediate `error` object after the three rewriting steps:
      `None` when the duplicate-key step throws because the error has no
      key to name (`Object.keys(...)[0]` is `undefined`, or `keyValue` is
      missing), otherwise its status code and message, either possibly
      absent. */
  function Rewritten(e: ServerError): Option<(Option<int>, string)> {
    var afterDuplicate :=
      if e.code == Some(DuplicateCode) then
        if e.keyValueFields.None? || e.keyValueFields.value == [] then None
        else Some((Some(400), Capitalize(e.keyValueFields.value[0]) + " already exists"))
      else Some((e.statusCode, e.message));
    if afterDuplicate.None? then None
    else if e.name == "CastError" then Some((Some(404), "Resource not found"))
    else if e.name == "ValidationError" then Some((Some(400), JoinWith(e.subMessages, ", ")))
    else afterDuplicate
  }

  /** The reply: `error.statusCode || 500` and `error.message || 'Server
      Error'`. `None` when the handler itself throws. */
  function Handle(e: ServerError): (r: Option<ErrorReply>)
    ensures r.Some? ==> r.value.message != []
    ensures r.Some? ==> r.value.status != 0
  {
    match Rewritten(e)
    case None => None
    case Some((status, message)) =>
      Some(ErrorReply(
        if status.Some? && status.value != 0 then status.value else 500,
        if message != [] then message else "Server Error"))
  }

  /** The handler fails on a duplicate-key error with no key, and only
      there. */
  lemma HandleFailsOnlyWithoutKey(e: ServerError)
    ensures Handle(e).None? <==>
            e.code == Some(DuplicateCode) && (e.keyValueFields.None? || e.keyValueFields.value == [])
  {
  }

  /** A duplicate-key error names its first key, capitalised: a second
      user with the same email gets "Email already exists". */
  lemma DuplicateKeyReply(e: ServerError, field: string, rest: seq<string>)
    requires e.code == Some(DuplicateCode) && e.keyValueFields == Some([field] + rest)
    requires e.name != "CastError" && e.name != "ValidationError"
    ensures Handle(e) == Some(ErrorReply(400, Capitalize(field) + " already exists"))
  {
    assert Capitalize(field) + " already exists" != [];
  }

  lemma EmailAlreadyExists(e: ServerError)
    requires e == ServerError(Some(DuplicateCode), "MongoServerError", Some(["email"]), [], None, "E11000")
    ensures Handle(e) == Some(ErrorReply(400, "Email already exists"))
  {
    var none: seq<string> := [];
    assert ["email"] + none == ["email"];
    DuplicateKeyReply(e, "email", none);
    EmailCapitalized();
  }

  lemma EmailCapitalized()
    ensures Capitalize("email") + " already exists" == "Email already exists"
  {
    var c := Capitalize("email");
    assert c[0] == 'E';
    assert c == [c[0]] + c[1..];
    assert c == "Email";
  }

  /** A validation error answers 400 with the sub-error messages joined by
      ", ", or "Server Error" when there are none (or one empty one). */
  lemma ValidationReply(e: ServerError)
    requires e.name == "ValidationError"
    requires e.code != Some(DuplicateCode)
    ensures Handle(e).Some? && Handle(e).value.status == 400
    ensures e.subMessages != [] && e.subMessages != [[]] ==>
              Handle(e).value.message == JoinWith(e.subMessages, ", ")
    ensures e.subMessages == [] || e.subMessages == [[]] ==>
              Handle(e).value.message == "Server Error"
  {
    JoinWithEmpty(e.subMessages, ", ");
  }

  /** A cast error (a malformed id) answers 404 whatever else it carries,
      as long as the duplicate-key step did not throw first. */
  lemma CastReply(e: ServerError)
    requires e.name == "CastError"
    requires e.code != Some(DuplicateCode)
    ensures Handle(e) == Some(ErrorReply(404, "Resource not found"))
  {
  }

  /** Any other error keeps a non-zero `statusCode` of its own and its own
      non-empty message, and falls back to 500 and "Server Error". */
  lemma OtherReply(e: ServerError)
    requires e.code != Some(DuplicateCode)
    requires e.name != "CastError" && e.name != "ValidationError"
    ensures Handle(e).Some?
    ensures Handle(e).value.status == if e.statusCode.Some? && e.statusCode.value != 0 then e.statusCode.value else 500
    ensures Handle(e).value.message == if e.message != [] then e.message else "Server Error"
  {
  }
}
