/** The Express error-handling middleware (backend/middleware/errorHandler.js):
    the mapping from a thrown error to the status and message of the reply. */
module ErrorHandler {
  import opened Common
  import opened Text

  /** The `code` property of an error: absent, a number (MongoDB) or a string
      (Multer). */
  datatype Code = NoCode | Numeric(n: int) | Named(s: string)

  /** The properties of a thrown error that the handler looks at. `statusCode`
      0 stands for an absent status code, `keyValue` lists the keys of a
      duplicate-key error in order, `fieldMessages` the messages of the fields
      of a validation error in order. */
  datatype Error = Error(
    name: string,
    code: Code,
    keyValue: seq<string>,
    fieldMessages: seq<string>,
    statusCode: nat,
    message: string)

  const DuplicateKeyCode: int := 11000

  /** Errors the model raises, built the way Mongoose builds them. */
  function DuplicateKey(keys: seq<string>): Error {
    Error("MongoServerError", Numeric(DuplicateKeyCode), keys, [], 0, "E11000 duplicate key error")
  }

  function ValidationFailure(messages: seq<string>): Error {
    Error("ValidationError", NoCode, [], messages, 0, "Validation failed")
  }

  /** A `TypeError` from reading a property of `null`, with the runtime's
      message. */
  function NullDereference(property: string): Error {
    Error("TypeError", NoCode, [], [], 0, NullMessage(property))
  }

  function NullMessage(property: string): string {
    "Cannot read properties of null (reading '" + property + "')"
  }

  /** `Object.keys(err.keyValue)[0]`, which is `undefined` for an empty object. */
  function FirstKey(keys: seq<string>): string {
    if keys == [] then "undefined" else keys[0]
  }

  function JoinMessages(ms: seq<string>): (r: string)
    ensures |ms| == 1 ==> r == ms[0]
  {
    if ms == [] then ""
    else if |ms| == 1 then ms[0]
    else ms[0] + ", " + JoinMessages(ms[1..])
  }

  function MulterMessage(code: Code): string {
    if code == Named("LIMIT_FILE_SIZE") then "File size too large"
    else if code == Named("LIMIT_FILE_COUNT") then "Too many files"
    else if code == Named("LIMIT_UNEXPECTED_FILE") then "Unexpected file field"
    else "File upload error"
  }

  /** The status and message the handler picks before the defaults apply: each
      test overrides the previous ones, so the LAST matching test wins. A status
      of 0 and an empty message stand for absent values. */
  function Classify(err: Error): (nat, string) {
    var r0 := (err.statusCode, err.message);
    var r1 := if err.name == "CastError" then (404, "Resource not found") else r0;
    var r2 := if err.code == Numeric(DuplicateKeyCode) then (400, FirstKey(err.keyValue) + " already exists") else r1;
    var r3 := if err.name == "ValidationError" then (400, JoinMessages(err.fieldMessages)) else r2;
    var r4 := if err.name == "JsonWebTokenError" then (401, "Invalid token") else r3;
    var r5 := if err.name == "TokenExpiredError" then (401, "Token expired") else r4;
    var r6 := if err.name == "MulterError" then (400, MulterMessage(err.code)) else r5;
    r6
  }

  /** The reply `errorHandler` sends: an absent status becomes 500 and an
      absent message "Server Error". */
  function Handle(err: Error): (r: Reply)
    ensures r.status != 0 && r.message != ""
  {
    var (statusCode, message) := Classify(err);
    Reply(if statusCode == 0 then 500 else statusCode,
          if message == "" then "Server Error" else message)
  }

  /** The reply of the catch-all route. */
  function NotFound(originalUrl: string): (r: Reply)
    ensures r.status == 404
    ensures Contains(r.message, originalUrl)
  {
    var m := "Route " + originalUrl + " not found";
    assert OccursAt(m, originalUrl, 6);
    Reply(404, m)
  }

  // ---------------------------------------------------------------------------
  // Facts about the mapping.

  /** Reading a property of `null` in a handler is a server error that carries
      the runtime's own message. */
  lemma NullDereferenceIsServerError(property: string)
    ensures Handle(NullDereference(property)) == Reply(500, NullMessage(property))
  {
    UnrecognisedKeepsOwn(NullDereference(property));
  }

  /** An error none of the tests recognise keeps its own status (or 500) and
      its own message (or "Server Error"). */
  lemma UnrecognisedKeepsOwn(err: Error)
    requires err.name !in ["CastError", "ValidationError", "JsonWebTokenError", "TokenExpiredError", "MulterError"]
    requires err.code != Numeric(DuplicateKeyCode)
    ensures Handle(err).status == if err.statusCode == 0 then 500 else err.statusCode
    ensures Handle(err).message == if err.message == "" then "Server Error" else err.message
  {
  }

  lemma CastErrorIsNotFound(err: Error)
    requires err.name == "CastError" && err.code != Numeric(DuplicateKeyCode)
    ensures Handle(err) == Reply(404, "Resource not found")
  {
  }

  /** A duplicate key names its first key; with no keys, "undefined". */
  lemma DuplicateKeyNamesField(keys: seq<string>)
    ensures Handle(DuplicateKey(keys)).status == 400
    ensures keys != [] ==> Handle(DuplicateKey(keys)).message == keys[0] + " already exists"
    ensures keys == [] ==> Handle(DuplicateKey(keys)).message == "undefined already exists"
  {
    if keys == [] {
      assert "undefined" + " already exists" == "undefined already exists";
    }
  }

  /** A validation error joins its messages with ", " in order; with a single
      message the reply carries just that message. */
  lemma ValidationJoinsMessages(ms: seq<string>)
    requires ms != [] && ms[0] != ""
    ensures Handle(ValidationFailure(ms)).status == 400
    ensures Handle(ValidationFailure(ms)).message == JoinMessages(ms)
    ensures |ms| == 1 ==> Handle(ValidationFailure(ms)).message == ms[0]
  {
    JoinPrefix(ms);
    ValidationClassified(ms);
  }

  /** The name "ValidationError" passes no later test. */
  lemma ValidationClassified(ms: seq<string>)
    ensures Classify(ValidationFailure(ms)) == (400, JoinMessages(ms))
  {
    var name := ValidationFailure(ms).name;
    assert |name| == 15;
    assert name != "JsonWebTokenError" && name != "TokenExpiredError" && name != "MulterError";
  }

  lemma {:induction false} JoinPrefix(ms: seq<string>)
    requires ms != []
    ensures |JoinMessages(ms)| >= |ms[0]| && JoinMessages(ms)[..|ms[0]|] == ms[0]
  {
    if |ms| > 1 {
      var r := ms[0] + ", " + JoinMessages(ms[1..]);
      assert r[..|ms[0]|] == ms[0];
    }
  }

  /** A name test later in the chain overrides a duplicate-key code: an error
      with code 11000 that is also named "ValidationError" gets the validation
      message, not the duplicate-key one. */
  lemma LaterTestWins(keys: seq<string>, ms: seq<string>)
    requires ms != [] && ms[0] != ""
    ensures Handle(Error("ValidationError", Numeric(DuplicateKeyCode), keys, ms, 0, "")).message == JoinMessages(ms)
  {
    JoinPrefix(ms);
  }

  lemma JwtErrors(err: Error)
    requires err.name == "JsonWebTokenError" || err.name == "TokenExpiredError"
    ensures Handle(err).status == 401
    ensures Handle(err).message == if err.name == "JsonWebTokenError" then "Invalid token" else "Token expired"
  {
  }

  lemma MulterErrors(err: Error)
    requires err.name == "MulterError"
    ensures Handle(err).status == 400
    ensures err.code == Named("LIMIT_FILE_SIZE") ==> Handle(err).message == "File size too large"
    ensures err.code !in [Named("LIMIT_FILE_SIZE"), Named("LIMIT_FILE_COUNT"), Named("LIMIT_UNEXPECTED_FILE")]
            ==> Handle(err).message == "File upload error"
  {
  }
}
