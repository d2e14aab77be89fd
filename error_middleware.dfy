/**
 * middleware/errormiddleware.js: the last handler of the application.  It
 * picks the reply's status from the error and the response, strips one
 * "Error: " prefix from the error's message (the prefix every controller's
 * `${error}` re-throw adds) and replies `{ Message }`.
 */
module ErrorMiddleware {
  import opened Wrappers
  import opened JsErrors
  import opened JsStrings

  /** The prefix `${error}` puts in front of an `Error`'s message. */
  const Prefix: string := "Error: "
  /** The status an Express response carries until a handler sets one. */
  const ExpressDefaultStatus: int := 200

  /** The reply: a status and a JSON body whose single key is `Message`. */
  datatype ErrorReply = ErrorReply(status: int, Message: string)

  /** The status selection as written: a truthy `err.statusCode`, else a truthy
      `res.statusCode`, else 500. */
  function SelectStatusAsWritten(errStatus: Option<int>, resStatus: Option<int>): (s: int)
    ensures s != 0
    ensures Truthy(errStatus) ==> s == errStatus.value
    ensures !Truthy(errStatus) ==> s == (if Truthy(resStatus) then resStatus.value else 500)
  {
    if Truthy(errStatus) || Truthy(resStatus) then
      if Truthy(errStatus) then errStatus.value else resStatus.value
    else
      500
  }

  /** An error thrown with no status code reaches a response that still holds
      Express's default 200, so the client is told the request succeeded. */
  lemma StatusAsWrittenAnswersSuccess(errStatus: Option<int>)
    requires !Truthy(errStatus)
    ensures SelectStatusAsWritten(errStatus, Some(ExpressDefaultStatus)) == 200
  {
  }

  /** The status selection with the untouched default treated as unset: an
      error without a status code is a server error. */
  function SelectStatus(errStatus: Option<int>, resStatus: Option<int>): (s: int)
    ensures s != 0
    ensures Truthy(errStatus) ==> s == errStatus.value
    ensures !Truthy(errStatus) ==> s != ExpressDefaultStatus
    ensures !Truthy(errStatus) && (resStatus.None? || resStatus == Some(ExpressDefaultStatus)) ==> s == 500
  {
    if Truthy(errStatus) then errStatus.value
    else if Truthy(resStatus) && resStatus.value != ExpressDefaultStatus then resStatus.value
    else 500
  }

  /** The two selections differ exactly where the error has no status and the
      response still holds the default. */
  lemma SelectStatusDiffersOnlyOnDefault(errStatus: Option<int>, resStatus: Option<int>)
    ensures SelectStatus(errStatus, resStatus) != SelectStatusAsWritten(errStatus, resStatus)
        <==> !Truthy(errStatus) && resStatus == Some(ExpressDefaultStatus)
  {
  }

  /** The reply's message: one "Error: " prefix removed; an empty message
      replaced by a fixed text that depends on NODE_ENV. */
  function NormaliseMessage(message: string, nodeEnv: Option<string>): (m: string)
    ensures message != "" ==> |message| - |m| in {0, |Prefix|} && m == message[|message| - |m|..]
    ensures message == "" ==> m == (if nodeEnv == Some("Production") then "Server Error" else "Something went wrong")
  {
    if message != "" then
      if StartsWith(message, Prefix) then message[|Prefix|..] else message
    else if nodeEnv == Some("Production") then "Server Error"
    else "Something went wrong"
  }

  /** Normalisation undoes exactly one added prefix, whatever the message. */
  lemma PrefixRoundTrip(m: string, nodeEnv: Option<string>)
    ensures NormaliseMessage(Prefix + m, nodeEnv) == m
  {
    assert (Prefix + m)[..|Prefix|] == Prefix;
  }

  /** Only one prefix goes: a doubly wrapped message keeps the inner one. */
  lemma StripsOnce(m: string, nodeEnv: Option<string>)
    ensures NormaliseMessage(Prefix + (Prefix + m), nodeEnv) == Prefix + m
  {
    PrefixRoundTrip(Prefix + m, nodeEnv);
  }

  /** A message without the prefix passes through unchanged. */
  lemma UnprefixedPassesThrough(m: string, nodeEnv: Option<string>)
    requires m != "" && !StartsWith(m, Prefix)
    ensures NormaliseMessage(m, nodeEnv) == m
  {
  }

  /** The whole handler as written: status and message for an error, given
      the status already on the response and NODE_ENV. */
  function Handle(err: Exn, resStatus: Option<int>, nodeEnv: Option<string>): (r: ErrorReply)
    ensures r.status != 0
    ensures Truthy(err.statusCode) ==> r.status == err.statusCode.value
    ensures !Truthy(err.statusCode) && Truthy(resStatus) ==> r.status == resStatus.value
    ensures !Truthy(err.statusCode) && !Truthy(resStatus) ==> r.status == 500
    ensures r.Message == NormaliseMessage(err.message, nodeEnv)
  {
    ErrorReply(SelectStatusAsWritten(err.statusCode, resStatus), NormaliseMessage(err.message, nodeEnv))
  }

  /** The handler with the corrected status selection. */
  function HandleIntended(err: Exn, resStatus: Option<int>, nodeEnv: Option<string>): (r: ErrorReply)
    ensures r.status != 0
    ensures Truthy(err.statusCode) ==> r.status == err.statusCode.value
    ensures !Truthy(err.statusCode) ==> r.status != ExpressDefaultStatus
    ensures r.Message == NormaliseMessage(err.message, nodeEnv)
  {
    ErrorReply(SelectStatus(err.statusCode, resStatus), NormaliseMessage(err.message, nodeEnv))
  }

  /** A runtime error re-thrown by a catch without a 500 fallback reaches a
      response still at Express's default: as written the client is told the
      request succeeded; the corrected handler answers 500.  The message is
      the same for both. */
  lemma StatuslessErrorAnswersSuccess(e: Exn, nodeEnv: Option<string>)
    requires !Truthy(e.statusCode)
    ensures Handle(Rewrap(e, false), Some(ExpressDefaultStatus), nodeEnv).status == 200
    ensures HandleIntended(Rewrap(e, false), Some(ExpressDefaultStatus), nodeEnv).status == 500
    ensures Handle(Rewrap(e, false), Some(ExpressDefaultStatus), nodeEnv).Message
         == HandleIntended(Rewrap(e, false), Some(ExpressDefaultStatus), nodeEnv).Message
  {
  }

  /** What a controller throws reaches the client as it threw it: an error
      raised with a message and a status, re-thrown by either kind of `catch`,
      is answered with that very status and message. */
  lemma RaisedErrorReachesClient(m: string, status: int, orServerError: bool,
                                 resStatus: Option<int>, nodeEnv: Option<string>)
    requires m != "" && status != 0
    ensures Handle(Rewrap(Raise(m, status), orServerError), resStatus, nodeEnv) == ErrorReply(status, m)
    ensures HandleIntended(Rewrap(Raise(m, status), orServerError), resStatus, nodeEnv) == ErrorReply(status, m)
  {
    assert ToText(Raise(m, status)) == Prefix + m;
    PrefixRoundTrip(m, nodeEnv);
  }

  /** A runtime error (a TypeError, a failed validation) keeps its name in the
      message the client sees, and is answered as a server error once
      re-thrown by a `catch` that adds `|| 500`. */
  lemma RuntimeErrorReachesClient(name: string, m: string, orServerError: bool,
                                  resStatus: Option<int>, nodeEnv: Option<string>)
    requires name != "" && m != "" && !StartsWith(name + ": " + m, Prefix)
    ensures Handle(Rewrap(RuntimeError(name, m), orServerError), resStatus, nodeEnv).Message == name + ": " + m
    ensures orServerError ==> Handle(Rewrap(RuntimeError(name, m), orServerError), resStatus, nodeEnv).status == 500
  {
  }
}
