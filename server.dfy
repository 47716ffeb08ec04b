/**
 * The `onPreResponse` extension of src/server.js: an error on its way out becomes
 * a `fail` envelope with a status code chosen by the error's kind; any other
 * response goes on unchanged. Starting the server is not part of this model.
 */
module Server {
  import opened Wrappers
  import opened Exceptions
  import opened ParkingSchema
  import opened ParkingService
  import opened ParkingValidator
  import opened Toolkit

  /** `request.response` when the hook runs: an Error, or a response object. */
  datatype PreResponse = ErrorResponse(error: ErrorObj) | PlainResponse(response: Response)

  /** What the hook returns: `h.continue`, or a new response that replaces the old one. */
  datatype HookResult = Continue | Takeover(response: Response)

  /** The message and status code the hook answers an error with. */
  datatype ErrorReply = ErrorReply(message: string, code: int)

  const BadRequestCode := 400
  const NotFoundCode := 404

  /** `message ? message : fallback`: the empty string is falsy. */
  function MessageOr(message: string, fallback: string): (m: string)
    ensures message != "" ==> m == message
    ensures message == "" ==> m == fallback
  {
    if message != "" then message else fallback
  }

  /**
   * The reply for an error, decided by the hook's tests in their order:
   * InvariantError first, then NotFoundError, then any other error.
   */
  function ErrorReplyFor(e: ErrorObj): (r: ErrorReply)
    ensures r.message != ""
    ensures e.message != "" ==> r.message == e.message
    ensures e.isInvariantError ==> r.code == BadRequestCode && (e.message == "" ==> r.message == "Bad request")
    ensures !e.isInvariantError && e.isNotFoundError ==>
              r.code == NotFoundCode && (e.message == "" ==> r.message == "Not found")
    ensures !e.isInvariantError && !e.isNotFoundError ==>
              r.code == e.outputStatusCode && (e.message == "" ==> r.message == "Server error")
  {
    if e.isInvariantError then ErrorReply(MessageOr(e.message, "Bad request"), BadRequestCode)
    else if e.isNotFoundError then ErrorReply(MessageOr(e.message, "Not found"), NotFoundCode)
    else ErrorReply(MessageOr(e.message, "Server error"), e.outputStatusCode)
  }

  /**
   * onPreResponse(request, h). Every error envelope has status `fail`; there is no
   * other status for errors.
   */
  method OnPreResponse(response: PreResponse) returns (result: HookResult)
    ensures response.PlainResponse? ==> result == Continue
    ensures response.ErrorResponse? ==>
              && result.Takeover? && fresh(result.response)
              && result.response.source == MessageBody(FailStatus, ErrorReplyFor(response.error).message)
              && result.response.statusCode == ErrorReplyFor(response.error).code
  {
    if response.ErrorResponse? {
      var e := response.error;
      if e.isInvariantError {
        var newResponse := new Response(MessageBody(FailStatus, MessageOr(e.message, "Bad request")));
        newResponse.Code(BadRequestCode);
        return Takeover(newResponse);
      }
      if e.isNotFoundError {
        var newResponse := new Response(MessageBody(FailStatus, MessageOr(e.message, "Not found")));
        newResponse.Code(NotFoundCode);
        return Takeover(newResponse);
      }
      var newResponse := new Response(MessageBody(FailStatus, MessageOr(e.message, "Server error")));
      newResponse.Code(e.outputStatusCode);
      return Takeover(newResponse);
    }
    return Continue;
  }

  /** The two error classes map to 400 and 404, whatever their messages. */
  lemma ErrorClassCodes(m: string)
    ensures ErrorReplyFor(InvariantError(m)) == ErrorReply(MessageOr(m, "Bad request"), BadRequestCode)
    ensures ErrorReplyFor(NotFoundError(m)) == ErrorReply(MessageOr(m, "Not found"), NotFoundCode)
  {
  }

  /** An error that is both kinds is answered as an InvariantError: that test comes first. */
  lemma InvariantTestedBeforeNotFound(e: ErrorObj)
    requires e.isInvariantError && e.isNotFoundError
    ensures ErrorReplyFor(e).code == BadRequestCode
  {
  }

  /** A rejected request body reaches the client as 400 with the schema's message. */
  lemma RejectedPayloadIsBadRequest(p: PostPayload, q: GetPayload)
    ensures !PostPayloadValid(p) ==>
              ErrorReplyFor(ValidatePostParkingPayload(p).error) == ErrorReply(Message(CheckPost(p).violation), BadRequestCode)
    ensures !GetPayloadValid(q) ==>
              ErrorReplyFor(ValidateGetParkingPayload(q).error) == ErrorReply(Message(CheckGet(q).violation), BadRequestCode)
  {
  }

  /** A failed insert reaches the client as 400 with the service's message. */
  lemma FailedInsertIsBadRequest()
    ensures ErrorReplyFor(InvariantError(InsertFailedMessage)) == ErrorReply(InsertFailedMessage, BadRequestCode)
  {
  }
}
