/**
 * ParkingValidator (src/validator/parking/index.js): run a schema and turn its
 * error into an InvariantError. The code throws; here the thrown error is the
 * `Failure` of a `Result`, and the returned validation result is the `Success`.
 */
module ParkingValidator {
  import opened Wrappers
  import opened Exceptions
  import opened ParkingSchema

  /** validatePostParkingPayload(payload). */
  function ValidatePostParkingPayload(p: PostPayload): (r: Result<PostPayload, ErrorObj>)
    ensures r.Success? <==> PostPayloadValid(p)
    ensures r.Success? ==> r.value == p
    ensures r.Failure? ==> r.error.isInvariantError && !r.error.isNotFoundError
    ensures r.Failure? ==> CheckPost(p).Rejected? && r.error.message == Message(CheckPost(p).violation)
  {
    match CheckPost(p)
    case Rejected(v) => Failure(InvariantError(Message(v)))
    case Accepted => Success(p)
  }

  /** validateGetParkingPayload(payload). */
  function ValidateGetParkingPayload(p: GetPayload): (r: Result<GetPayload, ErrorObj>)
    ensures r.Success? <==> GetPayloadValid(p)
    ensures r.Success? ==> r.value == p
    ensures r.Failure? ==> r.error.isInvariantError && !r.error.isNotFoundError
    ensures r.Failure? ==> CheckGet(p).Rejected? && r.error.message == Message(CheckGet(p).violation)
  {
    match CheckGet(p)
    case Rejected(v) => Failure(InvariantError(Message(v)))
    case Accepted => Success(p)
  }

  /** A rejection always carries a message, so the server hook never falls back to 'Bad request'. */
  lemma RejectionMessageNonEmpty(p: PostPayload, q: GetPayload)
    ensures ValidatePostParkingPayload(p).Failure? ==> ValidatePostParkingPayload(p).error.message != ""
    ensures ValidateGetParkingPayload(q).Failure? ==> ValidateGetParkingPayload(q).error.message != ""
  {
  }

  /** The wrapper decides nothing of its own: it accepts exactly what the schema accepts. */
  lemma ValidatorFollowsSchema(p: PostPayload, q: GetPayload)
    ensures ValidatePostParkingPayload(p).Success? <==> CheckPost(p) == Accepted
    ensures ValidateGetParkingPayload(q).Success? <==> CheckGet(q) == Accepted
  {
  }

  /** The validator tests' expectations: which payloads throw and which come back. */
  lemma ValidatorExamples()
    ensures ValidatePostParkingPayload(PostPayload(None, None, None)).Failure?
    ensures ValidatePostParkingPayload(PostPayload(Some("motor"), None, None)).Failure?
    ensures ValidatePostParkingPayload(PostPayload(Some("car"), None, None)).Failure?
    ensures ValidatePostParkingPayload(PostPayload(Some("motorcycle"), Some(1672941905000), None)).Failure?
    ensures ValidatePostParkingPayload(PostPayload(Some("motorcycle"), Some(1672941905000), Some(1672941905000))).Failure?
    ensures ValidatePostParkingPayload(PostPayload(Some("car"), Some(1672941905000), Some(1682941904000))).Success?
    ensures ValidateGetParkingPayload(EmptyGetPayload.(vehicleType := Some("others"))).Failure?
    ensures ValidateGetParkingPayload(EmptyGetPayload.(enterTime := Some(1672941905000), exitTime := Some(1672941900000))).Failure?
    ensures ValidateGetParkingPayload(EmptyGetPayload.(priceMin := Some(1000), priceMax := Some(950))).Failure?
    ensures ValidateGetParkingPayload(GetPayload(Some("car"), Some(1672941905000), Some(1682941904000), Some(1000), Some(2000))).Success?
  {
    PostSchemaExamples();
    GetSchemaExamples();
  }
}
