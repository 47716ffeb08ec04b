/**
 * The request schemas of src/validator/parking/schema.js, written as explicit
 * rules over optional fields. Joi validates the keys in the order the schema
 * lists them and stops at the first broken rule, so a rejection names one
 * violation: the first key, in that order, whose rule the payload breaks.
 * The model represents timestamps as epoch milliseconds (what `Joi.date().timestamp()`
 * accepts) and prices as integers.
 */
module ParkingSchema {
  import opened Wrappers

  /** The POST /parking body `{ type, enterTime, exitTime }`; `None` is an absent key. */
  datatype PostPayload = PostPayload(vehicleType: Option<string>, enterTime: Option<int>, exitTime: Option<int>)

  /** The GET /parking parameters `{ type, enterTime, exitTime, priceMin, priceMax }`. */
  datatype GetPayload = GetPayload(
    vehicleType: Option<string>,
    enterTime: Option<int>,
    exitTime: Option<int>,
    priceMin: Option<int>,
    priceMax: Option<int>)

  const EmptyGetPayload := GetPayload(None, None, None, None, None)

  // ----------------------------------------------------------------------------
  // The type rule: `Joi.string().insensitive().valid('car', 'motorcycle')`
  // ----------------------------------------------------------------------------

  function LowerChar(c: char): (l: char)
    ensures 'A' <= c <= 'Z' ==> l as int == c as int + 32
    ensures !('A' <= c <= 'Z') ==> l == c
  {
    if 'A' <= c <= 'Z' then (c as int + 32) as char else c
  }

  /** `s` lower-cases, character by character, to the lower-case word `w`. */
  predicate MatchesIgnoringCase(s: string, w: string) {
    |s| == |w| && forall i :: 0 <= i < |s| ==> LowerChar(s[i]) == w[i]
  }

  /** One of the allowed vehicle types, compared without regard to case. */
  predicate IsVehicleType(s: string) {
    MatchesIgnoringCase(s, "car") || MatchesIgnoringCase(s, "motorcycle")
  }

  /** An accepted type fits the table's VARCHAR(10) `type` column; "motorcycle" fills it. */
  lemma AcceptedTypeFitsColumn(s: string)
    requires IsVehicleType(s)
    ensures |s| <= 10
  {
  }

  /** Case variants of the allowed words are accepted. */
  lemma CaseVariantsAccepted()
    ensures IsVehicleType("car") && IsVehicleType("Car") && IsVehicleType("CAR")
    ensures IsVehicleType("motorcycle") && IsVehicleType("MotorCycle")
  {
  }

  /** Words of another length are rejected whatever their letters. */
  lemma OtherWordsRejected()
    ensures !IsVehicleType("motor") && !IsVehicleType("others") && !IsVehicleType("")
  {
  }

  // ----------------------------------------------------------------------------
  // Violations
  // ----------------------------------------------------------------------------

  datatype Key = TypeKey | EnterTimeKey | ExitTimeKey | PriceMinKey | PriceMaxKey

  /** The order in which the schemas list their keys. */
  function KeyRank(k: Key): nat {
    match k
    case TypeKey => 0
    case EnterTimeKey => 1
    case ExitTimeKey => 2
    case PriceMinKey => 3
    case PriceMaxKey => 4
  }

  function KeyName(k: Key): string {
    match k
    case TypeKey => "type"
    case EnterTimeKey => "enterTime"
    case ExitTimeKey => "exitTime"
    case PriceMinKey => "priceMin"
    case PriceMaxKey => "priceMax"
  }

  /** The kinds of rule the two schemas use. */
  datatype Rule =
    | Required     // `.required()`: the key is absent
    | NotAllowed   // `.valid(...)`: the value is not in the list
    | NotGreater   // `.greater(Joi.ref('enterTime'))`
    | BelowMin     // `.min(Joi.ref('priceMin'))`
    | MissingRef   // `any.ref`: a bound's reference key is absent

  datatype Violation = Violation(key: Key, rule: Rule)

  /** What a schema says about a payload. */
  datatype SchemaResult = Accepted | Rejected(violation: Violation)

  /**
   * The text of the error Joi reports. Its wording is Joi's own; the model keeps
   * only that it is non-empty and names the offending key in quotes first.
   */
  function Message(v: Violation): (m: string)
    ensures |m| > |KeyName(v.key)| + 2
    ensures m[..|KeyName(v.key)| + 2] == "\"" + KeyName(v.key) + "\""
  {
    var quoted := "\"" + KeyName(v.key) + "\"";
    match v.rule
    case Required => quoted + " is required"
    case NotAllowed => quoted + " must be one of [car, motorcycle]"
    case NotGreater => quoted + " must be greater than \"ref:enterTime\""
    case BelowMin => quoted + " must be greater than or equal to ref:priceMin"
    case MissingRef =>
      if v.key == ExitTimeKey then quoted + " date references \"ref:enterTime\" which must have a valid date format"
      else quoted + " limit references \"ref:priceMin\" which must be a number"
  }

  // ----------------------------------------------------------------------------
  // PostParkingPayloadSchema
  // ----------------------------------------------------------------------------

  /** Everything the POST schema demands, as one statement. */
  predicate PostPayloadValid(p: PostPayload) {
    && p.vehicleType.Some? && IsVehicleType(p.vehicleType.value)
    && p.enterTime.Some?
    && p.exitTime.Some? && p.exitTime.value > p.enterTime.value
  }

  /** Whether `p` breaks the POST rule `v` names. */
  predicate PostBreaks(p: PostPayload, v: Violation) {
    match v
    case Violation(TypeKey, Required) => p.vehicleType.None?
    case Violation(TypeKey, NotAllowed) => p.vehicleType.Some? && !IsVehicleType(p.vehicleType.value)
    case Violation(EnterTimeKey, Required) => p.enterTime.None?
    case Violation(ExitTimeKey, Required) => p.exitTime.None?
    case Violation(ExitTimeKey, NotGreater) =>
      p.enterTime.Some? && p.exitTime.Some? && !(p.exitTime.value > p.enterTime.value)
    case _ => false
  }

  /** `PostParkingPayloadSchema.validate(payload)`: the first broken rule, in key order. */
  function CheckPost(p: PostPayload): (r: SchemaResult)
    ensures r.Accepted? <==> PostPayloadValid(p)
    ensures r.Rejected? ==> PostBreaks(p, r.violation)
    ensures r.Rejected? ==> forall v :: PostBreaks(p, v) ==> KeyRank(r.violation.key) <= KeyRank(v.key)
  {
    if p.vehicleType.None? then Rejected(Violation(TypeKey, Required))
    else if !IsVehicleType(p.vehicleType.value) then Rejected(Violation(TypeKey, NotAllowed))
    else if p.enterTime.None? then Rejected(Violation(EnterTimeKey, Required))
    else if p.exitTime.None? then Rejected(Violation(ExitTimeKey, Required))
    else if !(p.exitTime.value > p.enterTime.value) then Rejected(Violation(ExitTimeKey, NotGreater))
    else Accepted
  }

  /** The POST payload is valid exactly when it breaks none of the rules. */
  lemma PostValidIffNoBrokenRule(p: PostPayload)
    ensures PostPayloadValid(p) <==> forall v :: !PostBreaks(p, v)
  {
    if !PostPayloadValid(p) {
      assert PostBreaks(p, CheckPost(p).violation);
    }
  }

  /** Leaving out any one of the three keys is rejected. */
  lemma PostRequiresEveryKey(p: PostPayload)
    requires p.vehicleType.None? || p.enterTime.None? || p.exitTime.None?
    ensures CheckPost(p).Rejected?
    ensures CheckPost(p).violation.rule in {Required, NotAllowed}
  {
  }

  /** Leaving the stay's end at its start is rejected: the bound is strict. */
  lemma PostRejectsEqualTimes(t: string, time: int)
    requires IsVehicleType(t)
    ensures CheckPost(PostPayload(Some(t), Some(time), Some(time))) == Rejected(Violation(ExitTimeKey, NotGreater))
  {
  }

  /** The cases the validator's own tests state for the POST schema. */
  lemma PostSchemaExamples()
    ensures CheckPost(PostPayload(None, None, None)) == Rejected(Violation(TypeKey, Required))
    ensures CheckPost(PostPayload(Some("motor"), None, None)) == Rejected(Violation(TypeKey, NotAllowed))
    ensures CheckPost(PostPayload(Some("car"), None, None)) == Rejected(Violation(EnterTimeKey, Required))
    ensures CheckPost(PostPayload(Some("motorcycle"), Some(1672941905000), None))
         == Rejected(Violation(ExitTimeKey, Required))
    ensures CheckPost(PostPayload(Some("motorcycle"), Some(1672941905000), Some(1672941905000)))
         == Rejected(Violation(ExitTimeKey, NotGreater))
    ensures CheckPost(PostPayload(Some("car"), Some(1672941905000), Some(1682941904000))) == Accepted
  {
    CaseVariantsAccepted();
    OtherWordsRejected();
  }

  // ----------------------------------------------------------------------------
  // GetParkingPayloadSchema
  // ----------------------------------------------------------------------------

  /**
   * Everything the GET schema demands: every key is optional; a present type must
   * be allowed; a present end needs a start it follows, and a present maximum price
   * needs a minimum it is at least.
   *
   * The `is` of each `when` is a schema without `.required()`, and such a schema
   * also matches an absent value. So an absent `enterTime` (or `priceMin`) still
   * selects the `then` branch, whose `greater(Joi.ref('enterTime'))` (or
   * `min(Joi.ref('priceMin'))`) then has nothing to compare with and fails with
   * Joi's `any.ref` error. The `otherwise` branches are never taken for a present
   * key of the right type.
   */
  predicate GetPayloadValid(p: GetPayload) {
    && (p.vehicleType.Some? ==> IsVehicleType(p.vehicleType.value))
    && (p.exitTime.Some? ==> p.enterTime.Some? && p.exitTime.value > p.enterTime.value)
    && (p.priceMax.Some? ==> p.priceMin.Some? && p.priceMax.value >= p.priceMin.value)
  }

  /** Whether `p` breaks the GET rule `v` names. */
  predicate GetBreaks(p: GetPayload, v: Violation) {
    match v
    case Violation(TypeKey, NotAllowed) => p.vehicleType.Some? && !IsVehicleType(p.vehicleType.value)
    case Violation(ExitTimeKey, MissingRef) => p.enterTime.None? && p.exitTime.Some?
    case Violation(ExitTimeKey, NotGreater) =>
      p.enterTime.Some? && p.exitTime.Some? && !(p.exitTime.value > p.enterTime.value)
    case Violation(PriceMaxKey, MissingRef) => p.priceMin.None? && p.priceMax.Some?
    case Violation(PriceMaxKey, BelowMin) =>
      p.priceMin.Some? && p.priceMax.Some? && !(p.priceMax.value >= p.priceMin.value)
    case _ => false
  }

  /** `GetParkingPayloadSchema.validate(payload)`: the first broken rule, in key order. */
  function CheckGet(p: GetPayload): (r: SchemaResult)
    ensures r.Accepted? <==> GetPayloadValid(p)
    ensures r.Rejected? ==> GetBreaks(p, r.violation)
    ensures r.Rejected? ==> forall v :: GetBreaks(p, v) ==> KeyRank(r.violation.key) <= KeyRank(v.key)
  {
    if p.vehicleType.Some? && !IsVehicleType(p.vehicleType.value) then
      Rejected(Violation(TypeKey, NotAllowed))
    else if p.exitTime.Some? && p.enterTime.None? then
      Rejected(Violation(ExitTimeKey, MissingRef))
    else if p.exitTime.Some? && !(p.exitTime.value > p.enterTime.value) then
      Rejected(Violation(ExitTimeKey, NotGreater))
    else if p.priceMax.Some? && p.priceMin.None? then
      Rejected(Violation(PriceMaxKey, MissingRef))
    else if p.priceMax.Some? && !(p.priceMax.value >= p.priceMin.value) then
      Rejected(Violation(PriceMaxKey, BelowMin))
    else
      Accepted
  }

  /** The GET payload is valid exactly when it breaks none of the rules. */
  lemma GetValidIffNoBrokenRule(p: GetPayload)
    ensures GetPayloadValid(p) <==> forall v :: !GetBreaks(p, v)
  {
    if !GetPayloadValid(p) {
      assert GetBreaks(p, CheckGet(p).violation);
    }
  }

  /** No key is required: the empty parameter set is accepted. */
  lemma EmptyGetAccepted()
    ensures CheckGet(EmptyGetPayload) == Accepted
  {
  }

  /**
   * An end needs its start: an end time without a start time, or a maximum price
   * without a minimum, is rejected on the missing reference. A lone start or a
   * lone minimum constrains nothing.
   */
  lemma GetRangesNeedBothEnds(p: GetPayload)
    requires p.vehicleType.None? || IsVehicleType(p.vehicleType.value)
    ensures p.enterTime.None? && p.exitTime.Some? ==> CheckGet(p) == Rejected(Violation(ExitTimeKey, MissingRef))
    ensures p.exitTime.None? && p.priceMin.None? && p.priceMax.Some? ==>
              CheckGet(p) == Rejected(Violation(PriceMaxKey, MissingRef))
    ensures p.exitTime.None? && p.priceMax.None? ==> CheckGet(p) == Accepted
  {
  }

  /** The price bound is inclusive: equal minimum and maximum are accepted. */
  lemma GetPriceBoundInclusive(price: int)
    ensures CheckGet(GetPayload(None, None, None, Some(price), Some(price))) == Accepted
  {
  }

  /** The cases the validator's own tests state for the GET schema. */
  lemma GetSchemaExamples()
    ensures CheckGet(EmptyGetPayload.(vehicleType := Some("others"))) == Rejected(Violation(TypeKey, NotAllowed))
    ensures CheckGet(EmptyGetPayload.(enterTime := Some(1672941905000), exitTime := Some(1672941900000)))
         == Rejected(Violation(ExitTimeKey, NotGreater))
    ensures CheckGet(EmptyGetPayload.(priceMin := Some(1000), priceMax := Some(950)))
         == Rejected(Violation(PriceMaxKey, BelowMin))
    ensures CheckGet(GetPayload(Some("car"), Some(1672941905000), Some(1682941904000), Some(1000), Some(2000)))
         == Accepted
  {
    CaseVariantsAccepted();
    OtherWordsRejected();
  }
}
