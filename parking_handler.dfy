/**
 * ParkingHandler (src/api/parking/handler.js). The validator and the service are
 * abstract: records of functions the handler is built with. A thrown error is the
 * `Threw` outcome. `calls` records, in order, every call the handler makes on the
 * validator, the service and the response toolkit.
 */
module ParkingHandler {
  import opened Wrappers
  import opened Exceptions
  import opened ParkingUtils
  import opened ParkingSchema
  import opened ParkingService
  import opened ParkingValidator
  import opened Toolkit

  /** The validator object the handler receives. */
  datatype Validator = Validator(
    validatePostParkingPayload: PostPayload -> Result<PostPayload, ErrorObj>,
    validateGetParkingPayload: GetPayload -> Result<GetPayload, ErrorObj>)

  /** The service object the handler receives; an awaited rejection is a `Failure`. */
  datatype Service = Service(
    addParkingData: PostPayload -> Result<Option<int>, ErrorObj>,
    getParkingData: Filter -> Result<seq<ParkingRecord>, ErrorObj>)

  /** The validator the server registers (src/validator/parking/index.js). */
  const ParkingValidators := Validator(ValidatePostParkingPayload, ValidateGetParkingPayload)

  /** A POST request: only its body is read. */
  datatype PostRequest = PostRequest(payload: PostPayload)

  /**
   * A GET request: its body, which the first validation reads (absent for a plain
   * GET, that is the empty payload), and its query parameters.
   */
  datatype GetRequest = GetRequest(payload: GetPayload, query: GetPayload)

  datatype Call =
    | ValidatePostCall(postPayload: PostPayload)
    | AddParkingDataCall(newParking: PostPayload)
    | ValidateGetCall(getPayload: GetPayload)
    | GetParkingDataCall(filter: Filter)
    | ResponseCall(body: Body)
    | CodeCall(code: int)

  /** What a handler call ends in: a response returned or an error thrown. */
  datatype Outcome = Returned(response: Response) | Threw(error: ErrorObj)

  /** The second validation receives `{ type, enterTime, priceMin, priceMax }`: no `exitTime`. */
  function SecondValidationPayload(q: GetPayload): (r: GetPayload)
    ensures r.exitTime.None?
    ensures r.vehicleType == q.vehicleType && r.enterTime == q.enterTime
    ensures r.priceMin == q.priceMin && r.priceMax == q.priceMax
  {
    GetPayload(q.vehicleType, q.enterTime, None, q.priceMin, q.priceMax)
  }

  /** The service receives a time range and a price range object whatever the query holds. */
  function ServiceFilter(q: GetPayload): (f: Filter)
    ensures f.vehicleType == q.vehicleType
    ensures f.timeRange == Some(TimeRange(q.enterTime, q.exitTime))
    ensures f.priceRange == Some(PriceRange(q.priceMin, q.priceMax))
  {
    Filter(q.vehicleType, Some(TimeRange(q.enterTime, q.exitTime)), Some(PriceRange(q.priceMin, q.priceMax)))
  }

  const PostSuccessCode := 201
  const GetSuccessCode := 200

  class ParkingHandler {
    const service: Service
    const validator: Validator
    ghost var calls: seq<Call>

    constructor (service: Service, validator: Validator)
      ensures this.service == service && this.validator == validator && calls == []
    {
      this.service := service;
      this.validator := validator;
      calls := [];
    }

    /**
     * postParkingHandler: validate the body, hand its three fields to the service
     * unchanged, and answer 201 with the id the service gave. A validation error
     * is thrown before the service or the toolkit is touched.
     */
    method PostParkingHandler(request: PostRequest) returns (outcome: Outcome)
      modifies this
      ensures var p := request.payload;
              var checked := validator.validatePostParkingPayload(p);
              var added := service.addParkingData(p);
              && (checked.Failure? ==> outcome == Threw(checked.error) && calls == old(calls) + [ValidatePostCall(p)])
              && (checked.Success? && added.Failure? ==>
                    outcome == Threw(added.error)
                    && calls == old(calls) + [ValidatePostCall(p), AddParkingDataCall(p)])
              && (checked.Success? && added.Success? ==>
                    var body := DataBody(SuccessStatus, ParkingIdData(added.value));
                    && outcome.Returned? && fresh(outcome.response)
                    && outcome.response.source == body
                    && outcome.response.statusCode == PostSuccessCode
                    && calls == old(calls) + [ValidatePostCall(p), AddParkingDataCall(p), ResponseCall(body), CodeCall(PostSuccessCode)])
    {
      calls := calls + [ValidatePostCall(request.payload)];
      var checked := validator.validatePostParkingPayload(request.payload);
      if checked.Failure? {
        return Threw(checked.error);
      }
      var p := request.payload;
      var newParking := PostPayload(p.vehicleType, p.enterTime, p.exitTime);
      calls := calls + [AddParkingDataCall(newParking)];
      var added := service.addParkingData(newParking);
      if added.Failure? {
        return Threw(added.error);
      }
      var parkingId := added.value;
      var body := DataBody(SuccessStatus, ParkingIdData(parkingId));
      calls := calls + [ResponseCall(body)];
      var response := new Response(body);
      calls := calls + [CodeCall(PostSuccessCode)];
      response.Code(PostSuccessCode);
      outcome := Returned(response);
    }

    /**
     * getParkingHandler: validate the body, then validate the query with its
     * `exitTime` left out, then ask the service for the records matching the query
     * and answer 200 with them. Either validation error is thrown before the
     * service or the toolkit is touched.
     */
    method GetParkingHandler(request: GetRequest) returns (outcome: Outcome)
      modifies this
      ensures var q := request.query;
              var first := validator.validateGetParkingPayload(request.payload);
              var second := validator.validateGetParkingPayload(SecondValidationPayload(q));
              var found := service.getParkingData(ServiceFilter(q));
              && (first.Failure? ==>
                    outcome == Threw(first.error) && calls == old(calls) + [ValidateGetCall(request.payload)])
              && (first.Success? && second.Failure? ==>
                    outcome == Threw(second.error)
                    && calls == old(calls) + [ValidateGetCall(request.payload), ValidateGetCall(SecondValidationPayload(q))])
              && (first.Success? && second.Success? && found.Failure? ==>
                    outcome == Threw(found.error)
                    && calls == old(calls) + [ValidateGetCall(request.payload), ValidateGetCall(SecondValidationPayload(q)),
                                              GetParkingDataCall(ServiceFilter(q))])
              && (first.Success? && second.Success? && found.Success? ==>
                    var body := DataBody(SuccessStatus, ParkingListData(found.value));
                    && outcome.Returned? && fresh(outcome.response)
                    && outcome.response.source == body
                    && outcome.response.statusCode == GetSuccessCode
                    && calls == old(calls) + [ValidateGetCall(request.payload), ValidateGetCall(SecondValidationPayload(q)),
                                              GetParkingDataCall(ServiceFilter(q)), ResponseCall(body), CodeCall(GetSuccessCode)])
    {
      calls := calls + [ValidateGetCall(request.payload)];
      var first := validator.validateGetParkingPayload(request.payload);
      if first.Failure? {
        return Threw(first.error);
      }
      var q := request.query;
      var secondPayload := GetPayload(q.vehicleType, q.enterTime, None, q.priceMin, q.priceMax);
      calls := calls + [ValidateGetCall(secondPayload)];
      var second := validator.validateGetParkingPayload(secondPayload);
      if second.Failure? {
        return Threw(second.error);
      }
      var filter := Filter(q.vehicleType, Some(TimeRange(q.enterTime, q.exitTime)), Some(PriceRange(q.priceMin, q.priceMax)));
      calls := calls + [GetParkingDataCall(filter)];
      var found := service.getParkingData(filter);
      if found.Failure? {
        return Threw(found.error);
      }
      var parkingData := found.value;
      var body := DataBody(SuccessStatus, ParkingListData(parkingData));
      calls := calls + [ResponseCall(body)];
      var response := new Response(body);
      calls := calls + [CodeCall(GetSuccessCode)];
      response.Code(GetSuccessCode);
      outcome := Returned(response);
    }
  }

  // ----------------------------------------------------------------------------
  // What the handlers let through, with the registered validator
  // ----------------------------------------------------------------------------

  /**
   * The second validation never sees `exitTime`: its verdict is the same whatever
   * the query's end time, and it checks only the type and the price range (a
   * maximum needs a minimum it is at least).
   */
  lemma SecondValidationIgnoresExitTime(q: GetPayload, end: Option<int>)
    ensures ValidateGetParkingPayload(SecondValidationPayload(q))
         == ValidateGetParkingPayload(SecondValidationPayload(q.(exitTime := end)))
    ensures ValidateGetParkingPayload(SecondValidationPayload(q)).Success?
        <==> (q.vehicleType.Some? ==> IsVehicleType(q.vehicleType.value))
             && (q.priceMax.Some? ==> q.priceMin.Some? && q.priceMax.value >= q.priceMin.value)
  {
    assert SecondValidationPayload(q) == SecondValidationPayload(q.(exitTime := end));
  }

  /**
   * A query whose end time does not follow its start, sent without a body, passes
   * both validations of the GET handler although the schema on its own rejects it;
   * the service then receives that reversed time range.
   */
  lemma ReversedTimeRangeReachesService(q: GetPayload)
    requires q.vehicleType.None? && q.priceMin.None? && q.priceMax.None?
    requires q.enterTime.Some? && q.exitTime.Some? && q.exitTime.value <= q.enterTime.value
    ensures ValidateGetParkingPayload(q).Failure?
    ensures ValidateGetParkingPayload(EmptyGetPayload).Success?
    ensures ValidateGetParkingPayload(SecondValidationPayload(q)).Success?
    ensures ServiceFilter(q).timeRange == Some(TimeRange(q.enterTime, q.exitTime))
  {
  }

  /**
   * A query with an end time but no start time, sent without a body, passes both
   * validations although the schema on its own rejects it on the missing reference;
   * the service then receives a time range with only its end.
   */
  lemma LoneExitTimeReachesService(q: GetPayload)
    requires q.vehicleType.None? && q.priceMin.None? && q.priceMax.None?
    requires q.enterTime.None? && q.exitTime.Some?
    ensures CheckGet(q) == Rejected(Violation(ExitTimeKey, MissingRef))
    ensures ValidateGetParkingPayload(EmptyGetPayload).Success?
    ensures ValidateGetParkingPayload(SecondValidationPayload(q)).Success?
    ensures ServiceFilter(q).timeRange == Some(TimeRange(None, q.exitTime))
  {
  }

  /**
   * "Car" passes the case-insensitive type rule, but the fee compares with "car"
   * exactly, so an accepted "Car" is charged motorcycle rates: never more than a
   * car, and less for any stay of a minute or more.
   */
  lemma CaseVariantChargedMotorcycleRates(enterTime: int, exitTime: int)
    requires exitTime > enterTime
    ensures ValidatePostParkingPayload(PostPayload(Some("Car"), Some(enterTime), Some(exitTime))).Success?
    ensures CalculatePrice("Car", enterTime, exitTime) == CalculatePrice("motorcycle", enterTime, exitTime)
    ensures CalculatePrice("Car", enterTime, exitTime) <= CalculatePrice("car", enterTime, exitTime)
    ensures exitTime - enterTime >= MsPerMinute ==>
              CalculatePrice("Car", enterTime, exitTime) < CalculatePrice("car", enterTime, exitTime)
  {
    CaseVariantsAccepted();
    var range := exitTime - enterTime;
    CalculatePriceCharges("Car", enterTime, exitTime);
    CalculatePriceCharges("car", enterTime, exitTime);
    CalculatePriceCharges("motorcycle", enterTime, exitTime);
    assert TariffFor("Car") == MotorcycleTariff;
    var days, hours := range / MsPerDay, StartedHours(range);
    assert days >= 0 && hours >= 0;
    if range >= MsPerMinute && days == 0 {
      var minutes := range / MsPerMinute;
      assert 1 <= minutes < 1440;
      assert minutes % 1440 == minutes;
      assert hours >= 1;
    }
  }
}
