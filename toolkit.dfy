/**
 * The parts of hapi's response toolkit `h` the handlers and the server hook use:
 * `h.response(source)` makes a response object, whose `code(c)` sets its status
 * code. Everything else about hapi responses is not part of this model.
 */
module Toolkit {
  import opened Wrappers
  import opened ParkingUtils

  /** The `data` member of a success envelope. */
  datatype Data =
    | ParkingIdData(parkingId: Option<int>)             // `{ parkingId }`; `None` is `undefined`
    | ParkingListData(parkingData: seq<ParkingRecord>)  // `{ parkingData }`

  /** The JSON envelopes the server sends. */
  datatype Body =
    | DataBody(status: string, data: Data)        // `{ status, data }`
    | MessageBody(status: string, message: string) // `{ status, message }`

  const SuccessStatus := "success"
  const FailStatus := "fail"

  /** hapi's status code for a response whose code is never set. */
  const DefaultStatusCode := 200

  /** A response object: its payload and its status code, which `code` changes in place. */
  class Response {
    var source: Body
    var statusCode: int

    /** `h.response(source)`. */
    constructor (source: Body)
      ensures this.source == source && statusCode == DefaultStatusCode
    {
      this.source := source;
      statusCode := DefaultStatusCode;
    }

    /** `response.code(c)`: sets the status code and leaves the payload alone. */
    method Code(c: int)
      modifies this
      ensures statusCode == c && source == old(source)
    {
      statusCode := c;
    }
  }
}
