/** The remote like service as the sweep sees it: one reply per request,
    and the report the sweep makes of it. */
module LikeApi {

  /** The value of the "status" key in a JSON object reply. JSON integers and
      floats are both numbers here, so `Number(1.0)` stands for `1` and `1.0`. */
  datatype StatusValue =
    | Absent
    | Null
    | Number(value: real)
    | Boolean(flag: bool)
    | Text(text: string)
    | Compound

  /** The body of a reply, as decoding it as JSON turns out. */
  datatype Body =
    | JsonObject(status: StatusValue)
    | JsonNonObject
    | NotJson

  /** What one request gives back: an HTTP response, or an exception raised
      while sending it or reading it. */
  datatype Reply =
    | Response(httpStatus: int, body: Body)
    | Raised(reason: string)

  /** Why a request ended in the exception handler. */
  datatype FailReason =
    | Transport(reason: string)
    | UndecodableBody
    | BodyNotObject

  /** The message the sweep prints and sends for one request. */
  datatype Report =
    | Liked
    | AlreadyMax
    | ApiError(code: int)
    | Failed(why: FailReason)

  /** Python's `data.get("status") == 1`: true for the number one and for
      `True`, which compares equal to 1. */
  predicate StatusIsOne(v: StatusValue) {
    v == Number(1.0) || v == Boolean(true)
  }

  /** Only the number one and `True` compare equal to 1: the string "1",
      zero, `False`, `null` and a missing key do not. */
  lemma StatusIsOneCases()
    ensures StatusIsOne(Number(1.0)) && StatusIsOne(Boolean(true))
    ensures !StatusIsOne(Text("1")) && !StatusIsOne(Number(0.0)) && !StatusIsOne(Number(1.5))
    ensures !StatusIsOne(Boolean(false)) && !StatusIsOne(Null) && !StatusIsOne(Absent)
  {
  }

  /** The report for one reply: HTTP 200 with status 1 is a like, any other
      HTTP 200 JSON object means the daily maximum was reached, any other
      HTTP code is an API error carrying that code, and a body that is not a
      JSON object (or a raised exception) goes to the error handler. */
  function Classify(r: Reply): (rep: Report)
    ensures rep == Liked <==>
              r.Response? && r.httpStatus == 200 && r.body.JsonObject? && StatusIsOne(r.body.status)
    ensures rep == AlreadyMax <==>
              r.Response? && r.httpStatus == 200 && r.body.JsonObject? && !StatusIsOne(r.body.status)
    ensures rep.ApiError? <==> r.Response? && r.httpStatus != 200
    ensures rep.ApiError? ==> rep.code == r.httpStatus
    ensures rep.Failed? <==> r.Raised? || (r.httpStatus == 200 && !r.body.JsonObject?)
  {
    match r
    case Raised(reason) => Failed(Transport(reason))
    case Response(code, body) =>
      if code != 200 then ApiError(code)
      else
        match body
        case JsonObject(status) => if StatusIsOne(status) then Liked else AlreadyMax
        case JsonNonObject => Failed(BodyNotObject)
        case NotJson => Failed(UndecodableBody)
  }
}
