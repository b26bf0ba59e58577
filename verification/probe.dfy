/**
 * The part of `getFileSize` in app.go that remains once the HEAD request is
 * taken as given: what the request produced is an input, and the function
 * decides whether it yields a byte count.
 */
module Probe {
  import opened Wrappers

  const StatusOK: int := 200

  /**
   * What the HEAD request produced. `NoResponse` covers every way of getting
   * no response at all: a request that could not be built, a transport error,
   * the client's timeout and a cancelled run.
   */
  datatype Exchange =
    | NoResponse
    | Response(status: int, contentLength: int)

  /** The reasons `getFileSize` reports an error. */
  datatype ProbeError =
    | RequestFailed           // the request could not be built or sent
    | BadStatus(status: int)  // the server answered with a status other than 200
    | UnknownSize             // 200, but ContentLength is unknown (-1) or zero

  /**
   * getFileSize: a size exactly when the server answered 200 with a positive
   * ContentLength, and then that length; every other outcome is an error.
   */
  function Classify(e: Exchange): (r: Result<int, ProbeError>)
    ensures r.Ok? <==> e.Response? && e.status == StatusOK && e.contentLength > 0
    ensures r.Ok? ==> r.value == e.contentLength && r.value >= 1
    ensures e.NoResponse? ==> r == Err(RequestFailed)
    ensures e.Response? && e.status != StatusOK ==> r == Err(BadStatus(e.status))
    ensures e.Response? && e.status == StatusOK && e.contentLength <= 0 ==> r == Err(UnknownSize)
  {
    match e
    case NoResponse => Err(RequestFailed)
    case Response(status, length) =>
      if status != StatusOK then Err(BadStatus(status))
      else if length <= 0 then Err(UnknownSize)
      else Ok(length)
  }
}
