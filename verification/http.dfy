/** What an HTTP call made with axios yields: a response with a status and
    a body, or no response at all (network failure, DNS error, ...). */
module Http {
  import opened Wrappers
  import opened Text

  datatype Reply<T> = Response(status: int, body: T) | NoResponse(message: string)

  /** axios' default `validateStatus`: only a 2xx status resolves the
      promise; any other status rejects it with a fixed message. */
  function Settle<T>(r: Reply<T>): (res: Result<(int, T), string>)
    ensures res.Success? <==> r.Response? && 200 <= r.status < 300
    ensures res.Success? ==> res.value == (r.status, r.body)
    ensures r.Response? && !(200 <= r.status < 300) ==>
              res == Failure("Request failed with status code " + IntText(r.status))
    ensures r.NoResponse? ==> res == Failure(r.message)
  {
    match r
    case NoResponse(m) => Failure(m)
    case Response(s, b) =>
      if 200 <= s < 300 then Success((s, b))
      else Failure("Request failed with status code " + IntText(s))
  }
}
