/**
  The request and response shapes every screen uses. The model never
  performs a network call: a method that would await one receives its
  outcome as a parameter and returns the requests it issued.
 */
module Http {
  import opened Maybe

  /** What an awaited `fetch` yields once `response.ok` has been tested and
      the JSON body decoded: the payload, or a failure of any kind
      (transport error, non-2xx status, undecodable body). */
  datatype Response<T> = Ok(payload: T) | Fail

  datatype Verb = Get | Post | Put | Delete

  /** The URL a request targets. `Member(r, None)` is the `/r/undefined`
      a template literal builds from a missing id. */
  datatype Target =
    | Collection(resource: string)
    | Member(resource: string, id: Option<int>)
    | Paged(resource: string, limit: int, offset: int)

  /** A request: its method, its URL and its JSON body, if any. */
  datatype Request<B> = Request(verb: Verb, target: Target, body: Option<B>)

  function GetAll<B>(resource: string): Request<B> {
    Request(Get, Collection(resource), None)
  }
}
