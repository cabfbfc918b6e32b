/** The HTTP values the proxy receives and produces. */
module Http {
  import opened Bytes

  datatype Option<T> = None | Some(value: T)

  /** A header: name and value. */
  type Header = (string, string)

  /** A request: method (verb), target URI (its string form), headers and body. */
  datatype Request = Request(verb: string, uri: string, headers: seq<Header>, body: seq<byte>)

  /** How a response body stream ends: it finished (end of stream reached), it is
      still open (the source has not ended it), or the serving task aborted on a
      read error and the connection was dropped. */
  datatype BodyEnd = Open | Finished | Aborted(reason: seq<byte>)

  /** A response: status, headers, the data frames sent to the client in order,
      and how the body stream ends. */
  datatype Response = Response(status: nat, headers: seq<Header>, frames: seq<seq<byte>>, end: BodyEnd)

  /** The status `Response::new` gives a response (200 OK). */
  const DefaultStatus: nat := 200

  /** 500 Internal Server Error. */
  const InternalServerError: nat := 500

  /** All bytes of a response body. */
  function Body(r: Response): seq<byte>
  {
    Concat(r.frames)
  }
}
