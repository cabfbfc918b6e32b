/** The request handler of src/main.rs: `proxy`, `get_cached_response` and
    `error_body`. A request whose cache file exists is answered from the file;
    otherwise it is forwarded to the fixed upstream, and a successful upstream
    response is written to a freshly created cache file while it is streamed to
    the client. */
module Dispatch {
  import opened Bytes
  import opened Http
  import opened CachePath
  import opened CacheFs
  import opened Streaming

  /** The one upstream host every miss is forwarded to. */
  const UpstreamHost: string := "snapshot.debian.org"

  /** What a forwarded request's URI starts with: scheme and upstream host. */
  const UpstreamOrigin: string := "https://" + UpstreamHost

  /** The size of the buffer a cached file is read through. */
  const ReadCapacity: nat := 4096

  /** What an error body starts with. */
  const ErrorPrefix: seq<byte> := Ascii("Error: ")

  /** What the upstream client yields for a forwarded request: the client's
      error (its text), or a response with status, headers and the successive
      reads of its body. */
  datatype Upstream =
    | ClientError(error: seq<byte>)
    | Reply(status: nat, headers: seq<Header>, input: seq<Read>)

  /** The upstream request built for a miss: same method and body, target URI
      rewritten onto the upstream origin, and none of the client's headers. */
  function Forwarded(req: Request): Request
  {
    Request(req.verb, UpstreamOrigin + req.uri, [], req.body)
  }

  /** `error_body`: the prefix followed by the error text, from which the text
      can be read back. */
  function ErrorBody(error: seq<byte>): (body: seq<byte>)
    ensures |body| == |ErrorPrefix| + |error|
    ensures body[..|ErrorPrefix|] == ErrorPrefix && body[|ErrorPrefix|..] == error
  {
    ErrorPrefix + error
  }

  /** The answer from a cache file: default status, no headers, the file's bytes
      in buffer-sized frames, then the end of the stream. */
  function HitResponse(data: seq<byte>): Response
  {
    Response(DefaultStatus, [], Chunks(data, ReadCapacity), Finished)
  }

  /** The answer when the upstream client fails: 500 and the error body. */
  function ErrorResponse(error: seq<byte>): Response
  {
    Response(InternalServerError, [], [ErrorBody(error)], Finished)
  }

  /** The answer streamed from a successful upstream response: the default
      status, none of the upstream status or headers, the tee's frames. */
  function StreamedResponse(input: seq<Read>): Response
  {
    Response(DefaultStatus, [], Emitted(input), EndOf(input))
  }

  /** What handling one request leads to: the response, the cache directory
      afterwards, and the request sent upstream, if any. */
  datatype Outcome = Outcome(resp: Response, files: map<string, seq<byte>>, forwarded: Option<Request>)

  /** The handling of one request against the cache directory `files`, with
      `upstream` standing for whatever the upstream client would yield. */
  function Serve(files: map<string, seq<byte>>, req: Request, upstream: Upstream): Outcome
  {
    var path := PathFromUri(req.uri);
    if path in files then
      Outcome(HitResponse(files[path]), files, None)
    else
      match upstream
      case ClientError(error) =>
        Outcome(ErrorResponse(error), files, Some(Forwarded(req)))
      case Reply(_, _, input) =>
        Outcome(StreamedResponse(input), files[path := Concat(Emitted(input))], Some(Forwarded(req)))
  }

  /** `get_cached_response`: opens the cache file of the request's URI; when it
      exists, answers with its bytes, default status and no headers; when it
      does not, there is no answer. Nothing changes. */
  method GetCachedResponse(dir: CacheDir, req: Request) returns (cached: Option<Response>)
    ensures cached.Some? <==> PathFromUri(req.uri) in dir.files
    ensures cached.Some? ==> cached.value == HitResponse(dir.files[PathFromUri(req.uri)])
    ensures cached.Some? ==> Body(cached.value) == dir.files[PathFromUri(req.uri)]
  {
    var path := PathFromUri(req.uri);
    if path in dir.files {
      cached := Some(HitResponse(dir.files[path]));
    } else {
      cached := None;
    }
  }

  /** `proxy`: answers from the cache when it can; otherwise forwards the
      request once, and either answers 500 with the client's error or creates
      (truncates) the cache file and tees the upstream body into it and to the
      client. */
  method Proxy(dir: CacheDir, req: Request, upstream: Upstream) returns (resp: Response, forwarded: Option<Request>)
    modifies dir
    ensures Outcome(resp, dir.files, forwarded) == Serve(old(dir.files), req, upstream)
  {
    var cached := GetCachedResponse(dir, req);
    if cached.Some? {
      return cached.value, None;
    }
    forwarded := Some(Forwarded(req));
    if upstream.ClientError? {
      resp := ErrorResponse(upstream.error);
    } else {
      var file := new CacheFile.Create(dir, PathFromUri(req.uri));
      var frames, end := Tee(file, upstream.input);
      assert [] + Concat(frames) == Concat(frames);
      resp := Response(DefaultStatus, [], frames, end);
    }
  }

  /** A hit answers with exactly the stored bytes, default status and no
      headers, changes nothing and contacts no upstream, whatever the upstream
      would have said. */
  lemma HitServesStored(files: map<string, seq<byte>>, req: Request, upstream: Upstream)
    requires PathFromUri(req.uri) in files
    ensures var o := Serve(files, req, upstream);
      && o.forwarded == None && o.files == files
      && o.resp.status == DefaultStatus && o.resp.headers == [] && o.resp.end == Finished
      && Body(o.resp) == files[PathFromUri(req.uri)]
  {
  }

  /** A miss forwards exactly one request: the same method and body, to the
      upstream origin followed by the original URI, with no headers. */
  lemma MissForwards(files: map<string, seq<byte>>, req: Request, upstream: Upstream)
    requires PathFromUri(req.uri) !in files
    ensures var o := Serve(files, req, upstream);
      && o.forwarded.Some?
      && o.forwarded.value.verb == req.verb && o.forwarded.value.body == req.body
      && o.forwarded.value.headers == []
      && o.forwarded.value.uri[..|UpstreamOrigin|] == UpstreamOrigin
      && o.forwarded.value.uri[|UpstreamOrigin|..] == req.uri
  {
  }

  /** When the upstream client fails, the answer is 500 with "Error: " and the
      error text, and the cache directory is left as it was: no file is created. */
  lemma ClientErrorCachesNothing(files: map<string, seq<byte>>, req: Request, error: seq<byte>)
    requires PathFromUri(req.uri) !in files
    ensures var o := Serve(files, req, ClientError(error));
      && o.files == files && PathFromUri(req.uri) !in o.files
      && o.resp.status == InternalServerError && o.resp.headers == []
      && Body(o.resp)[..|ErrorPrefix|] == ErrorPrefix && Body(o.resp)[|ErrorPrefix|..] == error
  {
    var o := Serve(files, req, ClientError(error));
    assert Concat(o.resp.frames) == ErrorBody(error) + Concat([]);
  }

  /** On an upstream response, whatever its status and headers, the cache file
      is created and ends up holding exactly the bytes sent to the client; no
      other file changes; the client gets the default status and no headers,
      and its frames are the upstream reads, unchanged and in order. */
  lemma ReplyCachesSentBytes(files: map<string, seq<byte>>, req: Request, status: nat, headers: seq<Header>, input: seq<Read>)
    requires PathFromUri(req.uri) !in files
    ensures var o := Serve(files, req, Reply(status, headers, input));
      && o.files == files[PathFromUri(req.uri) := Body(o.resp)]
      && o.resp.status == DefaultStatus && o.resp.headers == []
      && o.resp.frames == Emitted(input) && o.resp.end == EndOf(input)
      && |o.resp.frames| <= |input|
      && forall k :: 0 <= k < |o.resp.frames| ==> input[k] == Chunk(o.resp.frames[k])
  {
    EmittedAreReads(input);
  }

  /** The round trip: after a miss whose upstream body was streamed, any later
      request for the same cache file, with any method and whatever upstream
      would say, is a hit that contacts no upstream and answers with the very
      bytes the first client received. */
  lemma {:induction false} MissThenHit(files: map<string, seq<byte>>, first: Request, reply: Upstream, second: Request, upstream: Upstream)
    requires PathFromUri(first.uri) !in files && reply.Reply?
    requires PathFromUri(second.uri) == PathFromUri(first.uri)
    ensures var o1 := Serve(files, first, reply);
      var o2 := Serve(o1.files, second, upstream);
      && o1.forwarded.Some? && o2.forwarded == None && o2.files == o1.files
      && o2.resp.status == o1.resp.status == DefaultStatus
      && Body(o2.resp) == Body(o1.resp)
  {
    var o1 := Serve(files, first, reply);
    HitServesStored(o1.files, second, upstream);
  }

  /** Repeated hits change nothing and answer identically each time. */
  lemma {:induction false} HitIsIdempotent(files: map<string, seq<byte>>, req: Request, u1: Upstream, u2: Upstream)
    requires PathFromUri(req.uri) in files
    ensures var o1 := Serve(files, req, u1);
      var o2 := Serve(o1.files, req, u2);
      o1 == o2 && o2.forwarded == None
  {
    HitServesStored(files, req, u1);
  }

  /** The cache file does not depend on the method: a body fetched for one
      method is the answer to any other method on the same URI. */
  lemma {:induction false} MethodIgnored(files: map<string, seq<byte>>, req: Request, verb: string, upstream: Upstream)
    requires PathFromUri(req.uri) in files
    ensures Serve(files, req.(verb := verb), upstream).resp == Serve(files, req, upstream).resp
  {
  }

  /** Because the cache path is lossy, a request for `/a?b` is answered from the
      file stored for `/a/b` without contacting upstream. */
  lemma {:induction false} CollidingUriServedFromOtherEntry(files: map<string, seq<byte>>, req: Request, upstream: Upstream)
    requires PathFromUri("/a/b") in files && req.uri == "/a?b"
    ensures var o := Serve(files, req, upstream);
      o.forwarded == None && Body(o.resp) == files[PathFromUri("/a/b")]
  {
    Collision();
    HitServesStored(files, req, upstream);
  }

  /** When the upstream body fails after some data, the client's stream is
      aborted, yet the cache file keeps the partial bytes and the next request
      for it is a hit that serves them as a complete 200 response. */
  lemma {:induction false} TruncatedEntryIsServed(files: map<string, seq<byte>>, req: Request, status: nat, headers: seq<Header>, input: seq<Read>, upstream: Upstream)
    requires PathFromUri(req.uri) !in files && EndOf(input).Aborted?
    ensures var o1 := Serve(files, req, Reply(status, headers, input));
      var o2 := Serve(o1.files, req, upstream);
      && o1.resp.end.Aborted?
      && o2.forwarded == None && o2.resp.status == DefaultStatus && o2.resp.end == Finished
      && Body(o2.resp) == Body(o1.resp)
  {
    var o1 := Serve(files, req, Reply(status, headers, input));
    HitServesStored(o1.files, req, upstream);
  }
}
