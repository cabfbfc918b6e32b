# simple-http-cached, modelled in Dafny

simple-http-cached is a caching forwarding proxy in front of `snapshot.debian.org`.
For each request it derives a cache file path from the request URI. If that file
exists, its bytes are the answer. Otherwise the request is forwarded to
`https://snapshot.debian.org` followed by the URI. A failing upstream client gives a
500 with `Error: <message>`. A successful upstream response creates (truncates) the
cache file, and its body is streamed to the client. Every chunk read from it is first
appended to the cache file.

The model has six modules:

- `Bytes` (bytes.dfy): the `byte` type, and the concatenation and splitting of
  frame sequences.
- `CachePath` (cache_path.dfy): `path_from_uri`, the four one-character
  replacements and the cache directory prefix, with the lemmas about which URIs
  share a file.
- `Http` (http.dfy): requests, responses, how a body stream ends, and the two
  status codes the handler uses.
- `CacheFs` (cache_fs.dfy): the cache directory as a class holding a map from path
  to file contents, and the shared file handle (`File::create`, `write_all`, `flush`)
  as a class that writes through to it.
- `Streaming` (streaming.dfy): the `InspectReader` callback feeding a `ReaderStream`. This is
  an imperative loop over the successive reads of the upstream body, specified by
  the functions `Emitted` and `EndOf`.
- `Dispatch` (dispatch.dfy): `get_cached_response`, `error_body`, and `proxy` as an
  imperative method. That method is proved equal to the specification function
  `Serve`, and the lemmas about one or two requests are stated over `Serve`.

The upstream client is an oracle value: `ClientError(text)`, or
`Reply(status, headers, reads)`. The reads are what the stream reader delivers, in
order. An empty read is end of stream. A read error ends the stream. Running out of
reads means the stream is still open, because the source has no timeout.

Facts of the code that the model keeps:
- The cache holds response bodies only; redirects are cached like any other body.
- A cache file carries no completeness marker. A body cut short by a read error stays
  in the cache and is later served as a complete 200 response (`TruncatedEntryIsServed`).
- Nothing coalesces concurrent misses for the same file.
- The forwarded request carries none of the client's headers.
- The upstream status and headers are discarded.
- The cache path ignores the method.

## Model

| member | source | states |
|---|---|---|
| `CachePath.Replace` | src/main.rs:149-152 | one-character `replace` keeps the length and replaces exactly the occurrences of the pattern, every other character staying in place |
| `CachePath.FileName` | src/main.rs:147-152 | the chain of four replacements has the length of the URI and maps each character to `_` if it is one of `/ ? & =`, else to itself |
| `CachePath.PathFromUri` | src/main.rs:145-156 | the path is `/var/lib/simple_http_cache/` followed by the file name; its length is the prefix length plus the URI length, and each URI character lands at the same offset after the prefix |
| `CachePath.NameIsFlat` | src/main.rs:146-153 | the file name after the directory prefix contains no `/`, `?`, `&` or `=`, so it is a single path component (see "## Left out" for `.`, `..` and the empty name) |
| `CachePath.SamePathIff` | src/main.rs:147-153 | two URIs share a cache path if and only if they have equal length and agree position by position once the four characters are mapped to `_` |
| `CachePath.SeparatorSwapSharesPath` | src/main.rs:149-152 | exchanging one of `/ ? & =` for another of them never changes the path |
| `CachePath.Collision` | src/main.rs:147-152 | `/a/b`, `/a?b`, `/a&b` and `/a=b` are distinct URIs with the same cache path |
| `CachePath.FileNameSharesPath` | src/main.rs:147-153 | a URI and its own file name map to the same cache path |
| `Bytes.Chunks` | src/main.rs:137-138 | reading a cached file through a fixed-size buffer yields non-empty frames, none longer than the buffer, whose concatenation is the file's bytes |
| `CacheFs.CacheFile.Create` | src/main.rs:87 | creating the cache file leaves it empty, whether or not it existed, and changes no other file |
| `CacheFs.CacheFile.WriteAll` | src/main.rs:98-99 | a write appends the whole chunk to that file only |
| `CacheFs.CacheFile.Flush` | src/main.rs:100-103 | a flush changes no file contents, and the flush is counted |
| `Streaming.EmittedAreReads` | src/main.rs:94-108 | the client gets at most one frame per read; each frame is non-empty and is exactly the read at the same position |
| `Streaming.EndFollowsFrames` | src/main.rs:98-107 | the read after the emitted frames decides how the stream ends: none left means open, an empty read means finished, an error means aborted with that error |
| `Streaming.Tee` | src/main.rs:89-108 | the loop emits `Emitted(reads)` and ends with `EndOf(reads)`; afterwards the file holds its old bytes followed by exactly the bytes sent to the client; no other file changes; exactly one flush happens, and only when the stream finished |
| `Dispatch.ErrorBody` | src/main.rs:122-126 | the error body is `Error: ` followed by the error text, and the text can be read back from it |
| `Dispatch.GetCachedResponse` | src/main.rs:130-143 | there is an answer if and only if the cache file of the URI exists; that answer carries exactly the file's bytes, with the default status and no headers |
| `Dispatch.Proxy` | src/main.rs:53-120 | the response, the new cache directory and the upstream request are those of `Serve` (the handling of one request as a function) on the old directory |
| `Dispatch.HitServesStored` | src/main.rs:130-142 | on a hit, the body is the stored bytes, with status 200 and no headers; the cache is unchanged and no upstream request is made, whatever upstream would say |
| `Dispatch.HitIsIdempotent` | src/main.rs:60-62 | two hits in a row change nothing and give identical outcomes |
| `Dispatch.MethodIgnored` | src/main.rs:133-134 | on a hit, the answer does not depend on the request method |
| `Dispatch.MissForwards` | src/main.rs:73-77 | a miss sends one upstream request, the one `Forwarded` builds: same method and body, no headers, URI `https://snapshot.debian.org` followed by the original URI |
| `Dispatch.ClientErrorCachesNothing` | src/main.rs:113-117 | when the upstream client fails, the answer is 500 with body `Error: ` plus the error text, and no cache file is created |
| `Dispatch.ReplyCachesSentBytes` | src/main.rs:81-110 | for every upstream status and headers, the cache file is created holding exactly the body bytes sent to the client; the client gets 200 and no headers; its frames are the upstream reads, unchanged and in order |
| `Dispatch.MissThenHit` | src/main.rs:86-142 | after a streamed miss, any later request with the same cache path is a hit: there is no upstream request, status 200, and byte-identical body |
| `Dispatch.CollidingUriServedFromOtherEntry` | src/main.rs:134-136 | a request for `/a?b` is answered from the file stored for `/a/b` without contacting upstream |
| `Dispatch.TruncatedEntryIsServed` | src/main.rs:105-107 | when the upstream body fails midway, the client's stream is aborted, but the next request is a finished 200 hit serving the partial bytes |

## Left out

- The TCP accept loop and the per-connection tasks (src/main.rs:30-51): networking and concurrency. Concurrent requests for the same path, and their interleaved writes to one file, are not modelled.
- The TLS connector and the hyper client call (src/main.rs:64-79): these are foreign library code. The upstream is an oracle value given to `Proxy`. That its one request is sent is recorded in the `forwarded` result.
- The filesystem is an in-memory map. Failures of `File::open` other than absence are not modelled, and a missing file is the only miss. The panics on a failed `File::create`, `write_all`, `flush` or cache file read (src/main.rs:87, 99, 102, 139) are not modelled: those operations always succeed here.
- A read error on the upstream body panics the serving task (src/main.rs:107). It is modelled only as the `Aborted` end of the client's stream, with the cache file keeping the bytes written so far. Process and task semantics are not modelled.
- Laziness and back-pressure: the body is streamed as the client consumes it, while `Proxy` runs the tee to the end of the given reads. A client that stops reading early is not modelled.
- Bytes.Chunks: a cached file is read in pieces of at most 4096 bytes, the default buffer of tokio-util's `ReaderStream`. Short reads that split a file differently are not modelled. Only the bytes matter to the lemmas.
- HTTP framing headers that hyper adds when it serializes a message (content length, chunked encoding, `Host`) are not modelled. `headers == []` means no headers set by this code.
- The cache directory is a map keyed by path strings, with no path resolution. A URI whose file name is `.` or `..` (possible for an authority-form target), or the empty name, gives a path that names the cache directory itself or its parent. In the source, `File::open` on such a directory succeeds, so the request is taken as a hit, and reading it panics (src/main.rs:136-139). The model treats such a path like any other key, so it is a miss unless that key was stored.
- All `println!` logging.
