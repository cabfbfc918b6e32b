/** The streaming tee of a successful upstream response: every chunk the reader
    delivers is written to the cache file and sent on to the client as a data
    frame (the `InspectReader` callback feeding a `ReaderStream`). */
module Streaming {
  import opened Bytes
  import opened Http
  import opened CacheFs

  /** One read of the upstream body: the bytes it delivered (none at end of
      stream), or the error it failed with. */
  datatype Read = Chunk(data: seq<byte>) | ReadError(error: seq<byte>)

  /** The frames the client receives: the data of the reads before the first
      empty read or error, each unchanged and in arrival order. */
  function Emitted(input: seq<Read>): seq<seq<byte>>
  {
    if input == [] then []
    else match input[0]
      case Chunk(data) => if data == [] then [] else [data] + Emitted(input[1..])
      case ReadError(_) => []
  }

  /** The client receives no more frames than there were reads, each frame is
      non-empty and is exactly the data of the read at the same position. */
  lemma {:induction false} EmittedAreReads(input: seq<Read>)
    ensures |Emitted(input)| <= |input|
    ensures forall k :: 0 <= k < |Emitted(input)| ==> input[k] == Chunk(Emitted(input)[k]) && Emitted(input)[k] != []
  {
    if input != [] && input[0].Chunk? && input[0].data != [] {
      EmittedAreReads(input[1..]);
    }
  }

  /** How the client's body stream ends. */
  function EndOf(input: seq<Read>): BodyEnd
  {
    if input == [] then Open
    else match input[0]
      case Chunk(data) => if data == [] then Finished else EndOf(input[1..])
      case ReadError(e) => Aborted(e)
  }

  /** The read right after the emitted frames decides the end: none left means
      still open, an empty read means finished, an error means aborted with it. */
  lemma {:induction false} EndFollowsFrames(input: seq<Read>)
    ensures var n := |Emitted(input)|;
      && (EndOf(input) == Open <==> n == |input|)
      && (EndOf(input) == Finished <==> n < |input| && input[n] == Chunk([]))
      && (EndOf(input).Aborted? <==> n < |input| && input[n].ReadError?)
      && (EndOf(input).Aborted? ==> EndOf(input).reason == input[n].error)
  {
    if input != [] && input[0].Chunk? && input[0].data != [] {
      EndFollowsFrames(input[1..]);
      assert Emitted(input) == [input[0].data] + Emitted(input[1..]);
    }
  }

  /** One step of Emitted and EndOf at position i of the reads. */
  lemma StepAt(input: seq<Read>, i: nat)
    requires i < |input|
    ensures input[i].Chunk? && input[i].data != [] ==>
      Emitted(input[i..]) == [input[i].data] + Emitted(input[i + 1..]) && EndOf(input[i..]) == EndOf(input[i + 1..])
    ensures input[i] == Chunk([]) ==> Emitted(input[i..]) == [] && EndOf(input[i..]) == Finished
    ensures input[i].ReadError? ==> Emitted(input[i..]) == [] && EndOf(input[i..]) == Aborted(input[i].error)
  {
    assert input[i..][0] == input[i] && input[i..][1..] == input[i + 1..];
  }

  /** Drives the upstream body through the tee: a non-empty read is appended to
      the cache file and then emitted; an empty read (end of stream) only
      flushes; a read error ends the stream with the error. Afterwards the file
      holds what it held before followed by exactly the bytes sent to the client. */
  method Tee(file: CacheFile, input: seq<Read>) returns (frames: seq<seq<byte>>, end: BodyEnd)
    requires file.Valid()
    modifies file, file.dir
    ensures frames == Emitted(input) && end == EndOf(input)
    ensures file.dir.files == old(file.dir.files)[file.path := old(file.dir.files[file.path]) + Concat(frames)]
    ensures file.flushes == old(file.flushes) + (if end == Finished then 1 else 0)
  {
    ghost var before := file.dir.files[file.path];
    frames, end := [], Open;
    var i := 0;
    assert before + Concat(frames) == before;
    assert file.dir.files == file.dir.files[file.path := before];
    while i < |input| && end == Open
      invariant 0 <= i <= |input|
      decreases |input| - i
      invariant file.Valid()
      invariant end == Open ==> Emitted(input) == frames + Emitted(input[i..]) && EndOf(input) == EndOf(input[i..])
      invariant end != Open ==> Emitted(input) == frames && EndOf(input) == end
      invariant file.dir.files == old(file.dir.files)[file.path := before + Concat(frames)]
      invariant file.flushes == old(file.flushes) + (if end == Finished then 1 else 0)
    {
      StepAt(input, i);
      match input[i] {
        case Chunk(data) =>
          if |data| > 0 {
            file.WriteAll(data);
            ConcatAppend(frames, data);
            assert before + Concat(frames + [data]) == before + Concat(frames) + data;
            frames := frames + [data];
          } else {
            file.Flush();
            end := Finished;
          }
        case ReadError(e) =>
          end := Aborted(e);
      }
      i := i + 1;
    }
    assert end == Open ==> input[i..] == [];
  }
}
