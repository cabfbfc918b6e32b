/** Bytes, byte chunks and the joining and splitting of chunk sequences. */
module Bytes {

  newtype byte = x: int | 0 <= x < 256

  /** The bytes of a sequence of frames, laid end to end. */
  function Concat(frames: seq<seq<byte>>): seq<byte>
  {
    if frames == [] then [] else frames[0] + Concat(frames[1..])
  }

  /** Appending one frame appends its bytes. */
  lemma {:induction false} ConcatAppend(frames: seq<seq<byte>>, chunk: seq<byte>)
    ensures Concat(frames + [chunk]) == Concat(frames) + chunk
  {
    if frames == [] {
      assert frames + [chunk] == [chunk];
      assert Concat([chunk]) == chunk + Concat([]);
    } else {
      assert (frames + [chunk])[0] == frames[0];
      assert (frames + [chunk])[1..] == frames[1..] + [chunk];
      ConcatAppend(frames[1..], chunk);
    }
  }

  /** Splits `data` into consecutive non-empty pieces of at most `size` bytes,
      as a reader with a `size`-byte buffer delivers a file. */
  function Chunks(data: seq<byte>, size: nat): (pieces: seq<seq<byte>>)
    requires size > 0
    ensures Concat(pieces) == data
    ensures forall k :: 0 <= k < |pieces| ==> 0 < |pieces[k]| <= size
    decreases |data|
  {
    if data == [] then []
    else if |data| <= size then
      assert Concat([data]) == data + Concat([]);
      [data]
    else
      var rest := Chunks(data[size..], size);
      assert ([data[..size]] + rest)[1..] == rest;
      assert data[..size] + data[size..] == data;
      [data[..size]] + rest
  }

  /** The bytes of an ASCII string. */
  function Ascii(s: string): (b: seq<byte>)
    requires forall i :: 0 <= i < |s| ==> s[i] as int < 128
    ensures |b| == |s| && forall i :: 0 <= i < |s| ==> b[i] as int == s[i] as int
  {
    seq(|s|, i requires 0 <= i < |s| => s[i] as int as byte)
  }
}
