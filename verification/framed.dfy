/**
 * Length-prefixed framing of a byte stream (matrix/db/detail/framed.cpp):
 * each frame is a header holding the payload length, followed by the
 * payload. The header is a `size_t`, written as its in-memory bytes; this
 * model takes it to be 8 bytes, least significant first (a 64-bit
 * little-endian host). matrix/db/detail/framed.hpp is not part of this
 * model.
 */
module Framing {
  import opened Wrappers

  const HeaderSize: nat := 8

  function Pow256(k: nat): (p: nat)
    ensures p >= 1
  {
    if k == 0 then 1 else 256 * Pow256(k - 1)
  }

  /** The largest payload a header can describe is below 2^64. */
  const SizeLimit: nat := Pow256(HeaderSize)

  /** `n` in `k` bytes, least significant first. */
  function EncodeLE(n: nat, k: nat): (bs: seq<Byte>)
    ensures |bs| == k
  {
    if k == 0 then [] else [n % 256] + EncodeLE(n / 256, k - 1)
  }

  function DecodeLE(bs: seq<Byte>): (n: nat)
    ensures n < Pow256(|bs|)
  {
    if bs == [] then 0 else bs[0] + 256 * DecodeLE(bs[1..])
  }

  lemma {:induction false} DecodeEncodeLE(n: nat, k: nat)
    requires n < Pow256(k)
    ensures DecodeLE(EncodeLE(n, k)) == n
  {
    if k > 0 {
      var bs := EncodeLE(n, k);
      assert bs[1..] == EncodeLE(n / 256, k - 1);
      DecodeEncodeLE(n / 256, k - 1);
    }
  }

  /** `WriteFrameHeader`: the payload length, as a header. */
  function FrameHeader(size: nat): (h: seq<Byte>)
    requires size < SizeLimit
    ensures |h| == HeaderSize && DecodeLE(h) == size
  {
    DecodeEncodeLE(size, HeaderSize);
    EncodeLE(size, HeaderSize)
  }

  /** The bytes of one frame: header, then payload. */
  function Frame(data: seq<Byte>): (f: seq<Byte>)
    requires |data| < SizeLimit
    ensures |f| == HeaderSize + |data| && f[HeaderSize..] == data
    ensures DecodeLE(f[..HeaderSize]) == |data|
  {
    assert (FrameHeader(|data|) + data)[..HeaderSize] == FrameHeader(|data|);
    FrameHeader(|data|) + data
  }

  predicate Framable(frames: seq<seq<Byte>>)
  {
    forall i :: 0 <= i < |frames| ==> |frames[i]| < SizeLimit
  }

  /** Several frames, one after the other. */
  function Frames(frames: seq<seq<Byte>>): seq<Byte>
    requires Framable(frames)
  {
    if frames == [] then [] else Frame(frames[0]) + Frames(frames[1..])
  }

  /** Why a frame could not be read: input ended inside a header, or
      inside the payload the header announced. */
  datatype FrameError = BrokenFrameHeader | ShortFrame

  /** `ReadNextFrame` on `input` from `offset`: nothing at the clean end of
      input, otherwise the header's size and that many payload bytes. */
  function NextFrame(input: seq<Byte>, offset: nat): (r: Result<Option<seq<Byte>>, FrameError>)
    requires offset <= |input|
    ensures r == Success(None) <==> offset == |input|
    ensures r == Failure(BrokenFrameHeader) <==> 0 < |input| - offset < HeaderSize
    ensures r.Success? && r.value.Some? ==>
      offset + HeaderSize + |r.value.value| <= |input| &&
      DecodeLE(input[offset..offset + HeaderSize]) == |r.value.value| &&
      r.value.value == input[offset + HeaderSize..offset + HeaderSize + |r.value.value|]
  {
    var remaining := |input| - offset;
    if remaining == 0 then Success(None)
    else if remaining < HeaderSize then Failure(BrokenFrameHeader)
    else
      var size := DecodeLE(input[offset..offset + HeaderSize]);
      if remaining - HeaderSize < size then Failure(ShortFrame)
      else Success(Some(input[offset + HeaderSize..offset + HeaderSize + size]))
  }

  /** Frames read one by one until the end of input or the first error. */
  function ReadAll(input: seq<Byte>, offset: nat): Result<seq<seq<Byte>>, FrameError>
    requires offset <= |input|
    decreases |input| - offset
  {
    match NextFrame(input, offset)
    case Failure(e) => Failure(e)
    case Success(None) => Success([])
    case Success(Some(data)) =>
      match ReadAll(input, offset + HeaderSize + |data|)
      case Failure(e) => Failure(e)
      case Success(more) => Success([data] + more)
  }

  /** A written frame, wherever it sits in the input, reads back as its
      payload. */
  lemma NextFrameOfFrame(prefix: seq<Byte>, d: seq<Byte>, rest: seq<Byte>)
    requires |d| < SizeLimit
    ensures NextFrame(prefix + Frame(d) + rest, |prefix|) == Success(Some(d))
  {
    var f := Frame(d);
    var input := prefix + f + rest;
    var o := |prefix|;
    assert input[o..o + |f|] == f;
    assert input[o..o + HeaderSize] == f[..HeaderSize];
    assert input[o + HeaderSize..o + HeaderSize + |d|] == f[HeaderSize..];
  }

  lemma FramableTail(frames: seq<seq<Byte>>)
    requires Framable(frames) && frames != []
    ensures Framable(frames[1..])
  {
    forall i | 0 <= i < |frames[1..]|
      ensures |frames[1..][i]| < SizeLimit
    {
      assert frames[1..][i] == frames[i + 1];
    }
  }

  /** Reading back a stream of written frames yields their payloads, in
      order, after whatever preceded them. */
  lemma {:induction false} ReadAllFrames(prefix: seq<Byte>, frames: seq<seq<Byte>>)
    requires Framable(frames)
    ensures ReadAll(prefix + Frames(frames), |prefix|) == Success(frames)
    decreases |frames|
  {
    if frames == [] {
      assert prefix + Frames(frames) == prefix;
    } else {
      var d := frames[0];
      FramableTail(frames);
      var rest := Frames(frames[1..]);
      assert prefix + Frames(frames) == (prefix + Frame(d)) + rest;
      NextFrameOfFrame(prefix, d, rest);
      ReadAllFrames(prefix + Frame(d), frames[1..]);
      assert [d] + frames[1..] == frames;
    }
  }

  /** The bytes every frame has been written to, in order. */
  class FramedWriter {
    var output: seq<Byte>
    var writes: nat    // calls of the underlying writer

    constructor ()
      ensures output == [] && writes == 0
    {
      output := [];
      writes := 0;
    }

    /** Builds header and payload in one buffer and writes it with a single
        write. */
    method WriteFrame(data: seq<Byte>)
      requires |data| < SizeLimit
      modifies this
      ensures output == old(output) + Frame(data) && writes == old(writes) + 1
    {
      var frame := FrameHeader(|data|);
      frame := frame + data;
      output := output + frame;
      writes := writes + 1;
    }
  }

  /** Reads frames from `input`, consuming them. */
  class FramedReader {
    const input: seq<Byte>
    var offset: nat

    constructor (input: seq<Byte>)
      ensures this.input == input && offset == 0
    {
      this.input := input;
      offset := 0;
    }

    /** The next frame's payload, or nothing at the end of input; on success
        the frame is consumed. */
    method ReadNextFrame() returns (r: Result<Option<seq<Byte>>, FrameError>)
      requires offset <= |input|
      modifies this
      ensures r == NextFrame(input, old(offset))
      ensures offset <= |input|
      ensures r.Success? && r.value.Some? ==> offset == old(offset) + HeaderSize + |r.value.value|
      ensures !(r.Success? && r.value.Some?) ==> offset == old(offset)
    {
      r := NextFrame(input, offset);
      if r.Success? && r.value.Some? {
        offset := offset + HeaderSize + |r.value.value|;
      }
    }
  }
}
