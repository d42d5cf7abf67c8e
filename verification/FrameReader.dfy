/** Frames put together from what a transport delivers (src/connection.ts:428-459). */
module FrameReader {
  import opened Bits
  import opened Results
  import opened WireNumbers
  import opened Frames
  import opened FrameCodec

  /** The octets of the first frame of a byte stream, and those behind it. */
  datatype Split = Incomplete | First(octets: Bytes, rest: Bytes)

  function FrameLength(s: Bytes): (n: nat)
    requires |s| >= FRAME_HEADER_LENGTH
    ensures n >= FRAME_HEADER_LENGTH
  {
    FRAME_HEADER_LENGTH + Get24(s, 0)
  }

  function SplitFirst(s: Bytes): (r: Split)
    ensures r.First? ==> r.octets + r.rest == s && |r.octets| >= FRAME_HEADER_LENGTH
  {
    if |s| < FRAME_HEADER_LENGTH || |s| < FrameLength(s) then Incomplete
    else First(s[..FrameLength(s)], s[FrameLength(s)..])
  }

  /** The frames of a byte stream, up to the first that does not parse. */
  function FramesOf(s: Bytes): seq<Parsed>
    decreases |s|
  {
    match SplitFirst(s)
    case Incomplete => []
    case First(octets, rest) =>
      var f := Parse(octets);
      if f.Err? then [f] else [f] + FramesOf(rest)
  }

  /** The transport ended, or a frame arrived that may not parse. */
  datatype ReadResult = Ended | Got(frame: Parsed)

  lemma NextChunk(read: Bytes, chunks: seq<Bytes>)
    requires chunks != []
    ensures read + Join(chunks) == read + chunks[0] + Join(chunks[1..])
  {
    assert chunks == [chunks[0]] + chunks[1..];
    JoinCons(chunks[0], chunks[1..]);
    assert read + (chunks[0] + Join(chunks[1..])) == read + chunks[0] + Join(chunks[1..]);
  }

  class FrameReader {
    var readBuffer: Bytes
    /** What the transport will deliver, read by read; a read may deliver nothing. */
    var chunks: seq<Bytes>

    constructor (chunks: seq<Bytes>)
      ensures readBuffer == [] && this.chunks == chunks
    {
      readBuffer := [];
      this.chunks := chunks;
    }

    /** Everything not yet read as frames. */
    ghost function Stream(): Bytes
      reads this
    {
      readBuffer + Join(chunks)
    }

    method ReadOneFrame() returns (r: ReadResult)
      modifies this
      ensures match SplitFirst(old(Stream()))
              case Incomplete => r == Ended && chunks == [] && readBuffer == old(readBuffer)
              case First(octets, rest) =>
                r == Got(Parse(octets)) && Stream() == rest &&
                exists n: nat :: n <= |old(chunks)| && chunks == old(chunks)[n..]
    {
      ghost var all, given, n := Stream(), chunks, 0;
      var headerBytes := readBuffer;
      while |headerBytes| < FRAME_HEADER_LENGTH
        invariant headerBytes + Join(chunks) == all && readBuffer == old(readBuffer)
        invariant n <= |given| && chunks == given[n..]
        decreases |chunks|
      {
        if chunks == [] {
          assert headerBytes == all;
          return Ended;
        }
        NextChunk(headerBytes, chunks);
        headerBytes, chunks := headerBytes + chunks[0], chunks[1..];
        n := n + 1;
      }
      var total := FrameLength(headerBytes);
      var frameBytes := headerBytes;
      while |frameBytes| < total
        invariant frameBytes + Join(chunks) == all && readBuffer == old(readBuffer)
        invariant n <= |given| && chunks == given[n..]
        invariant headerBytes <= frameBytes && headerBytes <= all
        decreases |chunks|
      {
        if chunks == [] {
          assert frameBytes == all;
          return Ended;
        }
        NextChunk(frameBytes, chunks);
        frameBytes, chunks := frameBytes + chunks[0], chunks[1..];
        n := n + 1;
      }
      readBuffer := frameBytes[total..];
      assert FrameLength(all) == total && all[..total] == frameBytes[..total];
      assert all[total..] == readBuffer + Join(chunks);
      var f := ParseFrame(frameBytes[..total]);
      return Got(f);
    }
  }

  lemma NextFrame(s: Bytes, octets: Bytes, rest: Bytes, f: Parsed)
    requires SplitFirst(s) == First(octets, rest) && f == Parse(octets)
    ensures FramesOf(s) == if f.Err? then [f] else [f] + FramesOf(rest)
    ensures |rest| < |s|
  {
    assert octets + rest == s;
  }

  // ----- streams of serialized frames -----

  /** The octets of frames written one behind the other, each with the GREASE id it may need. */
  function Written(frames: seq<Frame>, greaseIds: seq<nat>): Bytes
    requires |frames| == |greaseIds|
  {
    if frames == [] then [] else Serialize(frames[0], greaseIds[0]) + Written(frames[1..], greaseIds[1..])
  }

  function Normals(frames: seq<Frame>, greaseIds: seq<nat>): seq<Parsed>
    requires |frames| == |greaseIds|
  {
    if frames == [] then [] else [Normal(frames[0], greaseIds[0])] + Normals(frames[1..], greaseIds[1..])
  }

  ghost predicate Readable(frames: seq<Frame>, greaseIds: seq<nat>)
    requires |frames| == |greaseIds|
  {
    forall i :: 0 <= i < |frames| ==> |Payload(frames[i], greaseIds[i])| < TWO24 && Normal(frames[i], greaseIds[i]).Ok?
  }

  lemma LengthOfSerialized(f: Frame, greaseId: nat, s: Bytes)
    requires |Payload(f, greaseId)| < TWO24 && Serialize(f, greaseId) <= s
    ensures |s| >= FRAME_HEADER_LENGTH && FrameLength(s) == |Serialize(f, greaseId)|
  {
    assert s[0..3] == Serialize(f, greaseId)[0..3] == Be24(|Payload(f, greaseId)|);
    GetBe24(s, 0, |Payload(f, greaseId)|);
  }

  lemma SplitSerialized(f: Frame, greaseId: nat, rest: Bytes)
    requires |Payload(f, greaseId)| < TWO24
    ensures SplitFirst(Serialize(f, greaseId) + rest) == First(Serialize(f, greaseId), rest)
  {
    var octets := Serialize(f, greaseId);
    var s := octets + rest;
    LengthOfSerialized(f, greaseId, s);
    assert s[..|octets|] == octets && s[|octets|..] == rest;
  }

  /** One frame in front. */
  lemma OneMoreReadsBack(f: Frame, greaseId: nat, rest: Bytes)
    requires |Payload(f, greaseId)| < TWO24 && Normal(f, greaseId).Ok?
    ensures FramesOf(Serialize(f, greaseId) + rest) == [Normal(f, greaseId)] + FramesOf(rest)
  {
    SplitSerialized(f, greaseId, rest);
    ParseNormalizes(f, greaseId);
  }

  lemma FirstWritten(frames: seq<Frame>, greaseIds: seq<nat>, tail: Bytes)
    requires |frames| == |greaseIds| && frames != []
    ensures Written(frames, greaseIds) + tail ==
            Serialize(frames[0], greaseIds[0]) + (Written(frames[1..], greaseIds[1..]) + tail)
    ensures Normals(frames, greaseIds) == [Normal(frames[0], greaseIds[0])] + Normals(frames[1..], greaseIds[1..])
  {
  }

  lemma ParsedInFront(first: seq<Parsed>, a: seq<Parsed>, b: seq<Parsed>, c: seq<Parsed>)
    requires a == b + c
    ensures first + a == first + b + c
  {
  }

  lemma RestReadable(frames: seq<Frame>, greaseIds: seq<nat>)
    requires |frames| == |greaseIds| && frames != [] && Readable(frames, greaseIds)
    ensures |Payload(frames[0], greaseIds[0])| < TWO24 && Normal(frames[0], greaseIds[0]).Ok?
    ensures Readable(frames[1..], greaseIds[1..])
  {
  }

  /** However it is cut into chunks, what was written frame by frame is read frame by frame. */
  lemma {:induction false} WrittenReadsBack(frames: seq<Frame>, greaseIds: seq<nat>, tail: Bytes)
    requires |frames| == |greaseIds| && Readable(frames, greaseIds)
    ensures FramesOf(Written(frames, greaseIds) + tail) == Normals(frames, greaseIds) + FramesOf(tail)
    decreases |frames|
  {
    if frames == [] {
      assert [] + tail == tail;
    } else {
      var rest := Written(frames[1..], greaseIds[1..]) + tail;
      RestReadable(frames, greaseIds);
      FirstWritten(frames, greaseIds, tail);
      OneMoreReadsBack(frames[0], greaseIds[0], rest);
      WrittenReadsBack(frames[1..], greaseIds[1..], tail);
      ParsedInFront([Normal(frames[0], greaseIds[0])], FramesOf(rest), Normals(frames[1..], greaseIds[1..]),
                    FramesOf(tail));
    }
  }

  lemma {:induction false} NormalsAt(frames: seq<Frame>, greaseIds: seq<nat>)
    requires |frames| == |greaseIds|
    ensures |Normals(frames, greaseIds)| == |frames|
    ensures forall i :: 0 <= i < |frames| ==> Normals(frames, greaseIds)[i] == Normal(frames[i], greaseIds[i])
  {
    if frames == [] {
    } else {
      NormalsAt(frames[1..], greaseIds[1..]);
    }
  }

  /** Canonical frames come back as they are. */
  lemma CanonicalReadsBack(frames: seq<Frame>, greaseIds: seq<nat>)
    requires |frames| == |greaseIds| && forall i :: 0 <= i < |frames| ==> Canonical(frames[i])
    ensures FramesOf(Written(frames, greaseIds)) == seq(|frames|, i requires 0 <= i < |frames| => Ok(frames[i]))
  {
    forall i | 0 <= i < |frames|
      ensures |Payload(frames[i], greaseIds[i])| < TWO24 && Normal(frames[i], greaseIds[i]) == Ok(frames[i])
    {
      CanonicalIsShort(frames[i], greaseIds[i]);
      NormalExactly(frames[i], greaseIds[i]);
    }
    WrittenReadsBack(frames, greaseIds, []);
    assert Written(frames, greaseIds) + [] == Written(frames, greaseIds);
    NormalsAt(frames, greaseIds);
  }
}
