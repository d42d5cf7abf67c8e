/** Frames on the wire, section 4.1 and section 6 of RFC 7540 (src/frame/frame.ts). */
module FrameCodec {
  import opened Bits
  import opened Results
  import opened WireNumbers
  import opened SettingsEntries
  import opened Frames

  const FRAME_HEADER_LENGTH: nat := 9

  type Parsed = Result<Frame, FrameError>

  // ----- what is written -----

  function Grease(f: Frame, greaseId: nat): Option<nat>
    requires f.SettingsFrame?
  {
    if f.grease then Some(greaseId) else None
  }

  function Payload(f: Frame, greaseId: nat): Bytes {
    match f
    case Data(_, _, payload) => payload
    case Headers(_, _, _, _, _, _, payload) => payload
    case PushPromise(_, _, _, _, _, payload) => payload
    case Continuation(_, _, _, payload) => payload
    case Priority(_, _, exclusive, dependency, weight) =>
      Be32((if exclusive then TWO31 else 0) + Low31(dependency)) + [Low8(weight)]
    case RstStream(_, _, errorCode) => Be32(errorCode)
    case SettingsFrame(_, _, ack, settings, order, grease) =>
      if ack then [] else EntriesOctets(Entries(settings, order, Grease(f, greaseId)))
    case Ping(_, _, _, opaqueData) => Be64(opaqueData)
    case Goaway(_, _, lastStreamId, errorCode, debugData) => Be32(Low31(lastStreamId)) + Be32(errorCode) + debugData
    case WindowUpdate(_, _, increment) => Be32(Low31(increment))
  }

  function Header(length: nat, frameType: byte, flags: int, streamId: int): (s: Bytes)
    ensures |s| == FRAME_HEADER_LENGTH
  {
    Be24(length) + [frameType, Low8(flags)] + Be32(Low31(streamId))
  }

  /** The octets of a frame; greaseId is the random id that a GREASE entry gets. */
  function Serialize(f: Frame, greaseId: nat): Bytes {
    var payload := Payload(f, greaseId);
    Header(|payload|, f.Type(), f.flags, f.streamId) + payload
  }

  // ----- what is read -----

  datatype FrameHeader = FrameHeader(frameType: byte, flags: byte, streamId: nat, length: nat)

  function ReadHeader(buf: Bytes): (r: Result<FrameHeader, FrameError>)
    ensures r.Ok? <==> |buf| >= FRAME_HEADER_LENGTH
  {
    if |buf| < FRAME_HEADER_LENGTH then Err(TooShort(0))
    else Ok(FrameHeader(buf[3], buf[4], Low31(Get32(buf, 5)), Get24(buf, 0)))
  }

  /** Types unknown to the standard are read as DATA. */
  function Decode(h: FrameHeader, payload: Bytes): Parsed {
    var flags, id := h.flags, h.streamId;
    match h.frameType
    case 1 => Ok(Headers(flags, id, EndHeadersBit(flags), EndStreamBit(flags), PaddedBit(flags), None, payload))
    case 2 =>
      if |payload| < 4 then Err(RangeError)
      else
        var dependency := Get32(payload, 0);
        Ok(Priority(flags, id, dependency >= TWO31, Low31(dependency), if |payload| > 4 then payload[4] else 0))
    case 3 => if |payload| < 4 then Err(RangeError) else Ok(RstStream(flags, id, Get32(payload, 0)))
    case 4 => Ok(SettingsFrame(flags, 0, AckBit(flags), ReadEntries(payload, |payload| / 6), None, false))
    case 5 =>
      if |payload| < 4 then Err(RangeError)
      else Ok(PushPromise(flags, id, EndHeadersBit(flags), PaddedBit(flags), Low31(Get32(payload, 0)), payload[4..]))
    case 6 => if |payload| < 8 then Err(RangeError) else Ok(Ping(flags, 0, AckBit(flags), Get64(payload, 0)))
    case 7 =>
      if |payload| < 8 then Err(RangeError)
      else Ok(Goaway(flags, 0, Low31(Get32(payload, 0)), Get32(payload, 4), payload[8..]))
    case 8 => if |payload| < 4 then Err(RangeError) else Ok(WindowUpdate(flags, id, Low31(Get32(payload, 0))))
    case 9 => Ok(Continuation(flags, id, EndHeadersBit(flags), payload))
    case _ => Ok(Data(flags, id, payload))
  }

  function Parse(buf: Bytes): Parsed {
    match ReadHeader(buf)
    case Err(e) => Err(e)
    case Ok(h) =>
      var end := FRAME_HEADER_LENGTH + h.length;
      if |buf| < end then Err(TooShort(FRAME_HEADER_LENGTH)) else Decode(h, buf[FRAME_HEADER_LENGTH..end])
  }

  // ----- the buffers -----

  method SetUint8(a: array<byte>, i: nat, v: int)
    requires i < a.Length
    modifies a
    ensures a[..] == old(a[..])[i := Low8(v)]
  {
    a[i] := Low8(v);
  }

  method SetUint16(a: array<byte>, i: nat, v: int)
    requires i + 2 <= a.Length
    modifies a
    ensures a[..] == old(a[..i]) + Be16(v) + old(a[i + 2..])
  {
    SetUint8(a, i, v / 0x100);
    SetUint8(a, i + 1, v);
  }

  method SetUint32(a: array<byte>, i: nat, v: int)
    requires i + 4 <= a.Length
    modifies a
    ensures a[..] == old(a[..i]) + Be32(v) + old(a[i + 4..])
  {
    SetUint8(a, i, v / 0x100_0000);
    SetUint8(a, i + 1, v / 0x1_0000);
    SetUint8(a, i + 2, v / 0x100);
    SetUint8(a, i + 3, v);
  }

  /** Copies s into a from i on. */
  method SetOctets(a: array<byte>, i: nat, s: Bytes)
    requires i + |s| <= a.Length
    modifies a
    ensures a[..] == old(a[..i]) + s + old(a[i + |s|..])
  {
    for k := 0 to |s|
      invariant a[..] == old(a[..i]) + s[..k] + old(a[i + k..])
    {
      assert s[..k + 1] == s[..k] + [s[k]];
      a[i + k] := s[k];
    }
    assert s[..|s|] == s;
  }

  method SerializeHeader(length: nat, frameType: byte, flags: int, streamId: int) returns (header: array<byte>)
    ensures fresh(header) && header[..] == Header(length, frameType, flags, streamId)
  {
    header := new byte[FRAME_HEADER_LENGTH](_ => 0);
    SetUint8(header, 0, length / 0x1_0000);
    SetUint8(header, 1, length / 0x100);
    SetUint8(header, 2, length);
    SetUint8(header, 3, frameType);
    SetUint8(header, 4, flags);
    SetUint32(header, 5, Low31(streamId));
  }

  method FromOctets(s: Bytes) returns (out: array<byte>)
    ensures fresh(out) && out[..] == s
  {
    out := new byte[|s|](_ => 0);
    SetOctets(out, 0, s);
  }

  method SerializePriority(exclusive: bool, dependency: int, weight: int) returns (out: array<byte>)
    ensures fresh(out) && out[..] == Be32((if exclusive then TWO31 else 0) + Low31(dependency)) + [Low8(weight)]
  {
    out := new byte[5](_ => 0);
    SetUint32(out, 0, (if exclusive then TWO31 else 0) + Low31(dependency));
    SetUint8(out, 4, weight);
  }

  method SerializeGoaway(lastStreamId: int, errorCode: int, debugData: Bytes) returns (out: array<byte>)
    ensures fresh(out) && out[..] == Be32(Low31(lastStreamId)) + Be32(errorCode) + debugData
  {
    out := new byte[8 + |debugData|](_ => 0);
    SetUint32(out, 0, Low31(lastStreamId));
    SetUint32(out, 4, errorCode);
    SetOctets(out, 8, debugData);
  }

  method SerializeEntries(entries: seq<Setting>) returns (out: array<byte>)
    ensures fresh(out) && out[..] == EntriesOctets(entries)
  {
    out := new byte[6 * |entries|](_ => 0);
    for i := 0 to |entries|
      invariant out[..6 * i] == EntriesOctets(entries[..i])
    {
      assert entries[..i + 1][..i] == entries[..i];
      ghost var before := out[..6 * i];
      SetUint16(out, 6 * i, entries[i].id);
      SetUint32(out, 6 * i + 2, entries[i].value);
      assert out[..6 * i + 6] == before + EntryOctets(entries[i]);
    }
    assert entries[..|entries|] == entries;
  }

  method SerializePayload(f: Frame, greaseId: nat) returns (out: array<byte>)
    ensures fresh(out) && out[..] == Payload(f, greaseId)
  {
    match f {
      case Data(_, _, payload) => out := FromOctets(payload);
      case Headers(_, _, _, _, _, _, payload) => out := FromOctets(payload);
      case PushPromise(_, _, _, _, _, payload) => out := FromOctets(payload);
      case Continuation(_, _, _, payload) => out := FromOctets(payload);
      case Priority(_, _, exclusive, dependency, weight) =>
        out := SerializePriority(exclusive, dependency, weight);
      case RstStream(_, _, errorCode) =>
        out := new byte[4](_ => 0);
        SetUint32(out, 0, errorCode);
      case SettingsFrame(_, _, ack, settings, order, grease) =>
        if ack {
          out := new byte[0];
        } else {
          var entries := CollectSettingsEntries(settings, order, Grease(f, greaseId));
          out := SerializeEntries(entries);
        }
      case Ping(_, _, _, opaqueData) =>
        out := new byte[8](_ => 0);
        SetUint32(out, 0, opaqueData / 0x1_0000_0000);
        SetUint32(out, 4, opaqueData);
      case Goaway(_, _, lastStreamId, errorCode, debugData) =>
        out := SerializeGoaway(lastStreamId, errorCode, debugData);
      case WindowUpdate(_, _, increment) =>
        out := new byte[4](_ => 0);
        SetUint32(out, 0, Low31(increment));
    }
  }

  method SerializeFrame(f: Frame, greaseId: nat) returns (out: array<byte>)
    ensures fresh(out) && out[..] == Serialize(f, greaseId)
  {
    var payload := SerializePayload(f, greaseId);
    var length := payload.Length;
    var header := SerializeHeader(length, f.Type(), f.flags, f.streamId);
    out := new byte[FRAME_HEADER_LENGTH + length](_ => 0);
    SetOctets(out, 0, header[..]);
    SetOctets(out, FRAME_HEADER_LENGTH, payload[..]);
  }

  method ParseFrame(buf: Bytes) returns (r: Parsed)
    ensures r == Parse(buf)
  {
    var header := ReadHeader(buf);
    if header.Err? {
      return Err(header.error);
    }
    var h := header.value;
    var payloadEnd := FRAME_HEADER_LENGTH + h.length;
    if |buf| < payloadEnd {
      return Err(TooShort(FRAME_HEADER_LENGTH));
    }
    var payload := buf[FRAME_HEADER_LENGTH..payloadEnd];
    if h.frameType == SETTINGS {
      var settings := DecodeSettings(payload);
      return Ok(SettingsFrame(h.flags, 0, AckBit(h.flags), settings, None, false));
    }
    return Decode(h, payload);
  }

  // ----- round trips -----

  lemma HeaderReadsBack(length: nat, frameType: byte, flags: int, streamId: int, payload: Bytes)
    ensures ReadHeader(Header(length, frameType, flags, streamId) + payload) ==
            Ok(FrameHeader(frameType, Low8(flags), Low31(streamId), Low24(length)))
  {
    var s := Header(length, frameType, flags, streamId) + payload;
    assert s[0..3] == Be24(length);
    assert s[5..9] == Be32(Low31(streamId));
    GetBe24(s, 0, length);
    GetBe32(s, 5, Low31(streamId));
  }

  /** A payload of 2^24 octets or more is read back cut short. */
  lemma ParseSerialized(f: Frame, greaseId: nat)
    ensures var payload := Payload(f, greaseId);
            var n := Low24(|payload|);
            Parse(Serialize(f, greaseId)) ==
            Decode(FrameHeader(f.Type(), Low8(f.flags), Low31(f.streamId), n), payload[..n])
  {
    var payload := Payload(f, greaseId);
    var n := Low24(|payload|);
    var header := Header(|payload|, f.Type(), f.flags, f.streamId);
    HeaderReadsBack(|payload|, f.Type(), f.flags, f.streamId, payload);
    assert (header + payload)[FRAME_HEADER_LENGTH..FRAME_HEADER_LENGTH + n] == payload[..n];
  }

  /**
   * What becomes of a frame whose payload is below 2^24 octets: numbers cut to their width, booleans
   * taken from the flags.
   */
  function Normal(f: Frame, greaseId: nat): Parsed {
    var flags, id := Low8(f.flags), Low31(f.streamId);
    match f
    case Data(_, _, payload) => Ok(Data(flags, id, payload))
    case Headers(_, _, _, _, _, _, payload) =>
      Ok(Headers(flags, id, EndHeadersBit(flags), EndStreamBit(flags), PaddedBit(flags), None, payload))
    case Priority(_, _, exclusive, dependency, weight) =>
      Ok(Priority(flags, id, exclusive, Low31(dependency), Low8(weight)))
    case RstStream(_, _, errorCode) => Ok(RstStream(flags, id, Low32(errorCode)))
    case SettingsFrame(_, _, ack, settings, order, _) =>
      var stored := if ack then map[] else Stored(Entries(settings, order, Grease(f, greaseId)));
      Ok(SettingsFrame(flags, 0, AckBit(flags), stored, None, false))
    case PushPromise(_, _, _, _, _, payload) =>
      if |payload| < 4 then Err(RangeError)
      else Ok(PushPromise(flags, id, EndHeadersBit(flags), PaddedBit(flags), Low31(Get32(payload, 0)), payload[4..]))
    case Ping(_, _, _, opaqueData) => Ok(Ping(flags, 0, AckBit(flags), Low64(opaqueData)))
    case Goaway(_, _, lastStreamId, errorCode, debugData) =>
      Ok(Goaway(flags, 0, Low31(lastStreamId), Low32(errorCode), debugData))
    case WindowUpdate(_, _, increment) => Ok(WindowUpdate(flags, id, Low31(increment)))
    case Continuation(_, _, _, payload) => Ok(Continuation(flags, id, EndHeadersBit(flags), payload))
  }

  function HeaderOf(f: Frame, length: nat): FrameHeader {
    FrameHeader(f.Type(), Low8(f.flags), Low31(f.streamId), length)
  }

  lemma Read32(v: int, tail: Bytes)
    ensures Get32(Be32(v) + tail, 0) == Low32(v)
  {
    var s := Be32(v) + tail;
    assert s[0..4] == Be32(v);
    GetBe32(s, 0, v);
  }

  lemma DecodePriority(f: Frame, greaseId: nat)
    requires f.Priority?
    ensures Decode(HeaderOf(f, 5), Payload(f, greaseId)) == Normal(f, greaseId)
  {
    Read32((if f.exclusive then TWO31 else 0) + Low31(f.streamDependency), [Low8(f.weight)]);
  }

  lemma WholeEntries(n: nat, octets: nat)
    requires octets == 6 * n
    ensures octets / 6 == n
  {
  }

  lemma AllEntriesReadBack(entries: seq<Setting>)
    ensures var payload := EntriesOctets(entries); ReadEntries(payload, |payload| / 6) == Stored(entries)
  {
    WholeEntries(|entries|, |EntriesOctets(entries)|);
    EntriesReadBack(entries);
  }

  lemma DecodeSettingsPayload(f: Frame, greaseId: nat)
    requires f.SettingsFrame?
    ensures Decode(HeaderOf(f, |Payload(f, greaseId)|), Payload(f, greaseId)) == Normal(f, greaseId)
  {
    if !f.ack {
      AllEntriesReadBack(Entries(f.settings, f.settingsOrder, Grease(f, greaseId)));
    }
  }

  lemma DecodePing(f: Frame, greaseId: nat)
    requires f.Ping?
    ensures Decode(HeaderOf(f, 8), Payload(f, greaseId)) == Normal(f, greaseId)
  {
    var s := Be64(f.opaqueData);
    assert s[0..8] == s;
    GetBe64(s, 0, f.opaqueData);
  }

  lemma DecodeGoaway(f: Frame, greaseId: nat)
    requires f.Goaway?
    ensures Decode(HeaderOf(f, |Payload(f, greaseId)|), Payload(f, greaseId)) == Normal(f, greaseId)
  {
    var s := Payload(f, greaseId);
    assert s[0..4] == Be32(Low31(f.lastStreamId)) && s[4..8] == Be32(f.errorCode) && s[8..] == f.debugData;
    GetBe32(s, 0, Low31(f.lastStreamId));
    GetBe32(s, 4, f.errorCode);
  }

  lemma DecodeOneNumber(f: Frame, greaseId: nat)
    requires f.RstStream? || f.WindowUpdate?
    ensures Decode(HeaderOf(f, 4), Payload(f, greaseId)) == Normal(f, greaseId)
  {
    var s := Payload(f, greaseId);
    Read32(if f.RstStream? then f.errorCode else Low31(f.windowSizeIncrement), []);
    assert s + [] == s;
  }

  lemma DecodePayload(f: Frame, greaseId: nat)
    ensures Decode(HeaderOf(f, |Payload(f, greaseId)|), Payload(f, greaseId)) == Normal(f, greaseId)
  {
    match f
    case Priority(_, _, _, _, _) => DecodePriority(f, greaseId);
    case SettingsFrame(_, _, _, _, _, _) => DecodeSettingsPayload(f, greaseId);
    case Ping(_, _, _, _) => DecodePing(f, greaseId);
    case Goaway(_, _, _, _, _) => DecodeGoaway(f, greaseId);
    case RstStream(_, _, _) => DecodeOneNumber(f, greaseId);
    case WindowUpdate(_, _, _) => DecodeOneNumber(f, greaseId);
    case _ =>
  }

  /** What comes back of any frame short enough for its length field. */
  lemma ParseNormalizes(f: Frame, greaseId: nat)
    requires |Payload(f, greaseId)| < TWO24
    ensures Parse(Serialize(f, greaseId)) == Normal(f, greaseId)
  {
    var payload := Payload(f, greaseId);
    ParseSerialized(f, greaseId);
    assert Low24(|payload|) == |payload| && payload[..|payload|] == payload;
    DecodePayload(f, greaseId);
  }

  predicate Agrees(f: Frame) {
    match f
    case Headers(flags, _, endHeaders, endStream, padded, _, _) =>
      endHeaders == EndHeadersBit(flags) && endStream == EndStreamBit(flags) && padded == PaddedBit(flags)
    case Continuation(flags, _, endHeaders, _) => endHeaders == EndHeadersBit(flags)
    case SettingsFrame(flags, _, ack, _, _, _) => ack == AckBit(flags)
    case Ping(flags, _, ack, _) => ack == AckBit(flags)
    case _ => true
  }

  /** In wire range, flags and booleans agreeing, and nothing in memory that the wire does not carry. */
  ghost predicate Canonical(f: Frame) {
    0 <= f.flags < 256 && 0 <= f.streamId < TWO31 && Agrees(f) &&
    match f
    case Data(_, _, payload) => |payload| < TWO24
    case Headers(_, _, _, _, _, priority, payload) => |payload| < TWO24 && priority.None?
    case Priority(_, _, _, dependency, weight) => 0 <= dependency < TWO31 && 0 <= weight < 256
    case RstStream(_, _, errorCode) => 0 <= errorCode < TWO32
    case SettingsFrame(_, id, ack, settings, order, grease) =>
      id == 0 && InRange(settings) && (ack ==> settings == map[]) && order.None? && !grease
    case PushPromise(_, _, _, _, _, _) => false
    case Ping(_, id, _, opaqueData) => id == 0 && 0 <= opaqueData < TWO64
    case Goaway(_, id, lastStreamId, errorCode, debugData) =>
      id == 0 && 0 <= lastStreamId < TWO31 && 0 <= errorCode < TWO32 && 8 + |debugData| < TWO24
    case WindowUpdate(_, _, increment) => 0 <= increment < TWO31
    case Continuation(_, _, _, payload) => |payload| < TWO24
  }

  lemma NormalSettings(f: Frame, greaseId: nat)
    requires f.SettingsFrame?
    ensures Normal(f, greaseId) == Ok(f) <==> Canonical(f)
  {
    var stored := Stored(Entries(f.settings, f.settingsOrder, Grease(f, greaseId)));
    StoredInRange(Entries(f.settings, f.settingsOrder, Grease(f, greaseId)));
    if InRange(f.settings) && f.settingsOrder.None? && !f.grease {
      StoredAsGiven(f.settings, None, None);
    }
  }

  lemma NormalNumbers(f: Frame, greaseId: nat)
    requires !f.SettingsFrame? && |Payload(f, greaseId)| < TWO24
    ensures Normal(f, greaseId) == Ok(f) <==> Canonical(f)
  {
    match f
    case PushPromise(_, _, _, _, _, payload) =>
      assert |payload| >= 4 ==> |payload[4..]| != |payload|;
    case _ =>
  }

  lemma NormalExactly(f: Frame, greaseId: nat)
    requires |Payload(f, greaseId)| < TWO24
    ensures Normal(f, greaseId) == Ok(f) <==> Canonical(f)
  {
    if f.SettingsFrame? {
      NormalSettings(f, greaseId);
    } else {
      NormalNumbers(f, greaseId);
    }
  }

  lemma CanonicalIsShort(f: Frame, greaseId: nat)
    requires Canonical(f)
    ensures |Payload(f, greaseId)| < TWO24
  {
    if f.SettingsFrame? && !f.ack {
      assert Entries(f.settings, None, None) == NaturalEntries(f.settings);
      NaturalFits(f.settings);
    }
  }

  /** A payload cut short never gives the frame back. */
  lemma LongNeverComesBack(f: Frame, greaseId: nat)
    requires |Payload(f, greaseId)| >= TWO24
    ensures Parse(Serialize(f, greaseId)) != Ok(f)
  {
    var payload := Payload(f, greaseId);
    var n := Low24(|payload|);
    ParseSerialized(f, greaseId);
    if f.SettingsFrame? {
      ReadInRange(payload[..n], n / 6);
      if Decode(HeaderOf(f, n), payload[..n]) == Ok(f) {
        assert Entries(f.settings, None, None) == NaturalEntries(f.settings);
        NaturalFits(f.settings);
      }
    }
  }

  /** Parsing what was serialized gives the frame back exactly when the frame is canonical. */
  lemma FrameRoundTrip(f: Frame, greaseId: nat)
    ensures Parse(Serialize(f, greaseId)) == Ok(f) <==> Canonical(f)
  {
    if |Payload(f, greaseId)| < TWO24 {
      ParseNormalizes(f, greaseId);
      NormalExactly(f, greaseId);
    } else {
      LongNeverComesBack(f, greaseId);
      if Canonical(f) {
        CanonicalIsShort(f, greaseId);
      }
    }
  }

  /** The settings survive any order, with repeats and omissions, and GREASE. */
  lemma SettingsRoundTrip(f: Frame, greaseId: nat)
    requires f.SettingsFrame? && !f.ack && InRange(f.settings) && greaseId < TWO16
    requires |Payload(f, greaseId)| < TWO24
    ensures Parse(Serialize(f, greaseId)) ==
            Ok(SettingsFrame(Low8(f.flags), 0, AckBit(Low8(f.flags)), WithGrease(f.settings, Grease(f, greaseId)),
                             None, false))
  {
    ParseNormalizes(f, greaseId);
    StoredAsGiven(f.settings, f.settingsOrder, Grease(f, greaseId));
  }

  /**
   * A PUSH_PROMISE never comes back, because the promised id is written only if the caller
   * put it in front of the payload; then it is read from there.
   */
  lemma PushPromiseRoundTrip(f: Frame, greaseId: nat)
    requires f.PushPromise? && |f.payload| < TWO24
    ensures Parse(Serialize(f, greaseId)) != Ok(f)
    ensures forall promised: int, block: Bytes :: f.payload == Be32(promised) + block ==>
              Parse(Serialize(f, greaseId)) ==
              Ok(PushPromise(Low8(f.flags), Low31(f.streamId), EndHeadersBit(Low8(f.flags)), PaddedBit(Low8(f.flags)),
                             Low31(Low32(promised)), block))
  {
    FrameRoundTrip(f, greaseId);
    ParseNormalizes(f, greaseId);
    forall promised: int, block: Bytes | f.payload == Be32(promised) + block
      ensures Normal(f, greaseId) ==
              Ok(PushPromise(Low8(f.flags), Low31(f.streamId), EndHeadersBit(Low8(f.flags)), PaddedBit(Low8(f.flags)),
                             Low31(Low32(promised)), block))
    {
      Read32(promised, block);
      assert f.payload[4..] == block;
    }
  }

  /** The shortest payload that a frame type can be read from. */
  function LeastPayload(frameType: byte): nat {
    if frameType == PRIORITY || frameType == RST_STREAM || frameType == PUSH_PROMISE ||
      frameType == WINDOW_UPDATE then 4
    else if frameType == PING || frameType == GOAWAY then 8
    else 0
  }

  /** Exactly which buffers hold a frame, of which type, and that the frame is all of its length and no more. */
  lemma ParsesExactly(buf: Bytes)
    ensures Parse(buf).Ok? <==>
            |buf| >= FRAME_HEADER_LENGTH &&
              |buf| >= FRAME_HEADER_LENGTH + Get24(buf, 0) >= FRAME_HEADER_LENGTH + LeastPayload(buf[3])
    ensures Parse(buf).Ok? ==>
              Parse(buf).value.Type() == (if buf[3] <= CONTINUATION then buf[3] else DATA) &&
              Parse(buf) == Parse(buf[..FRAME_HEADER_LENGTH + Get24(buf, 0)])
  {
    if Parse(buf).Ok? {
      var end := FRAME_HEADER_LENGTH + Get24(buf, 0);
      var front := buf[..end];
      assert Get24(front, 0) == Get24(buf, 0) && Get32(front, 5) == Get32(buf, 5);
      assert front[FRAME_HEADER_LENGTH..end] == buf[FRAME_HEADER_LENGTH..end];
    }
  }

  lemma DecodedIsCanonical(h: FrameHeader, payload: Bytes)
    requires h.streamId < TWO31 && |payload| < TWO24 && Decode(h, payload).Ok?
    ensures var f := Decode(h, payload).value;
            Canonical(f) <==> !f.PushPromise? && !(f.SettingsFrame? && f.ack && f.settings != map[])
  {
    match h.frameType
    case 4 => ReadInRange(payload, |payload| / 6);
    case 5 =>
    case _ => assert Canonical(Decode(h, payload).value);
  }

  /** Whatever is parsed serializes back to itself, but for promises and for acknowledgements that carry settings. */
  lemma ParsedIsCanonical(buf: Bytes)
    requires Parse(buf).Ok?
    ensures var f := Parse(buf).value;
            Canonical(f) <==> !f.PushPromise? && !(f.SettingsFrame? && f.ack && f.settings != map[])
  {
    var h := ReadHeader(buf).value;
    DecodedIsCanonical(h, buf[FRAME_HEADER_LENGTH..FRAME_HEADER_LENGTH + h.length]);
  }
}
