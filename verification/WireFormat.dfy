/** The octets of every frame in plain numbers, as section 4.1 and section 6 of RFC 7540 lay them out. */
module WireFormat {
  import opened Bits
  import opened Results
  import opened WireNumbers
  import opened SettingsEntries
  import opened Frames
  import opened FrameCodec

  /** The number that n octets hold, the highest octet first. */
  function Number(s: Bytes, i: nat, n: nat): nat
    requires i + n <= |s|
  {
    if n == 0 then 0 else Number(s, i, n - 1) * 256 + s[i + n - 1]
  }

  lemma ShortNumber(s: Bytes, i: nat)
    requires i + 2 <= |s|
    ensures Number(s, i, 2) == Get16(s, i)
  {
    var high: nat, low: nat := s[i], s[i + 1];
    assert Number(s, i, 0) == 0 && Number(s, i, 1) == high;
    assert Number(s, i, 2) == high * 256 + low;
  }

  lemma NumberIsGot(s: Bytes, i: nat)
    ensures i + 3 <= |s| ==> Number(s, i, 3) == Get24(s, i)
    ensures i + 4 <= |s| ==> Number(s, i, 4) == Get32(s, i)
  {
    if i + 3 <= |s| {
      ShortNumber(s, i);
    }
    if i + 4 <= |s| {
      var third: nat, last: nat := s[i + 2], s[i + 3];
      assert Number(s, i, 3) == Number(s, i, 2) * 256 + third;
      assert Number(s, i, 4) == Number(s, i, 3) * 256 + last;
    }
  }

  function Places(k: nat): nat {
    if k == 0 then 1 else if k == 1 then 0x100 else if k == 2 then 0x1_0000 else if k == 3 then 0x100_0000
    else 0x1_0000_0000
  }

  lemma {:induction false} NumberInParts(s: Bytes, i: nat, n: nat, k: nat)
    requires i + n + k <= |s| && k <= 4
    ensures Number(s, i, n + k) == Number(s, i, n) * Places(k) + Number(s, i + n, k)
    decreases k
  {
    if k == 0 {
      assert Number(s, i + n, 0) == 0;
    } else {
      NumberInParts(s, i, n, k - 1);
    }
  }

  lemma LongNumberIsGot(s: Bytes, i: nat)
    requires i + 8 <= |s|
    ensures Number(s, i, 8) == Get64(s, i)
  {
    NumberInParts(s, i, 4, 4);
    NumberIsGot(s, i);
    NumberIsGot(s, i + 4);
  }

  /** The number of a frame type. */
  function Code(f: Frame): nat {
    match f
    case Data(_, _, _) => 0
    case Headers(_, _, _, _, _, _, _) => 1
    case Priority(_, _, _, _, _) => 2
    case RstStream(_, _, _) => 3
    case SettingsFrame(_, _, _, _, _, _) => 4
    case PushPromise(_, _, _, _, _, _) => 5
    case Ping(_, _, _, _) => 6
    case Goaway(_, _, _, _, _) => 7
    case WindowUpdate(_, _, _) => 8
    case Continuation(_, _, _, _) => 9
  }

  /** Nine octets in front: length, type, flags, and the stream id without its highest bit. */
  lemma HeaderOnTheWire(f: Frame, greaseId: nat)
    requires |Payload(f, greaseId)| < 0x100_0000
    ensures var s, payload := Serialize(f, greaseId), Payload(f, greaseId);
            && |s| == 9 + |payload| && s[9..] == payload
            && Number(s, 0, 3) == |payload| && s[3] == Code(f) && s[4] == f.flags % 0x100
            && Number(s, 5, 4) == f.streamId % 0x8000_0000
  {
    var s, payload := Serialize(f, greaseId), Payload(f, greaseId);
    assert s[0..3] == Be24(|payload|) && s[5..9] == Be32(Low31(f.streamId));
    GetBe24(s, 0, |payload|);
    GetBe32(s, 5, Low31(f.streamId));
    NumberIsGot(s, 0);
    NumberIsGot(s, 5);
  }

  lemma Written32(v: int, s: Bytes, i: nat)
    requires i + 4 <= |s| && s[i..i + 4] == Be32(v)
    ensures Number(s, i, 4) == v % 0x1_0000_0000
  {
    GetBe32(s, i, v);
    NumberIsGot(s, i);
  }

  lemma PriorityOnTheWire(f: Frame)
    requires f.Priority?
    ensures var p := Payload(f, 0);
            && |p| == 5 && p[4] == f.weight % 0x100
            && Number(p, 0, 4) == f.streamDependency % 0x8000_0000 + (if f.exclusive then 0x8000_0000 else 0)
  {
    var p := Payload(f, 0);
    var v := (if f.exclusive then TWO31 else 0) + Low31(f.streamDependency);
    assert p[0..4] == Be32(v);
    Written32(v, p, 0);
  }

  lemma RstStreamOnTheWire(f: Frame)
    requires f.RstStream?
    ensures |Payload(f, 0)| == 4 && Number(Payload(f, 0), 0, 4) == f.errorCode % 0x1_0000_0000
  {
    var p := Payload(f, 0);
    assert p[0..4] == p;
    Written32(f.errorCode, p, 0);
  }

  lemma PingOnTheWire(f: Frame)
    requires f.Ping?
    ensures |Payload(f, 0)| == 8 && Number(Payload(f, 0), 0, 8) == f.opaqueData % 0x1_0000_0000_0000_0000
  {
    var p := Payload(f, 0);
    assert p[0..8] == p;
    GetBe64(p, 0, f.opaqueData);
    LongNumberIsGot(p, 0);
  }

  lemma GoawayOnTheWire(f: Frame)
    requires f.Goaway?
    ensures var p := Payload(f, 0);
            && |p| == 8 + |f.debugData| && p[8..] == f.debugData
            && Number(p, 0, 4) == f.lastStreamId % 0x8000_0000 && Number(p, 4, 4) == f.errorCode % 0x1_0000_0000
  {
    var p := Payload(f, 0);
    assert p[0..4] == Be32(Low31(f.lastStreamId)) && p[4..8] == Be32(f.errorCode);
    Written32(Low31(f.lastStreamId), p, 0);
    Written32(f.errorCode, p, 4);
  }

  lemma WindowUpdateOnTheWire(f: Frame)
    requires f.WindowUpdate?
    ensures |Payload(f, 0)| == 4 && Number(Payload(f, 0), 0, 4) == f.windowSizeIncrement % 0x8000_0000
  {
    var p := Payload(f, 0);
    assert p[0..4] == p;
    Written32(Low31(f.windowSizeIncrement), p, 0);
  }

  /** The other payloads are the octets given; an acknowledgement of settings has none. */
  lemma OctetsOnTheWire(f: Frame, greaseId: nat)
    ensures f.Data? || f.Headers? || f.PushPromise? || f.Continuation? ==> Payload(f, greaseId) == f.payload
    ensures f.SettingsFrame? && f.ack ==> Payload(f, greaseId) == []
    ensures f.SettingsFrame? && !f.ack ==>
              Payload(f, greaseId) ==
              EntriesOctets(Entries(f.settings, f.settingsOrder, if f.grease then Some(greaseId) else None))
    ensures !f.SettingsFrame? ==> Payload(f, greaseId) == Payload(f, 0)
  {
  }

  lemma EntryOnTheWire(e: Setting)
    ensures var s := EntryOctets(e);
            Number(s, 0, 2) == e.id % 0x1_0000 && Number(s, 2, 4) == e.value % 0x1_0000_0000
  {
    var s := EntryOctets(e);
    assert s[0..2] == Be16(e.id) && s[2..6] == Be32(e.value);
    GetBe16(s, 0, e.id);
    ShortNumber(s, 0);
    Written32(e.value, s, 2);
  }

  lemma {:induction false} SameNumber(s: Bytes, i: nat, t: Bytes, j: nat, n: nat)
    requires i + n <= |s| && j + n <= |t| && s[i..i + n] == t[j..j + n]
    ensures Number(s, i, n) == Number(t, j, n)
  {
    if n == 0 {
    } else {
      assert s[i..i + (n - 1)] == s[i..i + n][..n - 1] && t[j..j + (n - 1)] == t[j..j + n][..n - 1];
      SameNumber(s, i, t, j, n - 1);
      assert s[i + n - 1] == s[i..i + n][n - 1] == t[j..j + n][n - 1] == t[j + n - 1];
    }
  }

  /** Six octets for each setting, in order: its id and its value. */
  lemma {:induction false} EntriesOnTheWire(entries: seq<Setting>, i: nat)
    requires i < |entries|
    ensures var s := EntriesOctets(entries);
            && |s| == 6 * |entries| && Number(s, 6 * i, 2) == entries[i].id % 0x1_0000
            && Number(s, 6 * i + 2, 4) == entries[i].value % 0x1_0000_0000
    decreases |entries|
  {
    var n := |entries| - 1;
    var s, front, last := EntriesOctets(entries), EntriesOctets(entries[..n]), EntryOctets(entries[n]);
    if i == n {
      EntryOnTheWire(entries[n]);
      SameNumber(s, 6 * n, last, 0, 2);
      SameNumber(s, 6 * n + 2, last, 2, 4);
    } else {
      EntriesOnTheWire(entries[..n], i);
      SameNumber(s, 6 * i, front, 6 * i, 2);
      SameNumber(s, 6 * i + 2, front, 6 * i + 2, 4);
    }
  }

  // ----- what is read -----

  lemma OneBit(flags: int, d: nat, e: nat)
    requires (d == 4 && e == 8) || (d == 8 && e == 16)
    ensures flags / d % 2 == 1 <==> flags % e >= d
  {
    var q, r := flags / e, flags % e;
    if r >= d {
      DivMod(flags, 2 * q + 1, d, r - d);
    } else {
      DivMod(flags, 2 * q, d, r);
    }
  }

  lemma BitsInNumbers(flags: int)
    ensures EndStreamBit(flags) <==> flags % 2 == 1
    ensures AckBit(flags) <==> flags % 2 == 1
    ensures EndHeadersBit(flags) <==> flags % 8 >= 4
    ensures PaddedBit(flags) <==> flags % 16 >= 8
  {
    OneBit(flags, 4, 8);
    OneBit(flags, 8, 16);
  }

  /** The octets behind the nine of the header, as many as it says. */
  function PayloadOf(buf: Bytes): Bytes
    requires |buf| >= 9 && |buf| >= 9 + Number(buf, 0, 3)
  {
    buf[9..9 + Number(buf, 0, 3)]
  }

  lemma HeaderRead(buf: Bytes)
    requires Parse(buf).Ok?
    ensures |buf| >= 9 && |buf| >= 9 + Number(buf, 0, 3)
    ensures Parse(buf) ==
            Decode(FrameHeader(buf[3], buf[4], Number(buf, 5, 4) % 0x8000_0000, Number(buf, 0, 3)), PayloadOf(buf))
  {
    NumberIsGot(buf, 0);
    NumberIsGot(buf, 5);
  }

  /** A frame has the type, the flags and the stream of its header, bit by bit; some types are on no stream. */
  lemma FlagsRead(buf: Bytes)
    requires Parse(buf).Ok?
    ensures |buf| >= 9
    ensures var f, flags, id := Parse(buf).value, buf[4] as int, Number(buf, 5, 4) % 0x8000_0000;
            && Code(f) == (if buf[3] <= 9 then buf[3] else 0) && f.flags == flags
            && f.streamId == (if buf[3] == 4 || buf[3] == 6 || buf[3] == 7 then 0 else id)
            && (f.Headers? ==> (f.endHeaders <==> flags % 8 >= 4) && (f.padded <==> flags % 16 >= 8) &&
                               (f.endStream <==> flags % 2 == 1) && f.priority.None?)
            && (f.PushPromise? ==> (f.endHeaders <==> flags % 8 >= 4) && (f.padded <==> flags % 16 >= 8))
            && (f.Continuation? ==> (f.endHeaders <==> flags % 8 >= 4))
            && (f.SettingsFrame? || f.Ping? ==> (f.ack <==> flags % 2 == 1))
  {
    HeaderRead(buf);
    BitsInNumbers(buf[4] as int);
  }

  /** What each type reads from its payload. */
  lemma PayloadRead(buf: Bytes)
    requires Parse(buf).Ok?
    ensures |buf| >= 9 && |buf| >= 9 + Number(buf, 0, 3)
    ensures var f, p := Parse(buf).value, PayloadOf(buf);
            && (f.Data? || f.Headers? || f.Continuation? ==> f.payload == p)
            && (f.PushPromise? ==>
                |p| >= 4 && f.promisedStreamId == Number(p, 0, 4) % 0x8000_0000 && f.payload == p[4..])
            && (f.RstStream? ==> |p| >= 4 && f.errorCode == Number(p, 0, 4))
            && (f.WindowUpdate? ==> |p| >= 4 && f.windowSizeIncrement == Number(p, 0, 4) % 0x8000_0000)
            && (f.Ping? ==> |p| >= 8 && f.opaqueData == Number(p, 0, 8))
  {
    HeaderRead(buf);
    var p := PayloadOf(buf);
    NumberIsGot(p, 0);
    if |p| >= 8 {
      LongNumberIsGot(p, 0);
    }
  }

  lemma OtherPayloadRead(buf: Bytes)
    requires Parse(buf).Ok?
    ensures |buf| >= 9 && |buf| >= 9 + Number(buf, 0, 3)
    ensures var f, p := Parse(buf).value, PayloadOf(buf);
            && (f.Priority? ==> |p| >= 4 && f.streamDependency == Number(p, 0, 4) % 0x8000_0000 &&
                                (f.exclusive <==> Number(p, 0, 4) >= 0x8000_0000) &&
                                f.weight == if |p| > 4 then p[4] as int else 0)
            && (f.Goaway? ==> |p| >= 8 && f.lastStreamId == Number(p, 0, 4) % 0x8000_0000 &&
                              f.errorCode == Number(p, 4, 4) && f.debugData == p[8..])
  {
    HeaderRead(buf);
    var p := PayloadOf(buf);
    NumberIsGot(p, 0);
    NumberIsGot(p, 4);
  }

  predicate IsEntry(p: Bytes, i: nat, id: nat) {
    6 * i + 6 <= |p| && Number(p, 6 * i, 2) == id
  }

  /** Settings are read six octets at a time, later ones replacing earlier ones; a rest of less than six is ignored. */
  lemma {:induction false} SettingsRead(p: Bytes, n: nat, id: nat)
    requires 6 * n <= |p|
    ensures id in ReadEntries(p, n) <==> exists i: nat :: i < n && IsEntry(p, i, id)
    ensures forall i: nat :: i < n && IsEntry(p, i, id) && (forall j: nat :: i < j < n ==> !IsEntry(p, j, id)) ==>
              id in ReadEntries(p, n) && ReadEntries(p, n)[id] == Number(p, 6 * i + 2, 4)
  {
    if n == 0 {
    } else {
      SettingsRead(p, n - 1, id);
      ShortNumber(p, 6 * n - 6);
      NumberIsGot(p, 6 * n - 4);
      assert IsEntry(p, n - 1, id) <==> Get16(p, 6 * n - 6) == id;
    }
  }

  /** Why a buffer holds no frame: fewer than nine octets, fewer than its header says, or too few for its type. */
  lemma ParseErrors(buf: Bytes)
    ensures Parse(buf) == Err(TooShort(0)) <==> |buf| < 9
    ensures Parse(buf) == Err(TooShort(9)) <==> |buf| >= 9 && |buf| < 9 + Number(buf, 0, 3)
    ensures Parse(buf).Err? ==> Parse(buf).error in {TooShort(0), TooShort(9), RangeError}
    ensures Parse(buf) == Err(RangeError) <==>
            |buf| >= 9 && |buf| >= 9 + Number(buf, 0, 3) &&
            ((buf[3] in {2, 3, 5, 8} && Number(buf, 0, 3) < 4) || (buf[3] in {6, 7} && Number(buf, 0, 3) < 8))
  {
    NumberIsGot(buf, 0);
  }
}
