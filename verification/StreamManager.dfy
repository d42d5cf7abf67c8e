/** The stream manager (src/stream/stream.ts:297-826). */
module StreamManager {
  import opened Bits
  import opened Results
  import opened PrefixInteger
  import opened Frames
  import opened SettingsEntries
  import opened StreamTypes
  import opened StreamSteps
  import opened HpackHelpers

  lemma SetTwice(m: map<int, Stream>, id: int, a: Stream, b: Stream)
    ensures m[id := a][id := b] == m[id := b]
  {
  }

  class StreamManager {
    var streams: map<int, Stream>
    var order: seq<int>
    var pendingPush: map<int, int>
    var initialWindow: int
    var maxConcurrent: int
    var maxFrame: FrameSize
    var sendWindow: int
    var receiveWindow: int
    var nextId: int
    /** Every call, frame, event and callback so far. */
    var log: seq<Event>
    /** The function that DecodeHeaders computes. */
    ghost const decode: Decoder

    ghost function State(): Manager
      reads this
    {
      Manager(streams, order, pendingPush, initialWindow, maxConcurrent, maxFrame, sendWindow, receiveWindow,
              nextId, log)
    }

    ghost predicate Valid() {
      decode == HeadersOf
    }

    constructor ()
      ensures Valid() && State() == INITIAL_MANAGER
    {
      streams, order, pendingPush := map[], [], map[];
      initialWindow, maxConcurrent, maxFrame := DEFAULT_INITIAL_WINDOW_SIZE, DEFAULT_MAX_CONCURRENT_STREAMS, 16384;
      sendWindow, receiveWindow := DEFAULT_INITIAL_WINDOW_SIZE, DEFAULT_INITIAL_WINDOW_SIZE;
      nextId, log := 1, [];
      decode := HeadersOf;
    }

    // ----- send queue and flow control -----

    method DrainSendQueue(id: int)
      requires id in streams
      modifies this
      ensures State() == Drained(old(State()), id)
    {
      while |streams[id].sendQueue| > 0
        invariant id in streams && Drained(State(), id) == Drained(old(State()), id)
        decreases |streams[id].sendQueue|
      {
        var s := streams[id];
        if sendWindow <= 0 {
          return;
        }
        if s.localWindow <= 0 {
          return;
        }
        var cap := Min(maxFrame, Min(sendWindow, s.localWindow));
        if cap <= 0 {
          return;
        }
        SendFront(id, Min(cap, |s.sendQueue|));
      }
    }

    /** Sends the first octets of the queue; the last of all may end the stream. */
    method SendFront(id: int, chunkLen: nat)
      requires id in streams && chunkLen <= |streams[id].sendQueue|
      modifies this
      ensures State() == SendChunk(old(State()), id, chunkLen)
    {
      var s := streams[id];
      var isLast := s.sendQueueEndStream && chunkLen == |s.sendQueue|;
      var chunk := s.sendQueue[..chunkLen];
      log := log + [Sent(DataFrame(s.id, chunk, isLast))];
      sendWindow := sendWindow - chunkLen;
      streams := streams[id := s.(localWindow := s.localWindow - chunkLen, sendQueue := s.sendQueue[chunkLen..])];
    }

    method DrainAll()
      modifies this
      ensures State() == DrainedFrom(old(State()), 0)
    {
      for i := 0 to |order|
        invariant order == old(order) && DrainedFrom(State(), i) == DrainedFrom(old(State()), 0)
      {
        if order[i] in streams {
          DrainSendQueue(order[i]);
        }
      }
    }

    method SendData(id: int, data: Bytes, endStream: bool)
      modifies this
      ensures State() == AfterSendData(old(State()), id, data, endStream)
    {
      if id !in streams {
        return;
      }
      var s := streams[id];
      if |data| > 0 {
        s := s.(sendQueue := s.sendQueue + data);
      }
      if endStream {
        s := s.(sendQueueEndStream := true);
      }
      streams := streams[id := s];
      log := log + [Queued(id, data, endStream)];
      assert old(streams)[id].sendQueue + [] == old(streams)[id].sendQueue;
      assert State() == Enqueue(old(State()), id, data, endStream);
      DrainSendQueue(id);
    }

    method HandleWindowUpdate(id: int, increment: int)
      modifies this
      ensures State() == AfterWindowUpdate(old(State()), id, increment)
    {
      if id == 0 {
        sendWindow := sendWindow + increment;
        log := log + [ConnectionCredit(increment)];
        DrainAll();
        return;
      }
      if id !in streams {
        return;
      }
      var s := streams[id];
      streams := streams[id := s.(localWindow := s.localWindow + increment)];
      log := log + [StreamCredit(id, increment)];
      DrainSendQueue(id);
    }

    // ----- settings -----

    method ApplySetting(key: int, value: int)
      modifies this
      ensures State() == AfterSetting(old(State()), Setting(key, value))
    {
      match key {
        case 3 =>
          maxConcurrent := value;
        case 4 =>
          // The windows do not depend on each other, so they move in one assignment.
          var delta := value - initialWindow;
          initialWindow := value;
          streams := Shifted(streams, delta);
          log := log + [InitialWindow(value)];
          DrainAll();
        case 5 =>
          maxFrame := ClampMaxFrameSize(value);
          log := log + [MaxFrame(maxFrame)];
        case _ =>
      }
    }

    method ApplyRemoteSettings(settings: Settings)
      modifies this
      ensures State() == AfterSettings(old(State()), NaturalEntries(settings))
    {
      var entries := NaturalEntries(settings);
      var i := 0;
      assert entries[0..] == entries;
      while i < |entries|
        invariant i <= |entries|
        invariant AfterSettings(State(), entries[i..]) == AfterSettings(old(State()), entries)
      {
        assert entries[i..][0] == entries[i] && entries[i..][1..] == entries[i + 1..];
        ApplySetting(entries[i].id, entries[i].value);
        i := i + 1;
      }
    }

    // ----- settlement -----

    method FinalizeStream(id: int)
      requires id in streams
      modifies this
      ensures State() == Finalize(old(State()), id)
    {
      streams := streams[id := streams[id].(state := Closed(Normal))];
      var reason := streams[id].state.reason;
      streams := streams - {id};
      order := Without(order, id);
      log := log + [StreamClosed(id, reason)];
      assert streams == old(streams) - {id};
    }

    method MaybeResolveResponse(id: int)
      requires id in streams
      modifies this
      ensures State() == MaybeResolve(old(State()), id)
    {
      var s := streams[id];
      if !s.headersComplete || !s.endStreamSeen {
        return;
      }
      if !s.resolver {
        return;
      }
      streams := streams[id := s.(resolver := false)];
      var response := Response(s.responseHeaders, Join(s.responseChunks));
      if s.isPushPromise {
        log := log + [PushResponse(id, response)];
      }
      FinalizeStream(id);
      log := log + [Resolved(id, response)];
    }

    method RejectStream(id: int, err: StreamError)
      requires id in streams
      modifies this
      ensures State() == Reject(old(State()), id, err)
    {
      var s := streams[id];
      if !s.resolver {
        FinalizeStream(id);
        return;
      }
      streams := streams[id := s.(resolver := false)];
      FinalizeStream(id);
      log := log + [Rejected(id, err)];
    }

    /** The streams live at the call, in their order, above last if there is one. */
    method RejectStreams(last: Option<int>, err: StreamError)
      modifies this
      ensures State() == RejectAbove(old(State()), old(order), last, err)
    {
      var ids := order;
      var i := 0;
      assert ids[0..] == ids;
      while i < |ids|
        invariant i <= |ids|
        invariant RejectAbove(State(), ids[i..], last, err) == RejectAbove(old(State()), ids, last, err)
      {
        assert ids[i..][0] == ids[i] && ids[i..][1..] == ids[i + 1..];
        if ids[i] in streams && (last.None? || ids[i] > last.value) {
          RejectStream(ids[i], err);
        }
        i := i + 1;
      }
    }

    // ----- dispatch -----

    method HandleData(id: int, flags: int, payload: Bytes)
      modifies this
      ensures State() == AfterData(old(State()), id, flags, payload)
    {
      if id !in streams {
        return;
      }
      TakeFrame(id, flags, payload);
      if EndStreamBit(flags) {
        var s := streams[id].(endStreamSeen := true);
        streams := streams[id := s.(state := OnEndStream(s.state))];
        MaybeResolveResponse(id);
      }
    }

    /** Flow control counts the padding; the data does not. */
    method TakeFrame(id: int, flags: int, payload: Bytes)
      requires id in streams
      modifies this
      ensures State() == TakeData(old(State()), id, flags, payload)
    {
      var frameLen := |payload|;
      var s := streams[id];
      receiveWindow := receiveWindow - frameLen;
      log := log + [DataIn(id, flags, payload)] + [Sent(WindowUpdate(0, 0, frameLen))];
      if !s.state.Closed? {
        log := log + [Sent(WindowUpdate(0, id, frameLen))];
      }
      var data := StripPadding(flags, payload);
      s := s.(remoteWindow := s.remoteWindow - frameLen);
      if |data| > 0 {
        s := s.(responseChunks := s.responseChunks + [data]);
      }
      streams := streams[id := s];
    }

    static method StripPadding(flags: int, payload: Bytes) returns (data: Bytes)
      ensures data == Unpadded(flags, payload)
    {
      data := payload;
      if PaddedBit(flags) {
        var padLen := if payload == [] then 0 else payload[0];
        var end := |payload| - padLen;
        data := if end > 0 then payload[1..end] else [];
      }
    }

    method PushHeaderBytes(id: int, payload: Bytes)
      requires id in streams
      modifies this`streams
      ensures streams ==
              old(streams)[id := old(streams)[id].(pendingHeaderBytes := old(streams)[id].pendingHeaderBytes + payload)]
    {
      var s := streams[id];
      var pending := s.pendingHeaderBytes;
      for i := 0 to |payload|
        invariant pending == s.pendingHeaderBytes + payload[..i]
      {
        assert payload[..i + 1] == payload[..i] + [payload[i]];
        pending := pending + [payload[i]];
      }
      assert payload[..|payload|] == payload;
      streams := streams[id := s.(pendingHeaderBytes := pending)];
    }

    method DecodePendingHeaders(id: int) returns (thrown: Option<HpackError>)
      requires Valid() && id in streams
      modifies this`streams
      ensures var (s, e) := WithHeaders(decode, old(streams)[id]); streams == old(streams)[id := s] && thrown == e
    {
      var s := streams[id];
      var block := s.pendingHeaderBytes;
      s := s.(pendingHeaderBytes := []);
      var decoded := DecodeHeaders(block);
      assert decoded == decode(block);
      if decoded.Err? {
        streams := streams[id := s];
        return Some(decoded.error);
      }
      streams := streams[id := s.(responseHeaders := decoded.value, headersComplete := true)];
      return None;
    }

    /** Adds to the block of a stream, and decodes it when it is complete. */
    method CollectHeaderBlock(id: int, endHeaders: bool, payload: Bytes) returns (thrown: Option<HpackError>)
      requires Valid() && id in streams
      modifies this`streams
      ensures var s := old(streams)[id].(pendingHeaderBytes := old(streams)[id].pendingHeaderBytes + payload);
              if endHeaders then streams == old(streams)[id := WithHeaders(decode, s).0] &&
                thrown == WithHeaders(decode, s).1
              else streams == old(streams)[id := s] && thrown == None
    {
      PushHeaderBytes(id, payload);
      if !endHeaders {
        return None;
      }
      ghost var s := streams[id];
      thrown := DecodePendingHeaders(id);
      SetTwice(old(streams), id, s, WithHeaders(decode, s).0);
    }

    method HandleHeaders(id: int, endHeaders: bool, endStream: bool, payload: Bytes)
      returns (thrown: Option<HpackError>)
      requires Valid()
      modifies this
      ensures Outcome(State(), thrown) == AfterHeaders(decode, old(State()), id, endHeaders, endStream, payload)
    {
      if id !in streams {
        return None;
      }
      thrown := CollectHeaderBlock(id, endHeaders, payload);
      if !endHeaders || thrown.Some? {
        return;
      }
      ghost var s := streams[id];
      HeadersArrived(id, endStream);
      SetTwice(old(streams), id, s, if endStream then EndStream(Promoted(s)) else Promoted(s));
    }

    /** A push stream opens with its first HEADERS; END_STREAM may close it at once. */
    method HeadersArrived(id: int, endStream: bool)
      requires id in streams
      modifies this
      ensures var s1 := old(streams)[id];
              var s2 := if endStream then EndStream(Promoted(s1)) else Promoted(s1);
              State() == MaybeResolve(Put(old(State()), id, s2), id)
    {
      var s := streams[id];
      if s.state.RemoteReserved? {
        s := s.(state := Open);
      }
      if endStream {
        s := s.(endStreamSeen := true);
        s := s.(state := OnEndStream(s.state));
      }
      streams := streams[id := s];
      MaybeResolveResponse(id);
    }

    method HandleContinuation(id: int, endHeaders: bool, payload: Bytes) returns (thrown: Option<HpackError>)
      requires Valid()
      modifies this
      ensures Outcome(State(), thrown) == AfterContinuation(decode, old(State()), id, endHeaders, payload)
    {
      var target := if id in pendingPush then pendingPush[id] else id;
      if target !in streams {
        return None;
      }
      if endHeaders && id in pendingPush {
        pendingPush := pendingPush - {id};
      }
      assert endHeaders ==> pendingPush == old(pendingPush) - {id};
      thrown := CollectHeaderBlock(target, endHeaders, payload);
      if !endHeaders || thrown.Some? {
        return;
      }
      if streams[target].isPushPromise {
        log := log + [Push(target, streams[target].responseHeaders)];
      }
      MaybeResolveResponse(target);
    }

    method HandlePushPromise(id: int, promised: int, endHeaders: bool, payload: Bytes)
      returns (thrown: Option<HpackError>)
      requires Valid()
      modifies this
      ensures Outcome(State(), thrown) == AfterPushPromise(decode, old(State()), id, promised, endHeaders, payload)
    {
      SetStream(NewStream(promised, DEFAULT_INITIAL_WINDOW_SIZE, true));
      assert [] + payload == payload;
      ghost var begun := streams[promised];
      thrown := CollectHeaderBlock(promised, endHeaders, payload);
      SetTwice(old(streams), promised, begun, streams[promised]);
      if !endHeaders {
        pendingPush := pendingPush[id := promised];
      } else if thrown.None? {
        log := log + [Push(promised, streams[promised].responseHeaders)];
      }
    }

    /** A key that is new goes last. */
    method SetStream(s: Stream)
      modifies this
      ensures State() == Log(Insert(old(State()), s), [Opened(s.id, s.localWindow)])
    {
      if s.id !in streams {
        order := order + [s.id];
      }
      streams := streams[s.id := s];
      log := log + [Opened(s.id, s.localWindow)];
    }

    method HandleRstStream(id: int, errorCode: int)
      modifies this
      ensures State() == AfterRstStream(old(State()), id, errorCode)
    {
      if id !in streams {
        return;
      }
      streams := streams[id := streams[id].(state := Closed(ResetByPeer(errorCode)))];
      RejectStream(id, RstStreamError(id, errorCode));
    }

    method HandleSettings(ack: bool, settings: Settings)
      modifies this
      ensures State() == if ack then Log(old(State()), [SettingsAcked])
                         else Log(AfterSettings(old(State()), NaturalEntries(settings)), [Sent(SETTINGS_ACK)])
    {
      if ack {
        log := log + [SettingsAcked];
        return;
      }
      ApplyRemoteSettings(settings);
      log := log + [Sent(SETTINGS_ACK)];
    }

    method HandleGoaway(last: int, errorCode: int, debugData: Bytes)
      modifies this
      ensures State() == AfterGoaway(old(State()), last, errorCode, debugData)
    {
      log := log + [GoawayIn(last, errorCode, debugData)];
      RejectStreams(Some(last), GoawayError(last, errorCode, debugData));
    }

    method Dispatch(f: Frame) returns (thrown: Option<HpackError>)
      requires Valid()
      modifies this
      ensures Outcome(State(), thrown) == AfterDispatch(decode, old(State()), f)
    {
      thrown := None;
      match f {
        case Data(flags, id, payload) => HandleData(id, flags, payload);
        case Headers(_, id, endHeaders, endStream, _, _, payload) =>
          thrown := HandleHeaders(id, endHeaders, endStream, payload);
        case Priority(_, _, _, _, _) =>
        case RstStream(_, id, errorCode) => HandleRstStream(id, errorCode);
        case SettingsFrame(_, _, ack, settings, _, _) => HandleSettings(ack, settings);
        case PushPromise(_, id, endHeaders, _, promised, payload) =>
          thrown := HandlePushPromise(id, promised, endHeaders, payload);
        case Ping(_, _, ack, opaqueData) =>
          log := log + [if ack then PingAcked(opaqueData) else Sent(Frame.Ping(1, 0, true, opaqueData))];
        case Goaway(_, _, last, errorCode, debugData) => HandleGoaway(last, errorCode, debugData);
        case WindowUpdate(_, id, increment) => HandleWindowUpdate(id, increment);
        case Continuation(_, id, endHeaders, payload) => thrown := HandleContinuation(id, endHeaders, payload);
      }
    }

    // ----- requests -----

    method OpenStream() returns (id: int)
      modifies this
      ensures id == old(nextId) && State() == AfterOpen(old(State()))
    {
      id := nextId;
      nextId := nextId + 2;
      SetStream(NewStream(id, initialWindow, false));
    }

    method ExpectResponse(id: int)
      modifies this
      ensures State() == AfterExpect(old(State()), id)
    {
      log := log + [Expected(id)];
      if id !in streams {
        log := log + [Rejected(id, RstStreamError(id, 1))];
        return;
      }
      streams := streams[id := streams[id].(resolver := true)];
    }

    method AbortEverything(err: StreamError)
      modifies this
      ensures State() == AfterAbortAll(old(State()), err)
    {
      RejectStreams(None, err);
      streams, order := map[], [];
    }
  }
}
