/**
 * What each operation of the stream manager does to its state (src/stream/stream.ts:218-277,
 * src/stream/stream.ts:371-783).
 */
module StreamSteps {
  import opened Bits
  import opened Results
  import opened PrefixInteger
  import opened Frames
  import opened SettingsEntries
  import opened StreamTypes

  // ----- small updates -----

  function Log(m: Manager, events: seq<Event>): Manager {
    m.(log := m.log + events)
  }

  /** Replaces the record of a live stream. */
  function Put(m: Manager, id: int, s: Stream): Manager {
    m.(streams := m.streams[id := s])
  }

  /** Sets a stream in the map; a new key goes last. */
  function Insert(m: Manager, s: Stream): Manager {
    m.(streams := m.streams[s.id := s], order := if s.id in m.streams then m.order else m.order + [s.id])
  }

  function Without(order: seq<int>, id: int): seq<int> {
    if order == [] then [] else (if order[0] == id then [] else [order[0]]) + Without(order[1..], id)
  }

  function Delete(m: Manager, id: int): Manager {
    m.(streams := m.streams - {id}, order := Without(m.order, id))
  }

  function OnEndStream(state: StreamState): StreamState {
    match state
    case Open => RemoteHalfClosed
    case LocalHalfClosed => Closed(Normal)
    case RemoteReserved => Closed(Normal)
    case _ => state
  }

  function ClampMaxFrameSize(value: int): FrameSize {
    if value < MIN_MAX_FRAME_SIZE then MIN_MAX_FRAME_SIZE
    else if value > MAX_MAX_FRAME_SIZE then MAX_MAX_FRAME_SIZE
    else value
  }

  // ----- sending -----

  function DataFrame(id: int, payload: Bytes, endStream: bool): Frame {
    Data(if endStream then 1 else 0, id, payload)
  }

  /** The frame with the first n octets of the queue; the last of them may end the stream. */
  function ChunkEvent(s: Stream, n: nat): Event
    requires n <= |s.sendQueue|
  {
    Sent(DataFrame(s.id, s.sendQueue[..n], s.sendQueueEndStream && n == |s.sendQueue|))
  }

  function SendChunk(m: Manager, id: int, n: nat): Manager
    requires id in m.streams && n <= |m.streams[id].sendQueue|
  {
    var s := m.streams[id];
    var sent := s.(localWindow := s.localWindow - n, sendQueue := s.sendQueue[n..]);
    Log(Put(m, id, sent).(sendWindow := m.sendWindow - n), [ChunkEvent(s, n)])
  }

  function Cap(m: Manager, id: int): int
    requires id in m.streams
  {
    Min(m.maxFrame, Min(m.sendWindow, m.streams[id].localWindow))
  }

  function Drained(m: Manager, id: int): (r: Manager)
    requires id in m.streams
    ensures r.streams.Keys == m.streams.Keys && r.order == m.order
    decreases |m.streams[id].sendQueue|
  {
    var queue := m.streams[id].sendQueue;
    if queue == [] || Cap(m, id) <= 0 then m else Drained(SendChunk(m, id, Min(Cap(m, id), |queue|)), id)
  }

  /** Drains the streams from the i-th on. */
  function DrainedFrom(m: Manager, i: nat): (r: Manager)
    requires i <= |m.order|
    ensures r.streams.Keys == m.streams.Keys && r.order == m.order
    decreases |m.order| - i
  {
    if i == |m.order| then m
    else DrainedFrom(if m.order[i] in m.streams then Drained(m, m.order[i]) else m, i + 1)
  }

  /** The order lists the live streams and no others. */
  ghost predicate Listed(m: Manager) {
    && (forall k :: 0 <= k < |m.order| ==> m.order[k] in m.streams)
    && (forall id :: id in m.streams ==> id in m.order)
    && (forall id :: id in m.streams ==> m.streams[id].id == id)
  }

  function Enqueue(m: Manager, id: int, data: Bytes, endStream: bool): Manager
    requires id in m.streams
  {
    var s := m.streams[id];
    Log(Put(m, id, s.(sendQueue := s.sendQueue + data, sendQueueEndStream := s.sendQueueEndStream || endStream)),
        [Queued(id, data, endStream)])
  }

  function AfterSendData(m: Manager, id: int, data: Bytes, endStream: bool): Manager {
    if id !in m.streams then m else Drained(Enqueue(m, id, data, endStream), id)
  }

  function CreditConnection(m: Manager, increment: int): Manager {
    Log(m.(sendWindow := m.sendWindow + increment), [ConnectionCredit(increment)])
  }

  function CreditStream(m: Manager, id: int, increment: int): Manager
    requires id in m.streams
  {
    var s := m.streams[id];
    Log(Put(m, id, s.(localWindow := s.localWindow + increment)), [StreamCredit(id, increment)])
  }

  function AfterWindowUpdate(m: Manager, id: int, increment: int): Manager
  {
    if id == 0 then DrainedFrom(CreditConnection(m, increment), 0)
    else if id !in m.streams then m
    else Drained(CreditStream(m, id, increment), id)
  }

  // ----- settings -----

  function MovedWindow(s: Stream, delta: int): Stream {
    s.(localWindow := s.localWindow + delta)
  }

  function Shifted(streams: map<int, Stream>, delta: int): map<int, Stream> {
    map id | id in streams :: MovedWindow(streams[id], delta)
  }

  /** The windows of all streams move by the difference. */
  function WithInitialWindow(m: Manager, size: int): (r: Manager)
    ensures r.streams.Keys == m.streams.Keys && r.order == m.order
  {
    Log(m.(streams := Shifted(m.streams, size - m.initialWindow), initialWindow := size), [InitialWindow(size)])
  }

  function AfterInitialWindow(m: Manager, size: int): Manager
  {
    DrainedFrom(WithInitialWindow(m, size), 0)
  }

  function AfterSetting(m: Manager, e: Setting): Manager
  {
    match e.id
    case 3 => m.(maxConcurrent := e.value)
    case 4 => AfterInitialWindow(m, e.value)
    case 5 => Log(m.(maxFrame := ClampMaxFrameSize(e.value)), [MaxFrame(ClampMaxFrameSize(e.value))])
    case _ => m
  }

  /** The settings of one frame, one entry after the other. */
  function AfterSettings(m: Manager, entries: seq<Setting>): Manager
    decreases |entries|
  {
    if entries == [] then m
    else
      AfterSettings(AfterSetting(m, entries[0]), entries[1..])
  }

  // ----- settlement -----

  /** Every close reason gives way to the normal one. */
  function Finalize(m: Manager, id: int): Manager
    requires id in m.streams
  {
    var s := m.streams[id].(state := Closed(Normal));
    Log(Delete(m, id), [StreamClosed(id, s.state.reason)])
  }

  function ResponseOf(s: Stream): Response {
    Response(s.responseHeaders, Join(s.responseChunks))
  }

  /** The response is complete and somebody waits for it. */
  predicate IsSettling(s: Stream) {
    s.headersComplete && s.endStreamSeen && s.resolver
  }

  function MaybeResolve(m: Manager, id: int): Manager
    requires id in m.streams
  {
    var s := m.streams[id];
    if !IsSettling(s) then m
    else
      var response := ResponseOf(s);
      var m1 := Put(m, id, s.(resolver := false));
      var m2 := if s.isPushPromise then Log(m1, [PushResponse(id, response)]) else m1;
      Log(Finalize(m2, id), [Resolved(id, response)])
  }

  function Reject(m: Manager, id: int, err: StreamError): Manager
    requires id in m.streams
  {
    var s := m.streams[id];
    if !s.resolver then Finalize(m, id)
    else Log(Finalize(Put(m, id, s.(resolver := false)), id), [Rejected(id, err)])
  }

  /** Rejects the listed streams above last. */
  function RejectAbove(m: Manager, ids: seq<int>, last: Option<int>, err: StreamError): Manager
    decreases |ids|
  {
    if ids == [] then m
    else
      var id := ids[0];
      var m1 := if id in m.streams && (last.None? || id > last.value) then Reject(m, id, err) else m;
      RejectAbove(m1, ids[1..], last, err)
  }

  // ----- receiving -----

  /** Takes in the data of a frame and gives its octets, padding included, back to the peer. */
  function TakeData(m: Manager, id: int, flags: int, payload: Bytes): Manager
    requires id in m.streams
  {
    var s := m.streams[id];
    var n, data := |payload|, Unpadded(flags, payload);
    var s1 := s.(remoteWindow := s.remoteWindow - n,
                 responseChunks := if data == [] then s.responseChunks else s.responseChunks + [data]);
    var m1 := Log(Log(Put(m, id, s1).(receiveWindow := m.receiveWindow - n), [DataIn(id, flags, payload)]),
                  [Sent(WindowUpdate(0, 0, n))]);
    if s.state.Closed? then m1 else Log(m1, [Sent(WindowUpdate(0, id, n))])
  }

  function EndStream(s: Stream): Stream {
    s.(endStreamSeen := true, state := OnEndStream(s.state))
  }

  function AfterData(m: Manager, id: int, flags: int, payload: Bytes): Manager {
    if id !in m.streams then m
    else
      var m1 := TakeData(m, id, flags, payload);
      if EndStreamBit(flags) then MaybeResolve(Put(m1, id, EndStream(m1.streams[id])), id) else m1
  }

  /** The state after an operation, and whether it threw. */
  datatype Outcome = Outcome(manager: Manager, thrown: Option<HpackError>)

  /** Decodes the collected header block of a stream; when that throws, the block is gone all the same. */
  function WithHeaders(decode: Decoder, s: Stream): (Stream, Option<HpackError>) {
    var emptied := s.(pendingHeaderBytes := []);
    match decode(s.pendingHeaderBytes)
    case Err(e) => (emptied, Some(e))
    case Ok(headers) => (emptied.(responseHeaders := headers, headersComplete := true), None)
  }

  /** A push stream opens with its response. */
  function Promoted(s: Stream): Stream {
    if s.state.RemoteReserved? then s.(state := Open) else s
  }

  function AfterHeaders(decode: Decoder, m: Manager, id: int, endHeaders: bool, endStream: bool,
                        payload: Bytes): Outcome {
    if id !in m.streams then Outcome(m, None)
    else
      var s := m.streams[id].(pendingHeaderBytes := m.streams[id].pendingHeaderBytes + payload);
      if !endHeaders then Outcome(Put(m, id, s), None)
      else
        var (s1, thrown) := WithHeaders(decode, s);
        if thrown.Some? then Outcome(Put(m, id, s1), thrown)
        else
          var s2 := Promoted(s1);
          var s3 := if endStream then EndStream(s2) else s2;
          Outcome(MaybeResolve(Put(m, id, s3), id), None)
  }

  function ContinuedStream(m: Manager, id: int): int {
    if id in m.pendingPush then m.pendingPush[id] else id
  }

  function AfterContinuation(decode: Decoder, m: Manager, id: int, endHeaders: bool, payload: Bytes): Outcome {
    var target := ContinuedStream(m, id);
    if target !in m.streams then Outcome(m, None)
    else
      var s := m.streams[target].(pendingHeaderBytes := m.streams[target].pendingHeaderBytes + payload);
      if !endHeaders then Outcome(Put(m, target, s), None)
      else
        var (s1, thrown) := WithHeaders(decode, s);
        var m1 := Put(m, target, s1).(pendingPush := m.pendingPush - {id});
        if thrown.Some? then Outcome(m1, thrown)
        else
          var m2 := if s1.isPushPromise then Log(m1, [Push(target, s1.responseHeaders)]) else m1;
          Outcome(MaybeResolve(m2, target), None)
  }

  function AfterPushPromise(decode: Decoder, m: Manager, id: int, promised: int, endHeaders: bool,
                            payload: Bytes): Outcome {
    var s := NewStream(promised, DEFAULT_INITIAL_WINDOW_SIZE, true).(pendingHeaderBytes := payload);
    var m1 := Log(Insert(m, s), [Opened(promised, DEFAULT_INITIAL_WINDOW_SIZE)]);
    if !endHeaders then Outcome(m1.(pendingPush := m.pendingPush[id := promised]), None)
    else
      var (s1, thrown) := WithHeaders(decode, s);
      var m2 := Put(m1, promised, s1);
      if thrown.Some? then Outcome(m2, thrown) else Outcome(Log(m2, [Push(promised, s1.responseHeaders)]), None)
  }

  function AfterRstStream(m: Manager, id: int, errorCode: int): Manager {
    if id !in m.streams then m
    else Reject(Put(m, id, m.streams[id].(state := Closed(ResetByPeer(errorCode)))), id, RstStreamError(id, errorCode))
  }

  function AfterGoaway(m: Manager, last: int, errorCode: int, debugData: Bytes): Manager {
    RejectAbove(Log(m, [GoawayIn(last, errorCode, debugData)]), m.order, Some(last),
                GoawayError(last, errorCode, debugData))
  }

  function AfterAbortAll(m: Manager, err: StreamError): Manager {
    RejectAbove(m, m.order, None, err).(streams := map[], order := [])
  }

  const SETTINGS_ACK: Frame := SettingsFrame(1, 0, true, map[], None, false)

  function AfterDispatch(decode: Decoder, m: Manager, f: Frame): Outcome
  {
    match f
    case Data(flags, id, payload) => Outcome(AfterData(m, id, flags, payload), None)
    case Headers(_, id, endHeaders, endStream, _, _, payload) =>
      AfterHeaders(decode, m, id, endHeaders, endStream, payload)
    case Priority(_, _, _, _, _) => Outcome(m, None)
    case RstStream(_, id, errorCode) => Outcome(AfterRstStream(m, id, errorCode), None)
    case SettingsFrame(_, _, ack, settings, _, _) =>
      Outcome(if ack then Log(m, [SettingsAcked])
              else Log(AfterSettings(m, NaturalEntries(settings)), [Sent(SETTINGS_ACK)]), None)
    case PushPromise(_, id, endHeaders, _, promised, payload) =>
      AfterPushPromise(decode, m, id, promised, endHeaders, payload)
    case Ping(_, _, ack, opaqueData) =>
      Outcome(Log(m, if ack then [PingAcked(opaqueData)] else [Sent(Frame.Ping(1, 0, true, opaqueData))]), None)
    case Goaway(_, _, last, errorCode, debugData) => Outcome(AfterGoaway(m, last, errorCode, debugData), None)
    case WindowUpdate(_, id, increment) => Outcome(AfterWindowUpdate(m, id, increment), None)
    case Continuation(_, id, endHeaders, payload) => AfterContinuation(decode, m, id, endHeaders, payload)
  }

  // ----- requests -----

  function AfterOpen(m: Manager): Manager {
    Log(Insert(m, NewStream(m.nextId, m.initialWindow, false)).(nextId := m.nextId + 2),
        [Opened(m.nextId, m.initialWindow)])
  }

  function AfterExpect(m: Manager, id: int): Manager {
    if id !in m.streams then Log(m, [Expected(id), Rejected(id, RstStreamError(id, 1))])
    else Log(Put(m, id, m.streams[id].(resolver := true)), [Expected(id)])
  }

  /** One call on the manager. */
  datatype Input =
    | OpenStream
    | Dispatch(frame: Frame)
    | SendData(id: int, data: Bytes, endStream: bool)
    | ApplyWindowUpdate(id: int, increment: int)
    | ExpectResponse(id: int)
    | AbortAll(error: StreamError)

  function After(decode: Decoder, m: Manager, input: Input): Outcome
  {
    match input
    case OpenStream => Outcome(AfterOpen(m), None)
    case Dispatch(f) => AfterDispatch(decode, m, f)
    case SendData(id, data, endStream) => Outcome(AfterSendData(m, id, data, endStream), None)
    case ApplyWindowUpdate(id, increment) => Outcome(AfterWindowUpdate(m, id, increment), None)
    case ExpectResponse(id) => Outcome(AfterExpect(m, id), None)
    case AbortAll(error) => Outcome(AfterAbortAll(m, error), None)
  }

  // ----- the order of the streams -----

  ghost predicate SameShape(a: Manager, b: Manager) {
    && a.streams.Keys == b.streams.Keys && a.order == b.order
    && (forall id :: id in a.streams ==> a.streams[id].id == b.streams[id].id)
  }

  lemma ListedSame(a: Manager, b: Manager)
    requires Listed(a) && SameShape(a, b)
    ensures Listed(b)
  {
    assert forall id :: id in b.streams ==> id in a.streams;
  }

  lemma WindowsKeep(m: Manager, size: int)
    ensures SameShape(m, WithInitialWindow(m, size))
  {
  }
}
