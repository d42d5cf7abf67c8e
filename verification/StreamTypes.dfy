/** The data of the stream manager (src/stream/stream.ts:95-156, src/types.ts:167-181). */
module StreamTypes {
  import opened Bits
  import opened Results
  import opened PrefixInteger
  import opened Frames

  const DEFAULT_INITIAL_WINDOW_SIZE: int := 65535
  const MIN_MAX_FRAME_SIZE: int := 16384
  const MAX_MAX_FRAME_SIZE: int := 16777215
  const DEFAULT_MAX_CONCURRENT_STREAMS: int := 100

  type FrameSize = n: int | 16384 <= n <= 16777215 witness 16384

  type Headers = map<string, string>

  /** Decodes a whole header block. */
  type Decoder = Bytes -> Result<Headers, HpackError>

  datatype Response = Response(headers: Headers, body: Bytes)

  datatype CloseReason = Normal | ResetByPeer(errorCode: int) | GoneAway(lastStreamId: int)

  datatype StreamState =
    | Idle
    | LocalReserved
    | RemoteReserved
    | Open
    | LocalHalfClosed
    | RemoteHalfClosed
    | Closed(reason: CloseReason)

  /**
   * The record of one stream. The two callbacks are set and cleared together, so resolver says whether
   * they are set.
   */
  datatype Stream = Stream(
    id: int,
    state: StreamState,
    localWindow: int,
    remoteWindow: int,
    headersComplete: bool,
    endStreamSeen: bool,
    responseHeaders: Headers,
    responseChunks: seq<Bytes>,
    pendingHeaderBytes: Bytes,
    sendQueue: Bytes,
    sendQueueEndStream: bool,
    resolver: bool,
    isPushPromise: bool)

  function NewStream(id: int, localWindow: int, isPushPromise: bool): Stream {
    Stream(id, if isPushPromise then RemoteReserved else Open, localWindow, DEFAULT_INITIAL_WINDOW_SIZE,
           false, false, map[], [], [], [], false, false, isPushPromise)
  }

  /** Why a connection is torn down. */
  datatype Cause =
    | ConnectionClosed
    | TransportFailed
    | UnreadableFrame(frameError: FrameError)
    | HeaderFailure(headerError: HpackError)

  datatype StreamError =
    | RstStreamError(streamId: int, errorCode: int)
    | GoawayError(lastStreamId: int, errorCode: int, debugData: Bytes)
    | Aborted(cause: Cause)

  /** What happens at the border of the manager, in order: what is asked of it, what it sends, emits and calls back. */
  datatype Event =
    | Opened(id: int, window: int)
    | ConnectionCredit(increment: int)
    | StreamCredit(id: int, increment: int)
    | InitialWindow(size: int)
    | MaxFrame(size: int)
    | Queued(id: int, data: Bytes, endStream: bool)
    | DataIn(id: int, flags: int, payload: Bytes)
    | Expected(id: int)
    | Sent(frame: Frame)
    | StreamClosed(id: int, reason: CloseReason)
    | Resolved(id: int, response: Response)
    | Rejected(id: int, error: StreamError)
    | Push(id: int, headers: Headers)
    | PushResponse(id: int, response: Response)
    | SettingsAcked
    | PingAcked(opaqueData: int)
    | GoawayIn(lastStreamId: int, errorCode: int, debugData: Bytes)

  /** The state of the manager; order lists the live streams as a JavaScript map iterates them. */
  datatype Manager = Manager(
    streams: map<int, Stream>,
    order: seq<int>,
    pendingPush: map<int, int>,
    initialWindow: int,
    maxConcurrent: int,
    maxFrame: FrameSize,
    sendWindow: int,
    receiveWindow: int,
    nextId: int,
    log: seq<Event>)

  const INITIAL_MANAGER: Manager :=
    Manager(map[], [], map[], DEFAULT_INITIAL_WINDOW_SIZE, DEFAULT_MAX_CONCURRENT_STREAMS, 16384,
            DEFAULT_INITIAL_WINDOW_SIZE, DEFAULT_INITIAL_WINDOW_SIZE, 1, [])

  /** Client streams have odd numbers. */
  predicate Odd(id: int) {
    id % 2 == 1
  }

  lemma OddSteps(id: int)
    ensures Odd(id + 2) == Odd(id)
  {
  }

  function Min(a: int, b: int): (m: int)
    ensures m <= a && m <= b && (m == a || m == b)
  {
    if a <= b then a else b
  }

  /** Section 6.1 of RFC 7540: the pad length in front and as many octets behind are not data. */
  function Unpadded(flags: int, payload: Bytes): (data: Bytes) {
    if PaddedBit(flags) then
      var padLen := if payload == [] then 0 else payload[0];
      var end := |payload| - padLen;
      if end > 0 then payload[1..end] else []
    else payload
  }

  /** A pad length that does not fit, or none at all, leaves no data. */
  lemma BadPaddingLeavesNothing(flags: int, payload: Bytes)
    requires flags % 16 >= 8 && (payload != [] ==> payload[0] >= |payload|)
    ensures Unpadded(flags, payload) == []
  {
  }

  /** Padding laid out as the standard asks, with bit 0x8 set, comes off exactly; without the bit nothing does. */
  lemma PaddingComesOff(flags: int, data: Bytes, padding: Bytes)
    requires |padding| < 256
    ensures flags % 16 >= 8 ==> Unpadded(flags, [|padding|] + data + padding) == data
    ensures flags % 16 < 8 ==> Unpadded(flags, data) == data
  {
    var payload: Bytes := [|padding|] + data + padding;
    assert payload[1..|data| + 1] == data;
  }
}
