/** The frames of HTTP/2 (src/types.ts:19-152). */
module Frames {
  import opened Bits
  import opened Results
  import opened SettingsEntries

  const DATA: nat := 0
  const HEADERS: nat := 1
  const PRIORITY: nat := 2
  const RST_STREAM: nat := 3
  const SETTINGS: nat := 4
  const PUSH_PROMISE: nat := 5
  const PING: nat := 6
  const GOAWAY: nat := 7
  const WINDOW_UPDATE: nat := 8
  const CONTINUATION: nat := 9

  /** The priority fields a HEADERS frame may carry in memory. */
  datatype Dependency = Dependency(exclusive: bool, streamDependency: int, weight: int)

  /** Numbers are whatever the caller set; only what is written is cut to its width. */
  datatype Frame =
    | Data(flags: int, streamId: int, payload: Bytes)
    | Headers(flags: int, streamId: int, endHeaders: bool, endStream: bool, padded: bool,
              priority: Option<Dependency>, payload: Bytes)
    | Priority(flags: int, streamId: int, exclusive: bool, streamDependency: int, weight: int)
    | RstStream(flags: int, streamId: int, errorCode: int)
    | SettingsFrame(flags: int, streamId: int, ack: bool, settings: Settings, settingsOrder: Option<seq<int>>,
                    grease: bool)
    | PushPromise(flags: int, streamId: int, endHeaders: bool, padded: bool, promisedStreamId: int, payload: Bytes)
    | Ping(flags: int, streamId: int, ack: bool, opaqueData: int)
    | Goaway(flags: int, streamId: int, lastStreamId: int, errorCode: int, debugData: Bytes)
    | WindowUpdate(flags: int, streamId: int, windowSizeIncrement: int)
    | Continuation(flags: int, streamId: int, endHeaders: bool, payload: Bytes)
  {
    function Type(): (t: nat)
      ensures t <= CONTINUATION
    {
      match this
      case Data(_, _, _) => DATA
      case Headers(_, _, _, _, _, _, _) => HEADERS
      case Priority(_, _, _, _, _) => PRIORITY
      case RstStream(_, _, _) => RST_STREAM
      case SettingsFrame(_, _, _, _, _, _) => SETTINGS
      case PushPromise(_, _, _, _, _, _) => PUSH_PROMISE
      case Ping(_, _, _, _) => PING
      case Goaway(_, _, _, _, _) => GOAWAY
      case WindowUpdate(_, _, _) => WINDOW_UPDATE
      case Continuation(_, _, _, _) => CONTINUATION
    }
  }

  /** Short by how much was needed; a payload too short for its type raises a range error. */
  datatype FrameError = TooShort(offset: nat) | RangeError

  // Flag bits.

  function EndStreamBit(flags: int): bool {
    flags % 2 == 1
  }

  function AckBit(flags: int): bool {
    flags % 2 == 1
  }

  function EndHeadersBit(flags: int): bool {
    flags / 4 % 2 == 1
  }

  function PaddedBit(flags: int): bool {
    flags / 8 % 2 == 1
  }
}
