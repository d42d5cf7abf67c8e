# A verified model of the HTTP/2 client

Dafny 4.11 models of the protocol logic of this HTTP/2 client, with proofs. `dafny verify dfyconfig.toml` checks all of it.

Four connected parts are modelled, each in the form the source gives it: loops over buffers and counters are methods with loops, objects with fields are classes, and every such method is proved against a specification function about which the properties are then proved.

1. **HPACK.** Prefix integers (`PrefixInteger`), the Huffman code (`HuffmanTable`, `HuffmanTableProof`, `HuffmanCode`, `HuffmanDecoder`, `HuffmanEncoder` with the 32-bit buffer of `Int32`), string literals (`HpackStrings`), the evicting table (`DynamicTables`), encoder and decoder objects (`HpackEncoder`, `HpackDecoder`), the round trip of blocks (`HpackRoundTrip`) and of whole sessions, told by the strings of their fields (`HpackSessions`), and an encoder and a decoder for every block against one for a session (`HpackHelpers`, `FreshDecoder`). The header codec is proved for any string coding that reads back what it keeps and for any static table (`HpackTables.Shared`); the tables of the source are then shown to be such.
2. **Frames.** Serializer and parser (`Frames`, `WireNumbers`, `SettingsEntries`, `FrameCodec`, and in plain numbers `WireFormat`) and the reader that puts frames together from chunks (`FrameReader`).
3. **Streams.** `StreamManager` is the object. `StreamSteps` says what each call does to its state; the state keeps a log of what happens at its border: calls, frames sent, events and callbacks. `StreamProtocol` is an independent observer of that log: it keeps accounts from the events alone and says which event may come next (flow control, order and end of data, credit, settlement). `StreamInvariant` proves that every run of the manager is legal to the observer; `StreamLaws` proves what legality means over a whole log, as sums over it; `StreamRuns` carries this back to the manager and adds work conservation and the lifecycle; `StreamReactions` says what a frame cannot make the manager do; `StreamReplies` says what it makes the manager say, `StreamResponses` what a response is made of, `StreamOrder` who is served first. `HeaderFragments` is about header blocks in several frames and their padding.
4. **The connection.** `SlotPool` is the pool of concurrency slots, with one step for each stretch between two awaits, and any interleaving of them. `SettingsWait` has the waits for the acknowledgement of our SETTINGS. `ConnectionSteps` joins them with the manager; `ConnectionSlots` carries what holds of the pool over to the connection, `ConnectionRequests` is about requests, their slots and frames over whole runs, `ConnectionMessages` about what goes out, `ConnectionWaits` about the waits, `ConnectionReading` about the read loop; `Connection` is the object.

## Where the code is not what one might expect

The model follows the code; each point names the lemma that states it.

- The Huffman encoder shifts in a 32-bit signed buffer (src/hpack/string.ts:29) and can lose bits of codes longer than 25 bits; `HuffmanEncoder.RoundTripExactly` says exactly when.
- The Huffman decoder accepts up to 32 padding ones, and the end-of-string symbol as a character, where section 5.2 of RFC 7541 wants errors: `HuffmanDecoder.DecodeExactly` says what decodes to any symbols, `HuffmanDecoder.EosIsAccepted` and `HuffmanDecoder.FourOctetsAreEos` are instances.
- The comment on the table (src/hpack/huffman-table.ts:4-8) says left-aligned and sorted; the rows are right-aligned and in symbol order. Nothing depends on it, since at most one row matches (`HuffmanCode.MatchUnique`).
- An entry larger than the dynamic table stays in it alone (src/hpack/dynamic-table.ts:64), where section 4.4 of RFC 7541 empties the table (`DynamicTables.AddFollowsRfcExactly`). The comment that the newest entry has the highest index (src/hpack/dynamic-table.ts:10) is the wrong way round (`DynamicTables.IndexCountsInsertionsBack`).
- Static rows 8 to 14 are named `status` (src/hpack/static-table.ts:24-30), where Appendix A of RFC 7541 has `:status` (`StaticTable.RowIsStandardExactly`, `HpackHelpers.IndexMeansStandardExactly`).
- A size update is lost when the block it should start cannot be encoded (`HpackSessions.UpdateAndNextBlock`, `HpackSessions.LastLimitReachesExactly`).
- Every header block gets a decoder of its own (src/hpack/helpers.ts:50), where section 2.2 of RFC 7541 has one for the connection. Beyond what one decoder would refuse, it refuses exactly the blocks that refer to entries of earlier ones (`FreshDecoder.HeadersAcrossBlocks`).
- Unknown frame types become DATA frames (src/frame/frame.ts:206-210), although the comment says they are rejected (`FrameCodec.ParsesExactly`); a PUSH_PROMISE is serialized without its promised id (`FrameCodec.PushPromiseRoundTrip`).
- Neither padding nor priority fields are taken off HEADERS, although the comment says so (src/stream/stream.ts:29-31): `HeaderFragments.HeadersPaddingExactly` says when that makes no difference, `HeaderFragments.PaddedHeadersThrow` is a frame where it does.
- END_STREAM on a HEADERS frame without END_HEADERS is lost (`HeaderFragments.FragmentsInvisibleExactly`), and a pushed response in fragments is announced as a promise (`HeaderFragments.PushedFragmentsInvisibleExactly`).
- An empty DATA frame is answered with window updates of zero (`StreamRuns.ZeroUpdatesExactly`). Every close reason is replaced by the normal one (src/stream/stream.ts:453), as `StreamProtocol.Legal` asks and `StreamInvariant.RunLegalAt` shows.
- Asked to end a stream that has nothing left to send, the manager sends no END_STREAM (`StreamLaws.EndGoesOutExactly`); the connection never asks so, as its HEADERS carry the end of requests without body (`ConnectionRequests.BodiesAreWhole`).
- A raised MAX_CONCURRENT_STREAMS wakes no waiting request (`ConnectionSlots.AlwaysInUseExactly`), the limit can be passed (`ConnectionSlots.LimitPassedByConnectionExactly`, `ConnectionSlots.AlwaysWithinExactly`), and a limit of zero strands requests (`SlotPool.LostExactly`).
- A request that finds the connection closing leaves its stream behind in the manager (`ConnectionSteps.SlotlessExactly`, `ConnectionRequests.SlotlessAreLate`).
- A request whose headers cannot be encoded is rejected, but its stream stays open in the manager and keeps its slot (src/connection.ts:147-162), though the peer never hears of it (`ConnectionRequests.MuteHoldsItsSlot`); a hundred of them block the connection (`ConnectionRequests.HundredMuteRequestsPark`).
- `close` leaves a pending wait for the acknowledgement of SETTINGS to its timer, and the timer of one wait makes a fatal error miss a later one (`ConnectionWaits.WaitsWhenClosing`, `SettingsWait.BreaksTheLastExactly`).

## What the runs assume

`StreamInvariant.Polite` asks that a promised id is even, not zero and not in use (the code would overwrite the stream that has it), and that nobody registers twice for the response of one stream while the first waits. This is exactly what the invariant needs (`StreamInvariant.RunGoodExactly`). Nothing else is asked of the peer: any frame may come at any time. That the connection window is never negative is stated for increments that are not negative, which are all that a parsed frame can hold.

## Model

| member | source | states |
|---|---|---|
| `PrefixInteger.EncodeInteger` | src/hpack/integer.ts:19-46 | the loop computes the octets of section 5.1 of RFC 7541 for every integer and prefix width, and a negative value is an error |
| `PrefixInteger.DecodeInteger` | src/hpack/integer.ts:55-81 | the loop over value, shift and position reads what the recursive definition of the format reads, with the same underflow errors |
| `PrefixInteger.ReadContinuationOf` | src/hpack/integer.ts:66-79 | continuation octets read back to their number and end where they end, anywhere in any buffer |
| `PrefixInteger.ReadOctets` | src/hpack/integer.ts:55-81 | prefix integers delimit themselves: any value comes back with the offset just past it, whatever flag bits and surrounding octets there are |
| `PrefixInteger.ReadFlagged` | src/hpack/integer.ts:15-17 | the same with flag bits added above the prefix, as the callers do |
| `PrefixInteger.ReadFailsExactly` | src/hpack/integer.ts:55-81 | reading fails, for want of octets, if and only if the number does not end in the buffer |
| `PrefixInteger.IntegerExamples` | src/hpack/integer.ts:19-46 | the octets of the three examples of section C.1 of RFC 7541 |
| `HuffmanTableProof.TableIsCompletePrefixCode` | src/hpack/huffman-table.ts:21-279 | no code of the 257 rows leads another, and every 30-bit word starts with one |
| `HuffmanTableProof.TableTiles` | src/hpack/huffman-table.ts:21-279 | sorted by left-aligned code, the rows tile the 30-bit numbers without gap or overlap |
| `HuffmanTableProof.TableIsCanonical` | src/hpack/huffman-table.ts:21-279 | the code is canonical, so its lengths determine it: of one length the larger symbol has the larger code, and shorter codes come first |
| `HuffmanTableProof.PrintableIsShort` | src/hpack/huffman-table.ts:54-148 | every printable ASCII character has a code of at most 25 bits |
| `HuffmanTableProof.PrintableCodes` | src/hpack/huffman-table.ts:21-279 | the codes of all printable ASCII characters in numbers: those of one length are consecutive in character order |
| `HuffmanCode.TilingIsPrefixFree` | src/hpack/huffman-table.ts:3-8 | a table whose codes tile the 30-bit numbers is prefix-free |
| `HuffmanCode.TilingIsComplete` | src/hpack/huffman-table.ts:3-8 | and complete |
| `HuffmanCode.MatchUnique` | src/hpack/string.ts:75-89 | the row scan finds a code wherever it stands first: at most one row matches |
| `HuffmanCode.MatchTotal` | src/hpack/string.ts:75-92 | with 30 bits at hand some row always matches |
| `HuffmanDecoder.HuffmanDecode` | src/hpack/string.ts:51-104 | the double loop over bit buffer, counter and position computes the decoding of the octets; the buffer never holds more than 37 bits and 8 times the unread octets plus the buffered bits strictly falls; reading past the buffer is an error |
| `HuffmanDecoder.NextSymbol` | src/hpack/string.ts:58-92 | one turn of the loop takes one symbol off what is left, or fails exactly when decoding what is left fails |
| `HuffmanDecoder.FindRow` | src/hpack/string.ts:74-89 | the scan over the rows with the top bits of the buffer is the first row whose code starts the buffered bits |
| `HuffmanDecoder.DecodeSound` | src/hpack/string.ts:58-101 | any accepted input is exactly the codes of the returned symbols followed by ones, few enough for the window |
| `HuffmanDecoder.DecodeComplete` | src/hpack/string.ts:58-101 | the codes of any bytes followed by ones that fit the window decode to those bytes: stopping at the first all-ones rest is right |
| `HuffmanDecoder.DecodeExactly` | src/hpack/string.ts:58-101 | exactly which bit strings decode to any given symbols, the end-of-string symbol included: their codes and ones that fit the window, unless an end-of-string symbol at the end is short enough to be taken for padding |
| `HuffmanDecoder.DecodeCodes` | src/hpack/string.ts:58-101 | what the codes of any symbols with padding decode to |
| `HuffmanDecoder.EosIsAccepted` | src/hpack/string.ts:95-100 | the end-of-string symbol alone is accepted as a character if and only if at most seven ones follow it |
| `HuffmanDecoder.FourOctetsAreEos` | src/hpack/string.ts:51-104 | four octets 255 decode to one such character |
| `HuffmanDecoder.DecodeRejects` | src/hpack/string.ts:90-92 | the error for no matching code means codes followed by 1 to 29 bits that start no code |
| `HuffmanDecoder.CodesInjective` | src/hpack/string.ts:58-101 | codes with padding determine the bytes |
| `HuffmanEncoder.HuffmanEncode` | src/hpack/string.ts:19-44 | the loop with the int32 buffer computes the coder defined step by step with wrap-around and sign-extending shifts |
| `HuffmanEncoder.DrainBuffer` | src/hpack/string.ts:31-34 | the inner loop emits the octets that the waiting bits fill |
| `HuffmanEncoder.EncodesEmitted` | src/hpack/string.ts:23-43 | what comes out for any input, including those it corrupts: bits past the 32nd read as copies of the sign bit |
| `HuffmanEncoder.EncodesExactly` | src/hpack/string.ts:19-44 | the output is the codes, most significant bit first, padded with fewer than eight ones, if and only if no live bit that differs from the sign is pushed out |
| `HuffmanEncoder.RoundTripExactly` | src/hpack/string.ts:19-104 | decoding gives the input back if and only if the 32-bit buffer kept every bit |
| `HuffmanEncoder.ShortCodesKeep` | src/hpack/string.ts:29 | codes of at most 25 bits never lose a bit |
| `HuffmanEncoder.BitsCanBeLost` | src/hpack/string.ts:29 | the two bytes of a colon and a line feed do lose bits and do not come back |
| `HpackStrings.EncodeLatin1` | src/hpack/string.ts:116-129 | the octets of a Latin-1 string; any other string is an error |
| `HpackStrings.DecodeLatin1` | src/hpack/string.ts:107-113 | one character per symbol |
| `HpackStrings.EncodeStringHuffman` | src/hpack/string.ts:165-176 | length with the Huffman flag, then the coded octets |
| `HpackStrings.EncodeStringLiteral` | src/hpack/string.ts:184-189 | length without the flag, then the octets |
| `HpackStrings.DecodeString` | src/hpack/string.ts:141-161 | reads the flag, the length and the content, with the errors of each step in the order of the code |
| `HpackStrings.StringRoundTrip` | src/hpack/string.ts:141-189 | a string literal anywhere in a buffer reads back, with the offset just past it, if and only if it is Latin-1 and, when Huffman-coded, keeps its bits; a corrupted one still ends at the same offset |
| `HpackStrings.StringsOnTheWire` | src/hpack/string.ts:165-189 | the highest bit of the first octet is set if and only if the string is Huffman-coded; a short plain string is its length and its octets |
| `HpackStrings.StringErrors` | src/hpack/string.ts:141-161 | which of the four errors a string that cannot be read gives, and when |
| `HpackStrings.PrintableIsEncodable` | src/hpack/string.ts:165-189 | printable ASCII always comes back |
| `HpackTables.EncodeString` | src/hpack/encoder.ts:197-199 | the configured form of a string, with the table of the source |
| `HpackTables.HpackIsSound` | src/hpack/string.ts:141-189 | the string coding of the source has what the header codec relies on: a written string reads back exactly when it is kept, and every read moves on inside the buffer |
| `StaticTable.StaticLength` | src/hpack/static-table.ts:15-81 | the static table has 61 entries |
| `StaticTable.RowIsStandardExactly` | src/hpack/static-table.ts:15-81 | a row is the one of Appendix A of RFC 7541 if and only if it is not one of the rows 8 to 14; those differ in the colon of the name and nothing else |
| `HeaderFields.CapitalsGo` | src/hpack/string.ts:197-199 | after lower-casing no capital of ASCII or Latin-1 is left, and each became the character 32 further on |
| `HeaderFields.OthersStay` | src/hpack/string.ts:197-199 | every other character stays, but for four outside Latin-1, whose small letters in Latin-1 are given |
| `HeaderFields.LowerTwice` | src/hpack/string.ts:197-199 | lower-casing twice is lower-casing once |
| `HpackRoundTrip.SpellingIsLost` | src/hpack/encoder.ts:116-146 | two spellings of a name have the same octets |
| `HpackRoundTrip.ContentTypeIsRow31` | src/hpack/encoder.ts:116-146 | however Content-Type is spelt, its name is sent as the index 31 |
| `DynamicTables.DynamicTable.Add` | src/hpack/dynamic-table.ts:60-65 | the new state is insertion at the front and eviction to the larger of the limit and the entry; currentSize stays the exact sum |
| `DynamicTables.DynamicTable.SetLimit` | src/hpack/dynamic-table.ts:72-75 | the new state is the new limit and eviction to it; currentSize stays the exact sum |
| `DynamicTables.DynamicTable.EvictToFit` | src/hpack/dynamic-table.ts:78-85 | the loop drops from the back until the rest fit |
| `DynamicTables.IndexCountsInsertionsBack` | src/hpack/dynamic-table.ts:49-52 | whatever was inserted and resized before, an index past the static entries gives the entry inserted that many insertions ago, newest first, and none once it is evicted |
| `DynamicTables.ResolveIndex` | src/hpack/dynamic-table.ts:97-114 | an index resolves if and only if it lies in the joint range, and static indices always give the static entry |
| `DynamicTables.Resolve` | src/hpack/dynamic-table.ts:97-114 | the lookup with its branches computes that resolution |
| `DynamicTables.EvictKeepsLongest` | src/hpack/dynamic-table.ts:78-85 | eviction keeps the longest prefix that fits: a prefix fits if and only if it is kept |
| `DynamicTables.SizeInNumbers` | src/hpack/dynamic-table.ts:60-85 | the size of a table is the number of its letters and 32 for each entry |
| `DynamicTables.AddKeepsNewest` | src/hpack/dynamic-table.ts:55-64 | the newest entry always stays; alone if it is larger than the limit, else with others within the limit |
| `DynamicTables.AddFollowsRfcExactly` | src/hpack/dynamic-table.ts:60-65 | insertion agrees with section 4.4 of RFC 7541 if and only if the entry is not larger than the limit |
| `DynamicTables.TableIsRecentHistory` | src/hpack/dynamic-table.ts:60-85 | under any sequence of insertions and limits the table is a prefix of the newest-first history, and fits the limit unless one entry is left |
| `DynamicTables.TableIsLongestFitting` | src/hpack/dynamic-table.ts:60-85 | under one limit it is the longest prefix that fits the larger of the limit and the newest entry |
| `HpackEncoder.HpackEncoder.constructor` | src/hpack/encoder.ts:86-94 | a size update waits if and only if the configured size is not 4096 |
| `HpackEncoder.HpackEncoder.Encode` | src/hpack/encoder.ts:97-108 | the block is the waiting size update and the fields in order; the update is used up once it is written, even if a field after it fails |
| `HpackEncoder.HpackEncoder.SetMaxTableSize` | src/hpack/encoder.ts:111-113 | the update waits for the next block |
| `HpackEncoder.HpackEncoder.PlanHeader` | src/hpack/encoder.ts:116-146 | sensitive first, then exact static match, then incremental indexing, then none |
| `HpackEncoder.HpackEncoder.EmitHeader` | src/hpack/encoder.ts:149-191 | the octets of the four representations, with the errors of their strings |
| `HpackEncoder.FindStaticExactIndex` | src/hpack/encoder.ts:37-46 | the counting loop finds the entry with that name and value |
| `HpackEncoder.FindStaticNameIndex` | src/hpack/encoder.ts:52-61 | the counting loop finds the entry with that name |
| `HpackEncoder.SearchesFindFirst` | src/hpack/encoder.ts:37-61 | both searches find the first match whenever there is one |
| `HpackDecoder.HpackDecoder.Decode` | src/hpack/decoder.ts:24-68 | the loop computes the fields or the error of the whole block and leaves the table as it then is, also after an error |
| `HpackDecoder.HpackDecoder.DecodeField` | src/hpack/decoder.ts:27-66 | one representation is read and applied to the table; an error leaves the table alone |
| `HpackDecoder.HpackDecoder.DecodeLiteral` | src/hpack/decoder.ts:79-123 | name from the tables or new, then the value; only the incremental form changes the table |
| `HpackDecoder.HpackDecoder.SetMaxTableSize` | src/hpack/decoder.ts:71-73 | the new limit is applied to the table at once |
| `HpackDecoder.ReadField` | src/hpack/decoder.ts:27-66 | every representation read moves the offset on inside the buffer and gives at most one field |
| `HpackDecoder.IndexErrors` | src/hpack/decoder.ts:27-123 | an index out of range, of a field or of a name, is an error of its own |
| `HpackDecoder.DecodeTiles` | src/hpack/decoder.ts:24-68 | an accepted block is tiled exactly by its representations, each read with the table the one before left; a rejected one is tiled up to the representation that fails, whose error is the result |
| `HpackHelpers.EncodeHeaders` | src/hpack/helpers.ts:31-46 | a new encoder for the block, each header a field with the configured indexing |
| `HpackHelpers.BlockForExactly` | src/hpack/helpers.ts:31-46 | it succeeds if and only if the table size is not negative and every string to be written is Latin-1 |
| `HpackHelpers.HeadersRoundTrip` | src/hpack/helpers.ts:31-57 | headers whose strings survive come back from the octets, names lower-cased, of equal names the last |
| `HpackHelpers.DecodeHeaders` | src/hpack/helpers.ts:49-57 | a new decoder for the block, and a map in which the last value of a name counts |
| `HpackHelpers.IndexMeansStandardExactly` | src/hpack/helpers.ts:49-57 | a block of one static index decodes to what the standard means by it if and only if it is not one of 8 to 14 |
| `FreshDecoder.HeadersAcrossBlocks` | src/hpack/helpers.ts:49-57 | with the table a session would have, of the same limit: headers are decoded as by one decoder for the whole session, errors included, unless a representation refers to an entry of an earlier block, and then the index is out of range |
| `FreshDecoder.FreshReadsExactly` | src/hpack/decoder.ts:24-68 | the same from any point of a block on, given which of the newest entries the block inserted itself |
| `FreshDecoder.NewestIsOutOfReach` | src/hpack/helpers.ts:49-57 | a one-octet block that refers to the newest entry of an earlier block |
| `HpackRoundTrip.PlanFits` | src/hpack/encoder.ts:116-146 | a field is indexed if and only if it is not sensitive and matches exactly; a literal carries a new name if and only if the static table has none; it is incremental if and only if the field should be inserted, and never indexed if and only if it is sensitive |
| `HpackRoundTrip.RepresentationsOnTheWire` | src/hpack/encoder.ts:149-191 | the first octet of a field lies in the range of its representation: indexed if and only if it is in the static table and not sensitive, never indexed if and only if sensitive, with incremental indexing or without as asked for |
| `HpackRoundTrip.ClassesInNumbers` | src/hpack/decoder.ts:27-66 | the decoder tells the five representations by the same ranges |
| `HpackRoundTrip.UpdateOnTheWire` | src/hpack/encoder.ts:99-104 | a size update lies in the fifth range, and a negative one cannot be written |
| `HpackRoundTrip.FieldRoundTrip` | src/hpack/encoder.ts:116-191 | one field comes back lower-cased, and changes the table as it should, if and only if the strings written for it survive; otherwise decoding fails or gives another field |
| `HpackRoundTrip.ReceivedInOrder` | src/hpack/encoder.ts:103-106 | what should arrive is every field, in order, lower-cased |
| `HpackRoundTrip.BlockRoundTrip` | src/hpack/encoder.ts:97-108 | a block comes back in order if and only if all its strings survive, and then the table has taken the size update and the insertions and nothing else |
| `HpackRoundTrip.BlocksRoundTrip` | src/hpack/decoder.ts:24-68 | the same for any sequence of blocks through one decoder |
| `HpackSessions.SessionRoundTrip` | src/hpack/encoder.ts:86-113 | for any calls on one encoder, one decoder reads back every block they make, that is every call with writable fields, if and only if all strings written survive; its table is then what the emitted updates and the insertions of non-sensitive, indexing fields without exact match make of it, a recent stretch of all insertions |
| `HpackRoundTrip.PrintableIsCarried` | src/hpack/encoder.ts:116-191 | fields in printable ASCII always come back |
| `HpackSessions.FieldsEncodeExactly` | src/hpack/encoder.ts:97-199 | a block can be encoded, with Huffman coding or without, if and only if every name and value that has to be written is Latin-1; those found in the static table need not be |
| `HpackSessions.BlocksExactly` | src/hpack/encoder.ts:97-113 | which calls on an encoder make a block and with which size update: those with writable fields, unless a negative size update waits |
| `HpackSessions.UpdateAndNextBlock` | src/hpack/encoder.ts:97-108 | for any calls that follow: the next block takes a waiting size update along if and only if its fields are writable; if they are not, no later block does; a negative one is in the way of every block |
| `HpackSessions.LastLimitReachesExactly` | src/hpack/encoder.ts:97-113 | over a whole session the last limit set on the encoder becomes the limit of the decoder if and only if the fields of the first block after it are writable, else the decoder stays with the limit it had; strings that get corrupted make no difference |
| `HpackSessions.EuroLosesTheUpdate` | src/hpack/string.ts:116-129 | a value with a euro sign loses it |
| `FrameCodec.SerializeFrame` | src/frame/frame.ts:34-51 | the buffers filled in place hold length, type, flags, stream id without the reserved bit, and payload |
| `FrameCodec.SerializePayload` | src/frame/frame.ts:54-111 | the payload of every frame type, numbers cut to their width |
| `FrameCodec.SerializeEntries` | src/frame/frame.ts:80-87 | six octets an entry, in order |
| `WireFormat.HeaderOnTheWire` | src/frame/frame.ts:34-51 | in plain numbers: length in three octets, type code, flags, stream id in four without the highest bit, and the payload behind |
| `WireFormat.OctetsOnTheWire` | src/frame/frame.ts:54-111 | DATA, HEADERS, PUSH_PROMISE and CONTINUATION carry the octets given, SETTINGS their entries and an acknowledgement nothing |
| `WireFormat.PriorityOnTheWire` | src/frame/frame.ts:61-68 | PRIORITY: the dependency with the exclusive bit above it, and the weight |
| `WireFormat.GoawayOnTheWire` | src/frame/frame.ts:54-111 | GOAWAY: the last stream id, then the error code, then the debug data |
| `WireFormat.PingOnTheWire` | src/frame/frame.ts:54-111 | PING: its data as one number of eight octets |
| `WireFormat.RstStreamOnTheWire` | src/frame/frame.ts:54-111 | RST_STREAM: the error code |
| `WireFormat.WindowUpdateOnTheWire` | src/frame/frame.ts:54-111 | WINDOW_UPDATE: the increment without the highest bit |
| `WireFormat.EntriesOnTheWire` | src/frame/frame.ts:80-87 | each setting: its id in two octets and its value in four, in order |
| `FrameCodec.ParseFrame` | src/frame/frame.ts:185-309 | header, length check, and the frame for each type, with the errors of short input; unknown types are read as DATA |
| `WireFormat.FlagsRead` | src/frame/frame.ts:185-309 | in plain numbers: type, stream and flags of the header, END_STREAM and ACK from bit 0x1, END_HEADERS from 0x4, PADDED from 0x8 |
| `WireFormat.PayloadRead` | src/frame/frame.ts:185-309 | what DATA, HEADERS, CONTINUATION, PUSH_PROMISE, RST_STREAM, WINDOW_UPDATE and PING read from which octets |
| `WireFormat.OtherPayloadRead` | src/frame/frame.ts:185-309 | and what PRIORITY and GOAWAY do |
| `WireFormat.SettingsRead` | src/frame/frame.ts:243-250 | a setting has the value of the last entry with its id, and only ids that occur are set |
| `WireFormat.ParseErrors` | src/frame/frame.ts:166-309 | which of the three errors a buffer without a frame gives, and when |
| `SettingsEntries.CollectSettingsEntries` | src/frame/frame.ts:124-160 | GREASE first, then the listed ids that have a value, then the rest in natural order |
| `SettingsEntries.EntriesInOrder` | src/frame/frame.ts:124-160 | a GREASE entry leads, the listed ids that have a value follow as listed, repeats included, and then all others in ascending order |
| `SettingsEntries.NaturalAscends` | src/frame/frame.ts:135-141 | natural order ascends |
| `SettingsEntries.NaturalIsAll` | src/frame/frame.ts:135-141 | natural order lists every setting and nothing else |
| `SettingsEntries.DecodeSettings` | src/frame/frame.ts:243-250 | the loop stores the whole entries in order and ignores a rest shorter than an entry |
| `SettingsEntries.EntriesReadBack` | src/frame/frame.ts:80-87 | the entries written are the entries stored, later ones replacing earlier ones |
| `SettingsEntries.StoredAsGiven` | src/frame/frame.ts:113-160 | any order, with repeats and omissions, stores the same settings, and GREASE adds at most its own zero entry and replaces none |
| `FrameCodec.ParseNormalizes` | src/frame/frame.ts:34-309 | what becomes of any frame with a payload below 2^24 octets |
| `FrameCodec.FrameRoundTrip` | src/frame/frame.ts:34-309 | parsing what was serialized gives the frame back if and only if the frame is canonical: in wire range, flags and booleans agreeing, nothing that the wire does not carry |
| `FrameCodec.SettingsRoundTrip` | src/frame/frame.ts:113-160 | a SETTINGS frame comes back with the same map whatever its order, plus at most the GREASE entry |
| `FrameCodec.PushPromiseRoundTrip` | src/frame/frame.ts:259-269 | a PUSH_PROMISE never comes back as it was; with the promised id in front of its payload the parser gives that id and the rest |
| `FrameCodec.ParsedIsCanonical` | src/frame/frame.ts:185-309 | every parsed frame is canonical except promises and acknowledgements that carry settings |
| `FrameCodec.ParsesExactly` | src/frame/frame.ts:166-309 | exactly which buffers hold a frame and of which type, unknown types being DATA; octets past the frame make no difference |
| `FrameCodec.LongNeverComesBack` | src/frame/frame.ts:39-42 | a payload of 2^24 octets or more is never read back |
| `FrameReader.FrameReader.ReadOneFrame` | src/connection.ts:436-459 | the frame read depends only on the octets ahead, not on how they are cut into reads, empty ones included; what is read, the buffer and what was not delivered make up the original stream |
| `FrameReader.WrittenReadsBack` | src/connection.ts:428-459 | serialized frames written one behind another are read back one by one, in any chunking |
| `FrameReader.CanonicalReadsBack` | src/connection.ts:428-459 | canonical frames come back as they were |
| `StreamTypes.PaddingComesOff` | src/stream/stream.ts:562-569 | with bit 0x8 well-formed padding comes off DATA exactly, without it nothing does |
| `StreamTypes.BadPaddingLeavesNothing` | src/stream/stream.ts:562-569 | a pad length that does not fit leaves no data |
| `StreamManager.StreamManager.DrainSendQueue` | src/stream/stream.ts:425-448 | the draining loop: chunks within both windows and the frame size, in order, END_STREAM on the last |
| `StreamManager.StreamManager.SendData` | src/stream/stream.ts:749-761 | queues, notes the end, drains |
| `StreamManager.StreamManager.HandleWindowUpdate` | src/stream/stream.ts:680-698 | credit to the connection drains every stream in order, credit to a stream that stream |
| `StreamManager.StreamManager.ApplyRemoteSettings` | src/stream/stream.ts:374-420 | the settings that matter, in ascending order of their keys; a new initial window moves every stream by the difference |
| `StreamManager.StreamManager.FinalizeStream` | src/stream/stream.ts:452-457 | the stream leaves the map, announced, with the normal reason whatever reason it had |
| `StreamManager.StreamManager.MaybeResolveResponse` | src/stream/stream.ts:459-481 | resolves once headers and end are there and somebody waits |
| `StreamManager.StreamManager.RejectStream` | src/stream/stream.ts:483-496 | finalizes, and rejects if somebody waits |
| `StreamManager.StreamManager.HandleData` | src/stream/stream.ts:538-581 | accounts for the whole payload, gives it back, keeps the data without padding, ends the stream |
| `StreamManager.StreamManager.HandleHeaders` | src/stream/stream.ts:583-614 | collects, decodes, promotes a push, ends the stream, resolves |
| `StreamManager.StreamManager.HandleContinuation` | src/stream/stream.ts:700-723 | continues the promised stream if one is pending, else the stream named |
| `StreamManager.StreamManager.HandlePushPromise` | src/stream/stream.ts:634-656 | a reserved stream whose header block is decoded or awaited |
| `StreamManager.StreamManager.HandleRstStream` | src/stream/stream.ts:616-623 | the stream is rejected and removed |
| `StreamManager.StreamManager.HandleSettings` | src/stream/stream.ts:625-632 | an acknowledgement is announced; other settings are applied and acknowledged |
| `StreamManager.StreamManager.HandleGoaway` | src/stream/stream.ts:666-678 | announced, then every stream above the last one rejected in order |
| `StreamManager.StreamManager.Dispatch` | src/stream/stream.ts:500-536 | one handler a frame type, and the error a handler throws |
| `StreamManager.StreamManager.OpenStream` | src/stream/stream.ts:727-743 | the next odd id with the initial window in force |
| `StreamManager.StreamManager.ExpectResponse` | src/stream/stream.ts:763-775 | registers, or rejects at once if the stream is not there |
| `StreamManager.StreamManager.AbortEverything` | src/stream/stream.ts:777-783 | every stream rejected, none left |
| `StreamInvariant.AfterGood` | src/stream/stream.ts:393-783 | every call keeps the invariant: all events so far were legal to an observer of the border, whose accounts are the state of the manager |
| `StreamInvariant.AfterGoodExactly` | src/stream/stream.ts:393-783 | from any state with the invariant, the calls that keep it are exactly the polite ones |
| `StreamInvariant.RunGood` | src/stream/stream.ts:297-826 | so does every run whose peer promises fresh even ids and whose callers wait once for a response |
| `StreamInvariant.RunGoodExactly` | src/stream/stream.ts:297-826 | and the runs that have it throughout are exactly the polite ones |
| `StreamInvariant.RunLegalAt` | src/stream/stream.ts:8-20 | in such a run every single event was legal to the observer when it came |
| `StreamInvariant.ChunkMatches` | src/stream/stream.ts:433-446 | each chunk sent is legal: it fits, is as long as it can be, is next in order, and ends the stream exactly when it should |
| `StreamInvariant.SettledGood` | src/stream/stream.ts:459-496 | removing a stream and calling its callback is legal: the callback waited, and the body is what came in |
| `StreamInvariant.TakeDataGood` | src/stream/stream.ts:544-573 | taking in DATA and giving its octets back keeps all accounts |
| `StreamLaws.ConnectionWindow` | src/stream/stream.ts:321 | the connection window is 65535 and the increments less all DATA octets sent, and not negative |
| `StreamLaws.StreamWindow` | src/stream/stream.ts:391-407 | the window of any live stream is the initial window in force, what it began with beyond that, and its increments, less what it sent, however often SETTINGS changes |
| `StreamLaws.ClientsHaveNoHeadStart` | src/stream/stream.ts:727-743 | client streams begin with the initial window in force |
| `StreamLaws.PromisedHeadStart` | src/stream/stream.ts:634-656 | promised streams begin with 65535, whatever the initial window in force |
| `StreamLaws.DataFits` | src/stream/stream.ts:425-448 | every DATA frame on any stream has 1 to the frame size in force octets and fits the window of the connection and that of its stream as both were at that moment; and it is as long as these and the queue allow |
| `StreamLaws.EndsExactly` | src/stream/stream.ts:438-440 | a DATA frame carries END_STREAM if and only if the end was asked for and with it all that was queued is sent |
| `StreamLaws.EndGoesOutExactly` | src/stream/stream.ts:425-448 | on a stream that has sent all that was queued, an END_STREAM frame goes out after the end was asked for if and only if something was still to be sent then or was queued later |
| `StreamLaws.NothingAfterEnd` | src/stream/stream.ts:425-448 | no DATA follows END_STREAM on a stream unless more is queued |
| `StreamLaws.SentIsTheMinimum` | src/stream/stream.ts:425-448 | a stream that is not held up has sent the least of what was queued and what the windows allowed |
| `StreamLaws.SettledOnce` | src/stream/stream.ts:459-496 | every registration is settled exactly once or still waits |
| `StreamLaws.ResponseIsData` | src/stream/stream.ts:470-474 | a response body is the data that came in for its stream, in order, without padding |
| `StreamResponses.ResponseIsWhatArrived` | src/stream/stream.ts:459-723 | in any run, polite or not, every response is what had arrived for its stream by then, told from the calls alone: the headers of the last block that can be decoded, in however many frames, all data without padding, and no response before an end of the stream has come |
| `StreamResponses.NobodyWaitsForWhole` | src/stream/stream.ts:459-481 | and in runs that ask in time nobody waits for a response whose headers and end have arrived |
| `StreamResponses.DataCompletesExactly` | src/stream/stream.ts:575-580 | DATA completes the response of a stream that waits only for its end if and only if bit 0x1 is set |
| `StreamResponses.RunKnows` | src/stream/stream.ts:538-723 | at any time the record of a stream has what has arrived for it |
| `StreamLaws.OpenedAscends` | src/stream/stream.ts:727-743 | client streams are opened in ascending odd order |
| `StreamLaws.CreditIsReceived` | src/stream/stream.ts:549-560 | the connection gives back exactly the octets received, padding included |
| `StreamLaws.RemovalIsAnnounced` | src/stream/stream.ts:452-457 | no stream goes without streamClosed |
| `StreamRuns.RunWindows` | src/stream/stream.ts:393-448 | in every reachable state both kinds of send window have those values |
| `StreamRuns.RunBytes` | src/stream/stream.ts:425-448 | in every reachable state what was sent on a stream and its queue make up all data handed over, and its chunks all data received |
| `StreamRuns.RunConserves` | src/stream/stream.ts:422-448 | in every reachable state each live stream has an empty queue, or the connection window or its own window is used up; and every stream is in one of four states |
| `StreamRuns.RunSendsTheMinimum` | src/stream/stream.ts:422-448 | in every reachable state a client stream has sent the minimum of queued data and credits, whatever the order of events, if and only if its window is not below zero |
| `StreamRuns.UnshrunkSendsTheMinimum` | src/stream/stream.ts:391-448 | so it has in every run in which SETTINGS never lowers the initial window |
| `StreamLaws.UnshrunkIsNatural` | src/stream/stream.ts:391-407 | if SETTINGS never lowers the initial window, no window of a stream is ever below zero |
| `StreamRuns.AfterMoves` | src/stream/stream.ts:247-257 | streams only move along remote_reserved, open, remote_half_closed, closed |
| `StreamRuns.EndMovesOneSide` | src/stream/stream.ts:247-257 | END_STREAM ends the side of the peer and leaves ours, in every state in which the peer may send |
| `StreamRuns.RunSettles` | src/stream/stream.ts:459-496 | after any run each registration is settled exactly once unless its stream is live and waits |
| `StreamRuns.RunPrompt` | src/stream/stream.ts:459-481 | a response that somebody waits for is resolved by the very frame that completes it, in every run in which it is asked for before it is complete |
| `StreamRuns.LateIsNotPrompt` | src/stream/stream.ts:763-775 | asked for when it is complete, it is left waiting |
| `StreamRuns.SettingsInForce` | src/stream/stream.ts:374-420 | afterwards the three settings that matter are in force, the frame size clamped, and no other setting counts |
| `StreamRuns.AbortSettlesAll` | src/stream/stream.ts:777-783 | after abortAll every registration ever made is settled exactly once |
| `StreamRuns.GoawayRemovesExactly` | src/stream/stream.ts:666-678 | GOAWAY removes exactly the streams above the last one and leaves the others alone |
| `StreamRuns.RunGivesBack` | src/stream/stream.ts:549-560 | receive window and credit given always add up to 65535 |
| `StreamRuns.RunReceives` | src/stream/stream.ts:548-553 | the receive window of a stream is 65535 less what came in on it |
| `StreamReplies.SettingsAreAcknowledged` | src/stream/stream.ts:625-632 | SETTINGS are acknowledged once, after they are in force; an acknowledgement is announced and nothing else |
| `StreamReplies.PingIsEchoed` | src/stream/stream.ts:658-664 | a PING is answered with its own data |
| `StreamReplies.DataIsGivenBack` | src/stream/stream.ts:538-561 | the octets of DATA, padding included, are given back at once, to the connection and then to the live stream |
| `StreamReplies.CreditIsTaken` | src/stream/stream.ts:680-698 | WINDOW_UPDATE credits its stream or the connection with its increment, and makes the manager say nothing but DATA |
| `StreamReplies.RstRemoves` | src/stream/stream.ts:616-623 | RST_STREAM removes its stream and no other, and rejects who waits with its code |
| `StreamReplies.PriorityIsIgnored` | src/stream/stream.ts:508-510 | PRIORITY changes nothing |
| `StreamReplies.ResolvingSays` | src/stream/stream.ts:459-481 | what is emitted and called when a response is complete, in order; a pushed one is announced first |
| `StreamReplies.GoawaySaysWhy` | src/stream/stream.ts:666-678 | GOAWAY is announced as it came and every rejection gives all that it says |
| `StreamReplies.AbortSaysWhy` | src/stream/stream.ts:777-783 | every rejection of abortAll gives the error it was called with |
| `StreamReplies.ExpectingSays` | src/stream/stream.ts:763-775 | asking for the response of a stream that is gone is refused at once with code 1 |
| `StreamReplies.PromiseSays` | src/stream/stream.ts:634-656 | a promise opens a stream reserved by the peer and is announced with its headers |
| `StreamReplies.UndecodableIsThrown` | src/stream/stream.ts:583-614 | a header block that cannot be decoded is thrown, with its error, and says nothing |
| `StreamOrder.RunByAge` | src/stream/stream.ts:297-457 | the map of streams is always in the order in which they were opened |
| `StreamOrder.OldestFirst` | src/stream/stream.ts:680-698 | when credit for the connection makes a stream send, all older streams have sent what their own windows let through |
| `StreamRuns.ZeroUpdatesExactly` | src/stream/stream.ts:549-560 | DATA on a live stream is answered with a window update of zero if and only if its payload is empty |
| `StreamReactions.DispatchReacts` | src/stream/stream.ts:500-536 | a frame from the peer makes the manager queue no data, register no callback, send no HEADERS and open no stream but the one promised |
| `HeaderFragments.FragmentsInvisibleExactly` | src/stream/stream.ts:583-614 | for a client stream, a block in HEADERS and any number of CONTINUATIONs has the result of one HEADERS frame, if and only if END_STREAM is not set, was known, or the block does not decode |
| `HeaderFragments.ContinuedAsOne` | src/stream/stream.ts:700-723 | any number of CONTINUATIONs act as one |
| `HeaderFragments.PromiseFragmentsInvisible` | src/stream/stream.ts:634-656 | a promise in fragments has the result of one frame: on the promised stream, with one push event |
| `HeaderFragments.PushedFragmentsInvisibleExactly` | src/stream/stream.ts:583-614 | for a pushed stream, with or without END_STREAM, a block in fragments has the result of one frame if and only if it does not decode |
| `HeaderFragments.PushedResponseInFragments` | src/stream/stream.ts:713-721 | otherwise it is announced as a promise and, reserved, stays so |
| `HeaderFragments.HeadersPaddingExactly` | src/stream/stream.ts:583-614 | HEADERS with padding or priority fields has the result of its bare block fragment if and only if the whole payload decodes like the fragment |
| `HeaderFragments.PaddedHeadersThrow` | src/stream/stream.ts:583-614 | a padded frame that means :method GET and throws |
| `SlotPool.SlotsAreUsed` | src/connection.ts:335-369 | while a request waits, at least as many slots as the lowest limit ever in force are in use or on their way |
| `SlotPool.NoLostWakeup` | src/connection.ts:335-369 | if the limit is never below one, a waiting request implies an open stream or a request already woken or granted |
| `SlotPool.GoneServesFirst` | src/connection.ts:349-369 | a slot that a stream gives up wakes the first of those who wait and leaves the others in order |
| `SlotPool.ServedInOrder` | src/connection.ts:335-362 | over any run requests are woken in the order in which they began to wait |
| `SlotPool.RequestsAreKept` | src/connection.ts:140-171 | over any run no request is lost or doubled among those waiting, woken, granted and done |
| `SlotPool.LostExactly` | src/connection.ts:335-346 | a wakeup is lost exactly by parking while no stream is open and no other request is under way |
| `SlotPool.ZeroLoses` | src/connection.ts:336-345 | a limit of zero parks the first request for good |
| `SlotPool.UsedExactly` | src/connection.ts:335-369 | while a request waits as many slots as the limit are in use or on their way, and the one step that ends this is a limit raised above them |
| `SlotPool.AlwaysUsedExactly` | src/connection.ts:335-369 | so in a whole run this holds throughout if and only if no limit is raised over waiting requests |
| `SlotPool.WaitsDespiteRoom` | src/connection.ts:349-354 | a run in which a request waits though there is room |
| `SlotPool.LimitPassedExactly` | src/connection.ts:140-171 | the open streams exceed the limit exactly by one opening when all slots are taken, or by a limit below them |
| `SlotPool.ReservedExactly` | src/connection.ts:335-346 | open and promised slots together exceed the limit exactly by a request that looks while the last are only promised, or by a limit below them |
| `SlotPool.AlwaysReservedExactly` | src/connection.ts:140-171 | so in a whole run they stay within it if and only if no step does that, and then so do the open streams |
| `SlotPool.LimitCanBePassed` | src/connection.ts:335-346 | a run in which two requests both find the last slot |
| `SlotPool.ClosingDrains` | src/connection.ts:335-346 | once closing no request parks, and every step of a request brings all of them nearer to being done |
| `SlotPool.ClosingEnds` | src/connection.ts:335-346 | what is outstanding when closing begins bounds the number of steps that requests still make |
| `SlotPool.NobodyLeft` | src/connection.ts:150-159 | a closing connection whose limit was never below one, without streams and without steps due, has nothing outstanding, after no more steps than were outstanding when closing began |
| `SlotPool.NobodyParkedWhenClosed` | src/connection.ts:384-398 | after close or a fatal error nobody is parked |
| `ConnectionSteps.HeardConsistent` | src/connection.ts:365-369 | every stream the manager drops frees its slot |
| `ConnectionSteps.NextConsistent` | src/connection.ts:140-171 | every step of the connection keeps the slots in use among the live streams, and the invariant of the manager |
| `ConnectionSlots.ConnectionSafe` | src/connection.ts:140-485 | after any interleaving both hold, and no wakeup is lost unless the peer set the limit below one |
| `ConnectionSlots.NextIsPoolRun` | src/connection.ts:140-485 | every step of the connection, its listeners included, does to the pool what a run of steps of the pool alone does |
| `ConnectionSlots.PoolIsRun` | src/connection.ts:140-485 | so the pool of the connection is always that of a run of the pool, and all that is shown of those holds of it |
| `ConnectionSlots.ConnectionServesInOrder` | src/connection.ts:140-171 | both hold over any run of the connection |
| `ConnectionSlots.SettingsLimit` | src/stream/stream.ts:387-390 | all that SETTINGS does to the pool is to put its limit in force: it wakes nobody |
| `ConnectionSlots.UsedByConnectionExactly` | src/connection.ts:335-369 | the one step of the connection that leaves slots unused while requests wait is SETTINGS with a limit above the slots in use |
| `ConnectionSlots.AlwaysInUseExactly` | src/connection.ts:335-369 | so in a whole run every slot is in use whenever a request waits if and only if no SETTINGS does that |
| `ConnectionSlots.LimitPassedByConnectionExactly` | src/connection.ts:140-171 | the open streams exceed the limit exactly by a request that opens its stream when all slots are taken, or by SETTINGS with a limit below them |
| `ConnectionSlots.ReservedByConnectionExactly` | src/connection.ts:335-346 | slots taken and promised exceed it exactly by a request that looks when the last are only promised, or by SETTINGS with a limit below them |
| `ConnectionSlots.AlwaysWithinExactly` | src/connection.ts:140-171 | so in a whole run they stay within it if and only if no step does that |
| `ConnectionSlots.NobodyParksAgain` | src/connection.ts:384-398 | after closing nobody is parked, whatever comes |
| `ConnectionSteps.SlotlessExactly` | src/connection.ts:147-159 | a request that is due opens a stream in the manager, and the stream has no slot if and only if the connection is closing or closed by then |
| `ConnectionRequests.SlotlessAreLate` | src/connection.ts:140-171 | after any run a live client stream holds no slot if and only if the request that opened it came when the connection was closing or closed |
| `ConnectionRequests.RequestShape` | src/connection.ts:160-170 | after any run: a HEADERS frame is the only one of its stream, in front of all its DATA, with END_STREAM if and only if no body is queued, and then no DATA goes out |
| `ConnectionRequests.DataFollowsHead` | src/connection.ts:160-170 | no DATA goes out on a stream without its HEADERS in front |
| `ConnectionRequests.BodiesAreWhole` | src/connection.ts:160-170 | whatever a request queues is its whole body: not empty, with the end, right behind a HEADERS frame that does not end the stream |
| `ConnectionMessages.RequestIsSent` | src/connection.ts:147-170 | a request in time sends its header block whole in one HEADERS frame with flags 0x4, and 0x1 if there is no body, and queues its body behind |
| `ConnectionMessages.HeadSaysBlock` | src/connection.ts:245-263 | over any run the HEADERS frame of a stream carries the header block of the request that opened it |
| `ConnectionMessages.HeadIsReadable` | src/connection.ts:245-263 | decoded by itself, it gives the headers of the request, names lower-cased, if their strings survive |
| `ConnectionMessages.BodyGoesOut` | src/connection.ts:160-170 | over any run what went out on a live client stream and what waits make up the body of its request |
| `ConnectionMessages.SentIsCanonical` | src/frame/frame.ts:34-309 | every frame that goes out in a polite run, if its numbers fit, is parsed by the peer as it is here |
| `ConnectionMessages.GoawayCloses` | src/connection.ts:173-184 | GOAWAY from either side ends the taking in of requests; ours says what it was given |
| `ConnectionMessages.FatalSaysWhy` | src/connection.ts:384-398 | a fatal error closes the connection and is what every request in flight is rejected with |
| `ConnectionMessages.CloseSaysGoaway` | src/connection.ts:215-240 | close sends GOAWAY without stream and error, then rejects because the connection is closed |
| `ConnectionMessages.UndecodableCloses` | src/connection.ts:469-477 | headers that cannot be decoded close the connection |
| `ConnectionRequests.SilentIsLateOrMute` | src/connection.ts:147-170 | after any run a live client stream has its HEADERS out if and only if the request that opened it was in time and its headers could be encoded |
| `ConnectionRequests.MuteHoldsItsSlot` | src/connection.ts:147-162 | so a slot is held by a stream of which the peer never heard exactly by requests whose headers cannot be encoded |
| `ConnectionRequests.HundredMuteRequestsPark` | src/connection.ts:335-346 | a hundred of them park every later request, though nothing was ever sent |
| `ConnectionReading.HandledIsRun` | src/connection.ts:465-485 | what the read loop does with any frames, and any calls in between, is a run of steps, so all that is shown of runs holds of it |
| `ConnectionReading.HandledCloses` | src/connection.ts:465-485 | the read loop ends only with the connection closed |
| `ConnectionReading.WrittenIsHandled` | src/connection.ts:428-485 | canonical frames written by a peer are the frames handled, in order |
| `ConnectionSteps.TornDownLeavesNobody` | src/connection.ts:235-238 | closing leaves no stream, no slot in use and nobody parked |
| `SettingsWait.SettledExactly` | src/connection.ts:500-518 | a pending wait for the acknowledgement of SETTINGS is settled exactly by an acknowledgement, its own timer, or a fatal error if its reject function is the one at hand |
| `SettingsWait.SettledAs` | src/connection.ts:500-518 | and as what happened to it |
| `SettingsWait.OutcomeStays` | src/connection.ts:500-518 | no wait is settled twice |
| `SettingsWait.BreaksTheLastExactly` | src/connection.ts:500-518 | the last wait begun, if pending, is the one that a fatal error breaks, if and only if the timer of no earlier one ran out since |
| `ConnectionWaits.RunWaits` | src/connection.ts:384-518 | so it is after any run of the connection |
| `ConnectionWaits.AckSettlesAll` | src/connection.ts:488-518 | an acknowledgement settles every pending wait |
| `ConnectionWaits.WaitsWhenClosing` | src/connection.ts:215-240 | close leaves a pending wait to its timer; a fatal error settles it with its cause exactly if the connection is not closed and the wait is the one at hand |
| `Connection.Connection.AcquireSlot` | src/connection.ts:335-346 | parks or grants |
| `Connection.Connection.ReleaseSlot` | src/connection.ts:349-354 | wakes the first waiting request |
| `Connection.Connection.DrainSlotWaiters` | src/connection.ts:357-362 | wakes all, in order |
| `Connection.Connection.OnStreamClosed` | src/connection.ts:365-369 | frees the slot of a stream that had one |
| `Connection.Connection.Hear` | src/connection.ts:406-422 | the listeners, event by event |
| `Connection.Connection.StartRequest` | src/connection.ts:140-145 | a request up to its first await |
| `Connection.Connection.OpenRequest` | src/connection.ts:147-170 | a request from its slot on: opens, registers, encodes its headers and sends the HEADERS frame and the body, or gives the slot up when closing; headers that cannot be encoded leave the stream registered, unsent and with its slot |
| `Connection.OpenSaysHeaders` | src/connection.ts:147-170 | a request in time whose headers survive sends a HEADERS frame that gives these headers, names lower-cased, to who decodes it |
| `Connection.Connection.SendHeaders` | src/connection.ts:244-263 | the HEADERS frame with END_HEADERS, and END_STREAM when there is no body |
| `Connection.Connection.ReceiveFrame` | src/connection.ts:469-477 | dispatches a frame, hears of its events, and tears down with the error thrown |
| `Connection.Connection.ReadLoop` | src/connection.ts:465-485 | however the transport cuts the octets and whatever calls come while it waits for each frame: the frames of the whole stream are dispatched in order until the connection is closed, by a call, an error of the manager, a frame that does not parse or the end of the transport, each handed on as the cause |
| `Connection.Connection.TakeIn` | src/connection.ts:469-484 | one frame, or the error of reading it |
| `Connection.Connection.SendGoaway` | src/connection.ts:173-184 | sends GOAWAY and starts closing |
| `Connection.Connection.Close` | src/connection.ts:215-240 | sends GOAWAY and tears down, once |
| `Connection.Connection.HandleFatal` | src/connection.ts:384-398 | breaks the pending SETTINGS wait, rejects every request in flight with the given cause and wakes those that wait, once |
| `Connection.Connection.WaitForSettingsAck` | src/connection.ts:500-518 | begins a wait, whose reject function is then the one at hand |
| `Connection.Connection.OnSettingsAck` | src/connection.ts:510-515 | resolves every wait that listens and forgets the reject function |
| `Connection.Connection.OnSettingsAckTimeout` | src/connection.ts:504-508 | settles the wait and forgets the reject function, whosever it is |

## Left out

- Transport, clock, random numbers and the connection preface: the transport is a finite sequence of chunks, GREASE ids are parameters, and sent frames are entries of the log.
- Promises and microtasks as such: a request moves in atomic steps, any woken or granted request may be next, and callbacks are entries of the log.
- The event emitter: the events are entries of the log, and the listeners of the connection act on them when the call that emitted them returns.
- Numbers from 2^53 on, where doubles lose precision: integers are unbounded. The wrap of stream ids past 2^31 is not modelled.
- Strings are sequences of characters; surrogate pairs, which the encoder rejects either way, count as one. Lower-casing is modelled where it decides what can be encoded.
- Setting ids are natural numbers; settings without a value are absent from the map.
- Stream records are values in a map rather than objects, so the reference that openStream hands out is not followed; the initialSize of windows, which nothing reads, and the copy of a pushed response kept on its record are dropped. The loop that moves all windows by the difference is one assignment.
- The order of names in a decoded header map, and the status code read from it.
- The order in which a request lists its headers: they are taken in the order in which they are sent.
- The error a request is refused with when the connection is closing, and the GOAWAY remembered for it.
- `ping`, option schemas, error classes, PRIORITY.
- Conformance the code does not implement: rejecting the end-of-string symbol or long padding, window overflow errors, size limits on header lists.
