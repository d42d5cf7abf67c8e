/** What a response is made of (src/stream/stream.ts:459-723): told from the calls alone. */
module StreamResponses {
  import opened Bits
  import opened Results
  import opened PrefixInteger
  import opened Frames
  import opened SettingsEntries
  import opened StreamTypes
  import opened StreamSteps
  import opened StreamInvariant
  import opened StreamRuns
  import opened StreamReactions

  // ----- what arrives -----

  /**
   * What has come in for a stream: its complete header blocks, in order, the octets of the next one,
   * its data without padding, and whether its end has come.
   */
  datatype Arrived = Arrived(blocks: seq<Bytes>, next: Bytes, data: Bytes, ended: bool)

  const NOTHING: Arrived := Arrived([], [], [], false)

  function Extended(a: Arrived, fragment: Bytes, endHeaders: bool): Arrived {
    if endHeaders then a.(blocks := a.blocks + [a.next + fragment], next := []) else a.(next := a.next + fragment)
  }

  /** Section 6.1 of RFC 7540: bit 0x8 says that the first octet counts the padding at the end. */
  function PlainData(flags: int, payload: Bytes): Bytes {
    if flags % 16 < 8 then payload
    else if payload == [] || 1 + payload[0] > |payload| then []
    else payload[1..|payload| - payload[0]]
  }

  /**
   * What has arrived for a stream after one more call, if a had before; which stream a CONTINUATION is
   * for, m knows. DATA ends its stream with bit 0x1; HEADERS do so when their block is whole and can be decoded.
   */
  function ArrivedAfter(decode: Decoder, m: Manager, a: Arrived, input: Input, id: int): Arrived {
    match input
    case OpenStream => if m.nextId == id then NOTHING else a
    case Dispatch(Data(flags, i, payload)) =>
      if i == id then a.(data := a.data + PlainData(flags, payload), ended := a.ended || flags % 2 == 1) else a
    case Dispatch(PushPromise(_, _, endHeaders, _, promised, payload)) =>
      if promised == id then Extended(NOTHING, payload, endHeaders) else a
    case Dispatch(Headers(_, i, endHeaders, endStream, _, _, payload)) =>
      if i == id
      then Extended(a, payload, endHeaders)
             .(ended := a.ended || (endStream && endHeaders && decode(a.next + payload).Ok?))
      else a
    case Dispatch(Continuation(_, i, endHeaders, payload)) =>
      if ContinuedStream(m, i) == id then Extended(a, payload, endHeaders) else a
    case _ => a
  }

  function ArrivedOn(decode: Decoder, inputs: seq<Input>, id: int): Arrived {
    if inputs == [] then NOTHING
    else
      var front := inputs[..|inputs| - 1];
      ArrivedAfter(decode, Run(decode, front), ArrivedOn(decode, front, id), inputs[|inputs| - 1], id)
  }

  /** What the last block says that can be decoded. */
  function LastDecoded(decode: Decoder, blocks: seq<Bytes>): Option<Headers> {
    if blocks == [] then None
    else
      match decode(blocks[|blocks| - 1])
      case Ok(headers) => Some(headers)
      case Err(_) => LastDecoded(decode, blocks[..|blocks| - 1])
  }

  // ----- what the manager keeps of it -----

  /** The record of a stream has all of it, decoded. */
  ghost predicate Knows(decode: Decoder, s: Stream, a: Arrived) {
    var decoded := LastDecoded(decode, a.blocks);
    && s.pendingHeaderBytes == a.next && s.headersComplete == decoded.Some?
    && s.responseHeaders == (if decoded.Some? then decoded.value else map[])
    && s.endStreamSeen == a.ended && Join(s.responseChunks) == a.data
  }

  predicate SameResponse(s: Stream, t: Stream) {
    && t.pendingHeaderBytes == s.pendingHeaderBytes && t.headersComplete == s.headersComplete
    && t.responseHeaders == s.responseHeaders
    && t.endStreamSeen == s.endStreamSeen && t.responseChunks == s.responseChunks
  }

  /** Streams that stay keep what they know. */
  ghost predicate KeepsResponses(m: Manager, r: Manager) {
    forall id :: id in r.streams ==> id in m.streams && SameResponse(m.streams[id], r.streams[id])
  }

  lemma ExtendedDecoded(decode: Decoder, a: Arrived, fragment: Bytes)
    ensures var block := a.next + fragment;
            LastDecoded(decode, Extended(a, fragment, true).blocks) ==
            if decode(block).Ok? then Some(decode(block).value) else LastDecoded(decode, a.blocks)
  {
    var block := a.next + fragment;
    assert (a.blocks + [block])[..|a.blocks|] == a.blocks;
  }

  /** The record after a fragment, before anything is settled. */
  function WithFragment(decode: Decoder, s: Stream, fragment: Bytes, endHeaders: bool): Stream {
    var collected := s.(pendingHeaderBytes := s.pendingHeaderBytes + fragment);
    if endHeaders then WithHeaders(decode, collected).0 else collected
  }

  lemma FragmentKnown(decode: Decoder, s: Stream, a: Arrived, fragment: Bytes, endHeaders: bool)
    requires Knows(decode, s, a)
    ensures Knows(decode, WithFragment(decode, s, fragment, endHeaders), Extended(a, fragment, endHeaders))
  {
    if endHeaders {
      ExtendedDecoded(decode, a, fragment);
    }
  }

  /** The record after HEADERS, before anything is settled. */
  function WithHead(decode: Decoder, s: Stream, payload: Bytes, endHeaders: bool, endStream: bool): Stream {
    var t := WithFragment(decode, s, payload, endHeaders);
    if endHeaders && endStream && decode(s.pendingHeaderBytes + payload).Ok? then t.(endStreamSeen := true) else t
  }

  lemma HeadKnown(decode: Decoder, s: Stream, a: Arrived, payload: Bytes, endHeaders: bool, endStream: bool)
    requires Knows(decode, s, a)
    ensures Knows(decode, WithHead(decode, s, payload, endHeaders, endStream),
                  Extended(a, payload, endHeaders)
                    .(ended := a.ended || (endStream && endHeaders && decode(a.next + payload).Ok?)))
  {
    FragmentKnown(decode, s, a, payload, endHeaders);
  }

  lemma PlainIsUnpadded(flags: int, payload: Bytes)
    ensures Unpadded(flags, payload) == PlainData(flags, payload)
  {
  }

  /** The record after DATA. */
  function WithData(s: Stream, flags: int, payload: Bytes): Stream {
    var data := PlainData(flags, payload);
    s.(responseChunks := if data == [] then s.responseChunks else s.responseChunks + [data],
       endStreamSeen := s.endStreamSeen || flags % 2 == 1)
  }

  lemma DataKnown(decode: Decoder, s: Stream, a: Arrived, flags: int, payload: Bytes)
    requires Knows(decode, s, a)
    ensures Knows(decode, WithData(s, flags, payload),
                  a.(data := a.data + PlainData(flags, payload), ended := a.ended || flags % 2 == 1))
  {
    JoinSnoc(s.responseChunks, PlainData(flags, payload));
    assert Join(s.responseChunks) + [] == Join(s.responseChunks);
  }

  // ----- what is answered -----

  predicate IsAnswer(e: Event) {
    e.Resolved? || e.PushResponse?
  }

  /** e hands out the whole response that t has. */
  predicate AnswersWith(e: Event, id: int, t: Stream) {
    IsAnswer(e) ==>
      && e.id == id && t.headersComplete && t.endStreamSeen
      && e.response.headers == t.responseHeaders && e.response.body == Join(t.responseChunks)
  }

  /** Responses handed out between m and r are what the stream has in t. */
  ghost predicate AnswersFrom(m: Manager, r: Manager, id: int, t: Stream) {
    m.log <= r.log && forall k :: |m.log| <= k < |r.log| ==> AnswersWith(r.log[k], id, t)
  }

  lemma ResolvingAnswers(m: Manager, id: int)
    requires id in m.streams
    ensures AnswersFrom(m, MaybeResolve(m, id), id, m.streams[id]) && KeepsResponses(m, MaybeResolve(m, id))
  {
  }

  /** A step that touches the headers of one stream at most: id, whose record they then are in t. */
  ghost predicate Touches(m: Manager, r: Manager, id: int, t: Stream) {
    && AnswersFrom(m, r, id, t)
    && (forall k :: k in r.streams && k != id ==> k in m.streams && SameResponse(m.streams[k], r.streams[k]))
    && (id in r.streams ==> SameResponse(t, r.streams[id]))
  }

  lemma TakenTouches(m: Manager, id: int, flags: int, payload: Bytes)
    requires id in m.streams
    ensures var n, t := TakeData(m, id, flags, payload), WithData(m.streams[id], flags, payload);
            && m.log <= n.log && (forall k :: |m.log| <= k < |n.log| ==> !IsAnswer(n.log[k]))
            && n.streams == m.streams[id := n.streams[id]]
            && SameResponse(t, n.streams[id].(endStreamSeen := t.endStreamSeen))
            && n.streams[id].endStreamSeen == m.streams[id].endStreamSeen
  {
    PlainIsUnpadded(flags, payload);
  }

  lemma DataTouches(m: Manager, id: int, flags: int, payload: Bytes)
    requires id in m.streams
    ensures Touches(m, AfterData(m, id, flags, payload), id, WithData(m.streams[id], flags, payload))
  {
    var n := TakeData(m, id, flags, payload);
    TakenTouches(m, id, flags, payload);
    if flags % 2 == 1 {
      ResolvingAnswers(Put(n, id, EndStream(n.streams[id])), id);
    }
  }

  lemma HeadersTouch(decode: Decoder, m: Manager, id: int, endHeaders: bool, endStream: bool, payload: Bytes)
    requires id in m.streams
    ensures Touches(m, AfterHeaders(decode, m, id, endHeaders, endStream, payload).manager, id,
                    WithHead(decode, m.streams[id], payload, endHeaders, endStream))
  {
    var t := WithFragment(decode, m.streams[id], payload, endHeaders);
    var u := if endStream then EndStream(Promoted(t)) else Promoted(t);
    ResolvingAnswers(Put(m, id, u), id);
  }

  /** One record put in its place, perhaps announced, and resolved or not. */
  lemma PutTouches(m: Manager, pendingPush: map<int, int>, id: int, t: Stream)
    requires id in m.streams
    ensures var n := Put(m, id, t).(pendingPush := pendingPush);
            var o := if t.isPushPromise then Log(n, [Push(id, t.responseHeaders)]) else n;
            Touches(m, Put(m, id, t), id, t) && Touches(m, n, id, t) && Touches(m, MaybeResolve(o, id), id, t)
  {
    var n := Put(m, id, t).(pendingPush := pendingPush);
    var o := if t.isPushPromise then Log(n, [Push(id, t.responseHeaders)]) else n;
    ResolvingAnswers(o, id);
  }

  lemma ContinuationTouches(decode: Decoder, m: Manager, id: int, endHeaders: bool, payload: Bytes)
    requires ContinuedStream(m, id) in m.streams
    ensures var target := ContinuedStream(m, id);
            Touches(m, AfterContinuation(decode, m, id, endHeaders, payload).manager, target,
                    WithFragment(decode, m.streams[target], payload, endHeaders))
  {
    var target := ContinuedStream(m, id);
    var t := WithFragment(decode, m.streams[target], payload, endHeaders);
    PutTouches(m, m.pendingPush - {id}, target, t);
  }

  lemma PromiseTouches(decode: Decoder, m: Manager, id: int, promised: int, endHeaders: bool, payload: Bytes)
    ensures Touches(m, AfterPushPromise(decode, m, id, promised, endHeaders, payload).manager, promised,
                    WithFragment(decode, NewStream(promised, DEFAULT_INITIAL_WINDOW_SIZE, true), payload, endHeaders))
  {
    assert [] + payload == payload;
  }

  // ----- every call -----

  /** The headers of the last block that can be decoded, all data, and the end has come. */
  ghost predicate IsWhatArrived(decode: Decoder, response: Response, a: Arrived) {
    a.ended && LastDecoded(decode, a.blocks) == Some(response.headers) && response.body == a.data
  }

  /** What is known of every stream, and answered with, after one call. */
  ghost predicate Faithful(decode: Decoder, r: Manager, from: nat, arrived: int -> Arrived) {
    && (forall id :: id in r.streams ==> Knows(decode, r.streams[id], arrived(id)))
    && (forall k :: from <= k < |r.log| && IsAnswer(r.log[k]) ==>
          IsWhatArrived(decode, r.log[k].response, arrived(r.log[k].id)))
  }

  ghost predicate AllKnown(decode: Decoder, m: Manager, arrived: int -> Arrived) {
    forall id :: id in m.streams ==> Knows(decode, m.streams[id], arrived(id))
  }

  /** One stream is touched, and what it has is what arrived; the others have what they had. */
  lemma TouchedIsFaithful(decode: Decoder, m: Manager, r: Manager, id: int, t: Stream,
                          before: int -> Arrived, after: int -> Arrived)
    requires AllKnown(decode, m, before) && Touches(m, r, id, t) && Knows(decode, t, after(id))
    requires forall k :: k != id ==> after(k) == before(k)
    ensures Faithful(decode, r, |m.log|, after)
  {
  }

  lemma UntouchedIsFaithful(decode: Decoder, m: Manager, r: Manager, before: int -> Arrived, after: int -> Arrived)
    requires AllKnown(decode, m, before) && KeepsResponses(m, r)
    requires forall k :: |m.log| <= k < |r.log| ==> !IsAnswer(r.log[k])
    requires forall k :: k in r.streams ==> after(k) == before(k)
    ensures Faithful(decode, r, |m.log|, after)
  {
  }

  lemma SameStatesKeep(m: Manager, r: Manager)
    requires SameStates(m, r)
    ensures KeepsResponses(m, r)
  {
    assert forall id :: id in r.streams ==> id in m.streams && SameState(m.streams[id], r.streams[id]);
  }

  lemma NoAnswers(m: Manager, r: Manager, promised: int)
    requires Reacts(m, r, promised, false)
    ensures forall k :: |m.log| <= k < |r.log| ==> !IsAnswer(r.log[k])
  {
    assert forall k :: |m.log| <= k < |r.log| ==> Reaction(r.log[k], promised, false);
  }

  /** Frames that bring neither headers nor data leave what is known and answer nothing. */
  lemma OtherFramesKeep(decode: Decoder, m: Manager, f: Frame)
    requires !Answers(f) && !f.PushPromise?
    ensures var r := AfterDispatch(decode, m, f).manager;
            KeepsResponses(m, r) && forall k :: |m.log| <= k < |r.log| ==> !IsAnswer(r.log[k])
  {
    var r := AfterDispatch(decode, m, f).manager;
    DispatchReacts(decode, m, f);
    NoAnswers(m, r, PromisedBy(f));
    match f
    case SettingsFrame(_, _, ack, settings, _, _) =>
      if !ack {
        SettingsStates(m, NaturalEntries(settings));
        SameStatesKeep(m, AfterSettings(m, NaturalEntries(settings)));
      }
    case WindowUpdate(_, id, increment) =>
      WindowUpdateStates(m, id, increment);
      SameStatesKeep(m, r);
    case Goaway(_, _, last, errorCode, debugData) =>
      RejectingKeeps(Log(m, [GoawayIn(last, errorCode, debugData)]), m.order, Some(last),
                     GoawayError(last, errorCode, debugData));
    case _ =>
  }

  lemma SendDataKeeps(m: Manager, id: int, data: Bytes, endStream: bool)
    ensures var r := AfterSendData(m, id, data, endStream);
            KeepsResponses(m, r) && forall k :: |m.log| <= k < |r.log| ==> !IsAnswer(r.log[k])
  {
    SendDataStates(m, id, data, endStream);
    SameStatesKeep(m, AfterSendData(m, id, data, endStream));
    if id in m.streams {
      var n := Enqueue(m, id, data, endStream);
      DrainedReacts(n, id, 0, false);
      NoAnswers(n, Drained(n, id), 0);
    }
  }

  lemma CreditKeeps(m: Manager, id: int, increment: int)
    ensures var r := AfterWindowUpdate(m, id, increment);
            KeepsResponses(m, r) && forall k :: |m.log| <= k < |r.log| ==> !IsAnswer(r.log[k])
  {
    WindowUpdateStates(m, id, increment);
    SameStatesKeep(m, AfterWindowUpdate(m, id, increment));
    WindowUpdateReacts(m, id, increment, 0, false);
    NoAnswers(m, AfterWindowUpdate(m, id, increment), 0);
  }

  lemma AbortKeeps(m: Manager, err: StreamError)
    ensures var r := AfterAbortAll(m, err);
            KeepsResponses(m, r) && forall k :: |m.log| <= k < |r.log| ==> !IsAnswer(r.log[k])
  {
    AbortReacts(m, err, 0, false);
    NoAnswers(m, AfterAbortAll(m, err), 0);
  }

  lemma DataFaithful(decode: Decoder, m: Manager, f: Frame, before: int -> Arrived, after: int -> Arrived)
    requires f.Data? && AllKnown(decode, m, before) &&
             forall id :: after(id) == ArrivedAfter(decode, m, before(id), Dispatch(f), id)
    ensures Faithful(decode, AfterDispatch(decode, m, f).manager, |m.log|, after)
  {
    var id := f.streamId;
    if id in m.streams {
      DataTouches(m, id, f.flags, f.payload);
      DataKnown(decode, m.streams[id], before(id), f.flags, f.payload);
      TouchedIsFaithful(decode, m, AfterData(m, id, f.flags, f.payload), id,
                        WithData(m.streams[id], f.flags, f.payload),
                        before, after);
    }
  }

  lemma HeadersFaithful(decode: Decoder, m: Manager, f: Frame, before: int -> Arrived, after: int -> Arrived)
    requires f.Headers? && AllKnown(decode, m, before) &&
             forall id :: after(id) == ArrivedAfter(decode, m, before(id), Dispatch(f), id)
    ensures Faithful(decode, AfterDispatch(decode, m, f).manager, |m.log|, after)
  {
    var id := f.streamId;
    if id in m.streams {
      HeadersTouch(decode, m, id, f.endHeaders, f.endStream, f.payload);
      HeadKnown(decode, m.streams[id], before(id), f.payload, f.endHeaders, f.endStream);
      TouchedIsFaithful(decode, m, AfterDispatch(decode, m, f).manager, id,
                        WithHead(decode, m.streams[id], f.payload, f.endHeaders, f.endStream), before, after);
    }
  }

  lemma ContinuationFaithful(decode: Decoder, m: Manager, f: Frame, before: int -> Arrived, after: int -> Arrived)
    requires f.Continuation? && AllKnown(decode, m, before) &&
             forall id :: after(id) == ArrivedAfter(decode, m, before(id), Dispatch(f), id)
    ensures Faithful(decode, AfterDispatch(decode, m, f).manager, |m.log|, after)
  {
    var target := ContinuedStream(m, f.streamId);
    if target in m.streams {
      ContinuationTouches(decode, m, f.streamId, f.endHeaders, f.payload);
      FragmentKnown(decode, m.streams[target], before(target), f.payload, f.endHeaders);
      TouchedIsFaithful(decode, m, AfterDispatch(decode, m, f).manager, target,
                        WithFragment(decode, m.streams[target], f.payload, f.endHeaders), before, after);
    }
  }

  lemma PromiseFaithful(decode: Decoder, m: Manager, f: Frame, before: int -> Arrived, after: int -> Arrived)
    requires f.PushPromise? && AllKnown(decode, m, before) &&
             forall id :: after(id) == ArrivedAfter(decode, m, before(id), Dispatch(f), id)
    ensures Faithful(decode, AfterDispatch(decode, m, f).manager, |m.log|, after)
  {
    var s := NewStream(f.promisedStreamId, DEFAULT_INITIAL_WINDOW_SIZE, true);
    PromiseTouches(decode, m, f.streamId, f.promisedStreamId, f.endHeaders, f.payload);
    FragmentKnown(decode, s, NOTHING, f.payload, f.endHeaders);
    TouchedIsFaithful(decode, m, AfterDispatch(decode, m, f).manager, f.promisedStreamId,
                      WithFragment(decode, s, f.payload, f.endHeaders), before, after);
  }

  lemma FrameFaithful(decode: Decoder, m: Manager, f: Frame, before: int -> Arrived, after: int -> Arrived)
    requires AllKnown(decode, m, before) &&
             forall id :: after(id) == ArrivedAfter(decode, m, before(id), Dispatch(f), id)
    ensures Faithful(decode, AfterDispatch(decode, m, f).manager, |m.log|, after)
  {
    match f
    case Data(_, _, _) => DataFaithful(decode, m, f, before, after);
    case Headers(_, _, _, _, _, _, _) => HeadersFaithful(decode, m, f, before, after);
    case Continuation(_, _, _, _) => ContinuationFaithful(decode, m, f, before, after);
    case PushPromise(_, _, _, _, _, _) => PromiseFaithful(decode, m, f, before, after);
    case _ =>
      OtherFramesKeep(decode, m, f);
      UntouchedIsFaithful(decode, m, AfterDispatch(decode, m, f).manager, before, after);
  }

  lemma OpenFaithful(decode: Decoder, m: Manager, before: int -> Arrived, after: int -> Arrived)
    requires AllKnown(decode, m, before) && forall id :: after(id) == if id == m.nextId then NOTHING else before(id)
    ensures Faithful(decode, AfterOpen(m), |m.log|, after)
  {
    TouchedIsFaithful(decode, m, AfterOpen(m), m.nextId, NewStream(m.nextId, m.initialWindow, false), before, after);
  }

  lemma AfterFaithful(decode: Decoder, m: Manager, input: Input, before: int -> Arrived, after: int -> Arrived)
    requires AllKnown(decode, m, before) && forall id :: after(id) == ArrivedAfter(decode, m, before(id), input, id)
    ensures Faithful(decode, After(decode, m, input).manager, |m.log|, after)
  {
    var r := After(decode, m, input).manager;
    match input
    case OpenStream => OpenFaithful(decode, m, before, after);
    case Dispatch(f) => FrameFaithful(decode, m, f, before, after);
    case SendData(id, data, endStream) =>
      SendDataKeeps(m, id, data, endStream);
      UntouchedIsFaithful(decode, m, r, before, after);
    case ApplyWindowUpdate(id, increment) =>
      CreditKeeps(m, id, increment);
      UntouchedIsFaithful(decode, m, r, before, after);
    case ExpectResponse(id) => UntouchedIsFaithful(decode, m, r, before, after);
    case AbortAll(error) =>
      AbortKeeps(m, error);
      UntouchedIsFaithful(decode, m, r, before, after);
  }

  // ----- any run -----

  function ArrivedFor(decode: Decoder, inputs: seq<Input>): int -> Arrived {
    id => ArrivedOn(decode, inputs, id)
  }

  lemma OneMoreFaithful(decode: Decoder, inputs: seq<Input>)
    requires inputs != []
    requires var front := inputs[..|inputs| - 1];
             AllKnown(decode, Run(decode, front), ArrivedFor(decode, front))
    ensures var front := inputs[..|inputs| - 1];
            Faithful(decode, Run(decode, inputs), |Run(decode, front).log|, ArrivedFor(decode, inputs))
  {
    var front, last := inputs[..|inputs| - 1], inputs[|inputs| - 1];
    AfterFaithful(decode, Run(decode, front), last, ArrivedFor(decode, front), ArrivedFor(decode, inputs));
  }

  /** After any run, polite or not, the record of every stream has what has arrived for it. */
  lemma {:induction false} RunKnows(decode: Decoder, inputs: seq<Input>)
    ensures AllKnown(decode, Run(decode, inputs), ArrivedFor(decode, inputs))
  {
    if inputs == [] {
    } else {
      RunKnows(decode, inputs[..|inputs| - 1]);
      OneMoreFaithful(decode, inputs);
    }
  }

  /** If responses are asked for in time, nobody waits for one whose headers and end have arrived. */
  lemma NobodyWaitsForWhole(decode: Decoder, inputs: seq<Input>, id: int)
    requires InTimeRun(decode, inputs)
    ensures var m, a := Run(decode, inputs), ArrivedOn(decode, inputs, id);
            id in m.streams && m.streams[id].resolver ==> !(a.ended && LastDecoded(decode, a.blocks).Some?)
  {
    RunPrompt(decode, inputs);
    RunKnows(decode, inputs);
    assert id in Run(decode, inputs).streams ==>
             Knows(decode, Run(decode, inputs).streams[id], ArrivedFor(decode, inputs)(id));
  }

  /** DATA completes the response of a stream that waits only for its end exactly if bit 0x1 is set. */
  lemma DataCompletesExactly(m: Manager, id: int, flags: int, payload: Bytes)
    requires id in m.streams && m.streams[id].headersComplete && m.streams[id].resolver
    requires !m.streams[id].endStreamSeen
    ensures id !in AfterData(m, id, flags, payload).streams <==> flags % 2 == 1
  {
  }

  lemma SendDataGrows(m: Manager, id: int, data: Bytes, endStream: bool)
    ensures m.log <= AfterSendData(m, id, data, endStream).log
  {
    if id in m.streams {
      DrainedReacts(Enqueue(m, id, data, endStream), id, 0, false);
    }
  }

  lemma LogGrows(decode: Decoder, m: Manager, input: Input)
    ensures m.log <= After(decode, m, input).manager.log
  {
    match input
    case Dispatch(f) => DispatchReacts(decode, m, f);
    case SendData(id, data, endStream) => SendDataGrows(m, id, data, endStream);
    case ApplyWindowUpdate(id, increment) => WindowUpdateReacts(m, id, increment, 0, false);
    case AbortAll(error) => AbortReacts(m, error, 0, false);
    case _ =>
  }

  /** The k-th event of a run came with the n-th call. */
  predicate CameWith(decode: Decoder, inputs: seq<Input>, n: nat, k: nat) {
    0 < n <= |inputs| && |Run(decode, inputs[..n - 1]).log| <= k < |Run(decode, inputs[..n]).log|
  }

  /**
   * Every response in any run is what had arrived for its stream by then: the headers of the last block
   * that can be decoded, all data without padding, and no response comes before the end has.
   */
  lemma {:induction false} ResponseIsWhatArrived(decode: Decoder, inputs: seq<Input>, k: nat) returns (n: nat)
    requires k < |Run(decode, inputs).log| && IsAnswer(Run(decode, inputs).log[k])
    ensures CameWith(decode, inputs, n, k)
    ensures var e := Run(decode, inputs).log[k];
            IsWhatArrived(decode, e.response, ArrivedOn(decode, inputs[..n], e.id))
  {
    var front := inputs[..|inputs| - 1];
    LogGrows(decode, Run(decode, front), inputs[|inputs| - 1]);
    if k < |Run(decode, front).log| {
      n := ResponseIsWhatArrived(decode, front, k);
      assert front[..n] == inputs[..n] && front[..n - 1] == inputs[..n - 1];
    } else {
      n := |inputs|;
      assert inputs[..n] == inputs;
      RunKnows(decode, front);
      OneMoreFaithful(decode, inputs);
    }
  }
}
