/**
 * Header blocks in fragments (src/stream/stream.ts:583-614, src/stream/stream.ts:634-656,
 * src/stream/stream.ts:700-723).
 */
module HeaderFragments {
  import opened Bits
  import opened Results
  import opened PrefixInteger
  import opened Frames
  import opened StreamTypes
  import opened StreamSteps
  import opened StreamRuns
  import HpackHelpers

  /** CONTINUATION frames, the last with END_HEADERS. */
  function Continued(decode: Decoder, m: Manager, id: int, fragments: seq<Bytes>): Outcome
    requires fragments != []
    decreases |fragments|
  {
    if |fragments| == 1 then AfterContinuation(decode, m, id, true, fragments[0])
    else Continued(decode, AfterContinuation(decode, m, id, false, fragments[0]).manager, id, fragments[1..])
  }

  /** A fragment in front of the last can as well be part of it. */
  lemma Merged(decode: Decoder, m: Manager, id: int, a: Bytes, b: Bytes)
    requires ContinuedStream(m, id) in m.streams
    ensures var m1 := AfterContinuation(decode, m, id, false, a).manager;
            && ContinuedStream(m1, id) == ContinuedStream(m, id) && ContinuedStream(m1, id) in m1.streams
            && AfterContinuation(decode, m1, id, true, b) == AfterContinuation(decode, m, id, true, a + b)
  {
    var target := ContinuedStream(m, id);
    var s := m.streams[target];
    var m1 := AfterContinuation(decode, m, id, false, a).manager;
    var s1 := m1.streams[target];
    assert s1.(pendingHeaderBytes := s1.pendingHeaderBytes + b) ==
           s.(pendingHeaderBytes := s.pendingHeaderBytes + (a + b)) by {
      assert s.pendingHeaderBytes + a + b == s.pendingHeaderBytes + (a + b);
    }
    var (t, thrown) := WithHeaders(decode, s.(pendingHeaderBytes := s.pendingHeaderBytes + (a + b)));
    assert Put(m1, target, t) == Put(m, target, t);
  }

  lemma {:induction false} ContinuedAsOne(decode: Decoder, m: Manager, id: int, fragments: seq<Bytes>)
    requires fragments != [] && ContinuedStream(m, id) in m.streams
    ensures Continued(decode, m, id, fragments) == AfterContinuation(decode, m, id, true, Join(fragments))
    decreases |fragments|
  {
    var first, rest := fragments[0], fragments[1..];
    assert fragments == [first] + rest;
    JoinCons(first, rest);
    if rest == [] {
      assert first + Join(rest) == first;
    } else {
      var m1 := AfterContinuation(decode, m, id, false, first).manager;
      Merged(decode, m, id, first, Join(rest));
      ContinuedAsOne(decode, m1, id, rest);
    }
  }

  lemma EndChangesResult(m: Manager, id: int, t: Stream)
    requires id in m.streams && t.headersComplete && Reached(t)
    ensures MaybeResolve(Put(m, id, t), id) == MaybeResolve(Put(m, id, EndStream(t)), id) <==> t.endStreamSeen
  {
    var a, b := Put(m, id, t), Put(m, id, EndStream(t));
    if t.endStreamSeen {
      assert EndStream(t) == t;
    } else if t.resolver {
      assert |MaybeResolve(b, id).log| > |MaybeResolve(a, id).log|;
    } else {
      assert a.streams[id] != b.streams[id];
    }
  }

  /**
   * For a client stream it makes no difference that a block comes in two, exactly unless the
   * HEADERS frame ends the stream, nothing did before, and the block decodes: then the end is lost.
   */
  lemma HeadersThenContinuation(decode: Decoder, m: Manager, id: int, endStream: bool, a: Bytes, b: Bytes)
    requires id in m.streams && id !in m.pendingPush && !m.streams[id].isPushPromise && Reached(m.streams[id])
    ensures var s := m.streams[id];
            var m1 := AfterHeaders(decode, m, id, false, endStream, a).manager;
            AfterContinuation(decode, m1, id, true, b) == AfterHeaders(decode, m, id, true, endStream, a + b) <==>
            (endStream ==> s.endStreamSeen || decode(s.pendingHeaderBytes + (a + b)).Err?)
  {
    var s := m.streams[id].(pendingHeaderBytes := m.streams[id].pendingHeaderBytes + (a + b));
    var m1 := AfterHeaders(decode, m, id, false, endStream, a).manager;
    var s1 := m1.streams[id];
    assert s1.(pendingHeaderBytes := s1.pendingHeaderBytes + b) == s by {
      assert m.streams[id].pendingHeaderBytes + a + b == m.streams[id].pendingHeaderBytes + (a + b);
    }
    var (t, thrown) := WithHeaders(decode, s);
    assert m1.pendingPush - {id} == m.pendingPush;
    assert Put(m1, id, t).(pendingPush := m1.pendingPush - {id}) == Put(m, id, t);
    if thrown.None? && endStream {
      EndChangesResult(m, id, t);
    }
  }

  /** The same for any number of CONTINUATION frames. */
  lemma FragmentsInvisibleExactly(decode: Decoder, m: Manager, id: int, endStream: bool, first: Bytes, rest: seq<Bytes>)
    requires id in m.streams && id !in m.pendingPush && !m.streams[id].isPushPromise && Reached(m.streams[id])
    requires rest != []
    ensures var s := m.streams[id];
            var m1 := AfterHeaders(decode, m, id, false, endStream, first).manager;
            Continued(decode, m1, id, rest) == AfterHeaders(decode, m, id, true, endStream, first + Join(rest)) <==>
            (endStream ==> s.endStreamSeen || decode(s.pendingHeaderBytes + (first + Join(rest))).Err?)
  {
    ContinuedAsOne(decode, AfterHeaders(decode, m, id, false, endStream, first).manager, id, rest);
    HeadersThenContinuation(decode, m, id, endStream, first, Join(rest));
  }

  lemma PromiseThenContinuation(decode: Decoder, m: Manager, id: int, promised: int, a: Bytes, b: Bytes)
    requires id !in m.pendingPush
    ensures var m1 := AfterPushPromise(decode, m, id, promised, false, a).manager;
            AfterContinuation(decode, m1, id, true, b) == AfterPushPromise(decode, m, id, promised, true, a + b)
  {
    var m1 := AfterPushPromise(decode, m, id, promised, false, a).manager;
    var s := NewStream(promised, DEFAULT_INITIAL_WINDOW_SIZE, true).(pendingHeaderBytes := a + b);
    assert m1.streams[promised].(pendingHeaderBytes := a + b) == s;
    var (t, thrown) := WithHeaders(decode, s);
    var begun := Log(Insert(m, s), [Opened(promised, DEFAULT_INITIAL_WINDOW_SIZE)]);
    assert m1.pendingPush - {id} == m.pendingPush;
    assert Put(m1, promised, t).(pendingPush := m1.pendingPush - {id}) == Put(begun, promised, t);
  }

  /**
   * A promise in fragments: the continuations, which name the client stream, complete the
   * promised one, as one frame would have, with one push event.
   */
  lemma PromiseFragmentsInvisible(decode: Decoder, m: Manager, id: int, promised: int, first: Bytes, rest: seq<Bytes>)
    requires rest != [] && id !in m.pendingPush
    ensures var m1 := AfterPushPromise(decode, m, id, promised, false, first).manager;
            Continued(decode, m1, id, rest) == AfterPushPromise(decode, m, id, promised, true, first + Join(rest))
  {
    ContinuedAsOne(decode, AfterPushPromise(decode, m, id, promised, false, first).manager, id, rest);
    PromiseThenContinuation(decode, m, id, promised, first, Join(rest));
  }

  /** A pushed response in fragments is announced as if it were the promise, and leaves the stream reserved. */
  lemma PushedResponseInFragments(decode: Decoder, m: Manager, id: int, a: Bytes, b: Bytes)
    requires id in m.streams && id !in m.pendingPush && m.streams[id].isPushPromise && !m.streams[id].resolver
    requires m.streams[id].state.RemoteReserved? && decode(m.streams[id].pendingHeaderBytes + a + b).Ok?
    ensures var whole := AfterHeaders(decode, m, id, true, false, a + b).manager;
            var parts :=
              AfterContinuation(decode, AfterHeaders(decode, m, id, false, false, a).manager, id, true, b).manager;
            && id in whole.streams && whole.streams[id].state == Open && whole.log == m.log
            && id in parts.streams && parts.streams[id].state == RemoteReserved
            && parts.log == m.log + [Push(id, decode(m.streams[id].pendingHeaderBytes + a + b).value)]
  {
    assert m.streams[id].pendingHeaderBytes + (a + b) == m.streams[id].pendingHeaderBytes + a + b;
  }

  /** A push event more makes a difference that no settlement can hide. */
  lemma PushIsExtra(m: Manager, id: int, t: Stream, u: Stream)
    ensures MaybeResolve(Log(Put(m, id, t), [Push(id, t.responseHeaders)]), id) != MaybeResolve(Put(m, id, u), id)
  {
    var parts := MaybeResolve(Log(Put(m, id, t), [Push(id, t.responseHeaders)]), id);
    var whole := MaybeResolve(Put(m, id, u), id);
    assert parts.log[|m.log|] == Push(id, t.responseHeaders);
    assert |whole.log| > |m.log| ==> !whole.log[|m.log|].Push?;
  }

  lemma PushedHeadersThenContinuation(decode: Decoder, m: Manager, id: int, endStream: bool, a: Bytes, b: Bytes)
    requires id in m.streams && id !in m.pendingPush && m.streams[id].isPushPromise
    ensures var m1 := AfterHeaders(decode, m, id, false, endStream, a).manager;
            AfterContinuation(decode, m1, id, true, b) == AfterHeaders(decode, m, id, true, endStream, a + b) <==>
            decode(m.streams[id].pendingHeaderBytes + (a + b)).Err?
  {
    var s := m.streams[id].(pendingHeaderBytes := m.streams[id].pendingHeaderBytes + (a + b));
    var m1 := AfterHeaders(decode, m, id, false, endStream, a).manager;
    var s1 := m1.streams[id];
    assert s1.(pendingHeaderBytes := s1.pendingHeaderBytes + b) == s by {
      assert m.streams[id].pendingHeaderBytes + a + b == m.streams[id].pendingHeaderBytes + (a + b);
    }
    var (t, thrown) := WithHeaders(decode, s);
    assert m1.pendingPush - {id} == m.pendingPush;
    assert Put(m1, id, t).(pendingPush := m1.pendingPush - {id}) == Put(m, id, t);
    if thrown.None? {
      PushIsExtra(m, id, t, if endStream then EndStream(Promoted(t)) else Promoted(t));
    }
  }

  /**
   * For a pushed stream a response in fragments never has the result of one HEADERS frame, unless
   * it does not decode: its headers are announced as the promise's once more.
   */
  lemma PushedFragmentsInvisibleExactly(decode: Decoder, m: Manager, id: int, endStream: bool, first: Bytes,
                                        rest: seq<Bytes>)
    requires id in m.streams && id !in m.pendingPush && m.streams[id].isPushPromise && rest != []
    ensures var m1 := AfterHeaders(decode, m, id, false, endStream, first).manager;
            Continued(decode, m1, id, rest) == AfterHeaders(decode, m, id, true, endStream, first + Join(rest)) <==>
            decode(m.streams[id].pendingHeaderBytes + (first + Join(rest))).Err?
  {
    ContinuedAsOne(decode, AfterHeaders(decode, m, id, false, endStream, first).manager, id, rest);
    PushedHeadersThenContinuation(decode, m, id, endStream, first, Join(rest));
  }

  // ----- padding and priority fields -----

  predicate PriorityBit(flags: int) {
    flags / 32 % 2 == 1
  }

  /** The header block fragment inside a payload, section 6.2 of RFC 7540: without padding and priority fields. */
  function Fragment(flags: int, payload: Bytes): Bytes {
    var inner := Unpadded(flags, payload);
    if !PriorityBit(flags) then inner else if |inner| >= 5 then inner[5..] else []
  }

  /** Other headers make another outcome, settled or not. */
  lemma HeadersShow(m: Manager, id: int, t: Stream, u: Stream)
    requires id in m.streams && t.responseHeaders != u.responseHeaders
    requires u == t.(responseHeaders := u.responseHeaders)
    ensures MaybeResolve(Put(m, id, t), id) != MaybeResolve(Put(m, id, u), id)
  {
    var a, b := MaybeResolve(Put(m, id, t), id), MaybeResolve(Put(m, id, u), id);
    if IsSettling(t) {
      assert a.log[|a.log| - 1].response.headers == t.responseHeaders;
      assert b.log[|b.log| - 1].response.headers == u.responseHeaders;
    } else {
      assert a.streams[id] == t && b.streams[id] == u;
    }
  }

  /** The stream when its block is decoded. */
  function Informed(s: Stream, headers: Headers, endStream: bool): Stream {
    var t := Promoted(s.(pendingHeaderBytes := [], responseHeaders := headers, headersComplete := true));
    if endStream then EndStream(t) else t
  }

  function Decoded(m: Manager, id: int, endStream: bool, result: Result<Headers, HpackError>): Outcome
    requires id in m.streams
  {
    match result
    case Err(e) => Outcome(Put(m, id, m.streams[id].(pendingHeaderBytes := [])), Some(e))
    case Ok(headers) => Outcome(MaybeResolve(Put(m, id, Informed(m.streams[id], headers, endStream)), id), None)
  }

  lemma DecodedOutcome(decode: Decoder, m: Manager, id: int, endStream: bool, p: Bytes)
    requires id in m.streams
    ensures AfterHeaders(decode, m, id, true, endStream, p) ==
            Decoded(m, id, endStream, decode(m.streams[id].pendingHeaderBytes + p))
  {
  }

  lemma DecodedShows(m: Manager, id: int, endStream: bool, a: Result<Headers, HpackError>,
                     b: Result<Headers, HpackError>)
    requires id in m.streams
    ensures Decoded(m, id, endStream, a) == Decoded(m, id, endStream, b) <==> a == b
  {
    if a.Ok? && b.Ok? && a != b {
      HeadersShow(m, id, Informed(m.streams[id], a.value, endStream), Informed(m.streams[id], b.value, endStream));
    }
  }

  lemma DecodedAlikeExactly(decode: Decoder, m: Manager, id: int, endStream: bool, p: Bytes, q: Bytes)
    requires id in m.streams
    ensures var pending := m.streams[id].pendingHeaderBytes;
            AfterHeaders(decode, m, id, true, endStream, p) == AfterHeaders(decode, m, id, true, endStream, q) <==>
            decode(pending + p) == decode(pending + q)
  {
    var pending := m.streams[id].pendingHeaderBytes;
    DecodedOutcome(decode, m, id, endStream, p);
    DecodedOutcome(decode, m, id, endStream, q);
    DecodedShows(m, id, endStream, decode(pending + p), decode(pending + q));
  }

  /**
   * Two payloads have the same outcome exactly if they are decoded alike, or, when nothing is decoded
   * yet, are the same.
   */
  lemma PayloadsAlikeExactly(decode: Decoder, m: Manager, id: int, endHeaders: bool, endStream: bool, p: Bytes,
                             q: Bytes)
    requires id in m.streams
    ensures var pending := m.streams[id].pendingHeaderBytes;
            AfterHeaders(decode, m, id, endHeaders, endStream, p) ==
              AfterHeaders(decode, m, id, endHeaders, endStream, q) <==>
            if endHeaders then decode(pending + p) == decode(pending + q) else p == q
  {
    var pending := m.streams[id].pendingHeaderBytes;
    if endHeaders {
      DecodedAlikeExactly(decode, m, id, endStream, p, q);
    } else {
      assert (pending + p)[|pending|..] == p && (pending + q)[|pending|..] == q;
      assert AfterHeaders(decode, m, id, false, endStream, p).manager.streams[id].pendingHeaderBytes == pending + p;
      assert AfterHeaders(decode, m, id, false, endStream, q).manager.streams[id].pendingHeaderBytes == pending + q;
    }
  }

  /**
   * Neither padding nor priority fields are taken off HEADERS: the frame has the outcome of its
   * fragment alone exactly if the whole payload is decoded like the fragment.
   */
  lemma HeadersPaddingExactly(decode: Decoder, m: Manager, f: Frame)
    requires f.Headers? && f.streamId in m.streams
    ensures var fragment := Fragment(f.flags, f.payload);
            var bare := f.(flags := 0, padded := false, priority := None, payload := fragment);
            var pending := m.streams[f.streamId].pendingHeaderBytes;
            AfterDispatch(decode, m, f) == AfterDispatch(decode, m, bare) <==>
            if f.endHeaders then decode(pending + f.payload) == decode(pending + fragment) else f.payload == fragment
  {
    PayloadsAlikeExactly(decode, m, f.streamId, f.endHeaders, f.endStream, f.payload, Fragment(f.flags, f.payload));
  }

  /** A padded frame whose block means :method GET, and which throws. */
  lemma PaddedHeadersThrow(m: Manager, id: int, endStream: bool)
    requires id in m.streams && m.streams[id].pendingHeaderBytes == []
    ensures var f := Headers(12, id, true, endStream, true, None, [1, 0x82, 0]);
            && HpackHelpers.HeadersOf(Fragment(f.flags, f.payload)) == Ok(map[":method" := "GET"])
            && AfterDispatch(HpackHelpers.HeadersOf, m, f).thrown == Some(StringTooLong)
  {
    HpackHelpers.PaddedBlockIsMisread();
    var payload: Bytes := [1, 0x82, 0];
    assert Fragment(12, payload) == payload[1..2] == [0x82];
    assert [] + payload == payload;
  }
}
