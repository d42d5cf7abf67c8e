/** What holds of the manager itself after any run. */
module StreamRuns {
  import opened Bits
  import opened Results
  import opened PrefixInteger
  import opened Frames
  import opened SettingsEntries
  import opened StreamTypes
  import opened StreamSteps
  import opened StreamProtocol
  import opened StreamInvariant
  import StreamLaws

  // ----- work conservation -----

  /** Nothing waits that could be sent. */
  ghost predicate HeldUp(m: Manager, id: int)
    requires id in m.streams
  {
    m.streams[id].sendQueue == [] || m.sendWindow <= 0 || m.streams[id].localWindow <= 0
  }

  ghost predicate Conserving(m: Manager) {
    forall id :: id in m.streams ==> HeldUp(m, id)
  }

  /** Draining one stream leaves it held up, and frees no other. */
  lemma {:induction false} DrainedHoldsUp(m: Manager, id: int)
    requires id in m.streams
    ensures var r := Drained(m, id);
            && HeldUp(r, id) && r.sendWindow <= m.sendWindow
            && (forall k :: k in m.streams && k != id ==> r.streams[k] == m.streams[k])
    decreases |m.streams[id].sendQueue|
  {
    var queue := m.streams[id].sendQueue;
    if queue == [] || Cap(m, id) <= 0 {
    } else {
      DrainedHoldsUp(SendChunk(m, id, Min(Cap(m, id), |queue|)), id);
    }
  }

  /** Streams other than id need not be looked at again. */
  lemma DrainedConserves(m: Manager, id: int)
    requires id in m.streams && forall k :: k in m.streams && k != id ==> HeldUp(m, k)
    ensures Conserving(Drained(m, id))
  {
    DrainedHoldsUp(m, id);
    var r := Drained(m, id);
    forall k | k in r.streams
      ensures HeldUp(r, k)
    {
      if k != id {
        assert HeldUp(m, k);
      }
    }
  }

  lemma {:induction false} DrainedFromConserves(m: Manager, i: nat)
    requires i <= |m.order|
    requires forall k :: k in m.streams && k !in m.order[i..] ==> HeldUp(m, k)
    ensures Conserving(DrainedFrom(m, i))
    decreases |m.order| - i
  {
    if i < |m.order| {
      var id := m.order[i];
      var r := if id in m.streams then Drained(m, id) else m;
      if id in m.streams {
        DrainedHoldsUp(m, id);
      }
      forall k | k in r.streams && k !in r.order[i + 1..]
        ensures HeldUp(r, k)
      {
        if k != id {
          assert k !in m.order[i..] by {
            assert m.order[i..] == [id] + m.order[i + 1..];
          }
          assert HeldUp(m, k);
        }
      }
      DrainedFromConserves(r, i + 1);
    } else {
      assert m.order[i..] == [];
      assert forall k :: k in m.streams ==> HeldUp(m, k);
    }
  }

  lemma DrainedAllConserves(m: Manager)
    requires Listed(m)
    ensures Conserving(DrainedFrom(m, 0))
  {
    assert m.order[0..] == m.order;
    DrainedFromConserves(m, 0);
  }

  /** No queue grows and no window does. */
  ghost predicate NoMoreToSend(m: Manager, r: Manager) {
    r.sendWindow == m.sendWindow &&
    forall id :: id in r.streams ==>
      r.streams[id].sendQueue == [] ||
      (id in m.streams && r.streams[id].sendQueue == m.streams[id].sendQueue &&
       r.streams[id].localWindow == m.streams[id].localWindow)
  }

  lemma StillConserving(m: Manager, r: Manager)
    requires Conserving(m) && NoMoreToSend(m, r)
    ensures Conserving(r)
  {
    forall id | id in r.streams
      ensures HeldUp(r, id)
    {
      assert id in m.streams ==> HeldUp(m, id);
    }
  }

  lemma {:induction false} SettingsConserve(m: Manager, entries: seq<Setting>)
    requires Good(m) && Conserving(m)
    ensures Conserving(AfterSettings(m, entries))
    decreases |entries|
  {
    if entries == [] {
    } else {
      var r := AfterSetting(m, entries[0]);
      SettingGood(m, entries[0]);
      if entries[0].id == 4 {
        InitialWindowGood(m, entries[0].value);
        DrainedAllConserves(WithInitialWindow(m, entries[0].value));
      } else {
        StillConserving(m, r);
      }
      SettingsConserve(r, entries[1..]);
    }
  }

  lemma {:induction false} RejectingSendsNothing(m: Manager, ids: seq<int>, last: Option<int>, err: StreamError)
    ensures NoMoreToSend(m, RejectAbove(m, ids, last, err))
    decreases |ids|
  {
    if ids == [] {
    } else {
      var id := ids[0];
      var due := id in m.streams && (last.None? || id > last.value);
      RejectingSendsNothing(if due then Reject(m, id, err) else m, ids[1..], last, err);
    }
  }

  lemma WindowUpdateConserves(m: Manager, id: int, increment: int)
    requires Good(m) && Conserving(m)
    ensures Conserving(AfterWindowUpdate(m, id, increment))
  {
    if id == 0 {
      CreditConnectionGood(m, increment);
      DrainedAllConserves(CreditConnection(m, increment));
    } else if id in m.streams {
      var r := CreditStream(m, id, increment);
      assert forall k :: k in r.streams && k != id ==> HeldUp(m, k) && HeldUp(r, k);
      DrainedConserves(r, id);
    }
  }

  lemma SendDataConserves(m: Manager, id: int, data: Bytes, endStream: bool)
    requires Conserving(m)
    ensures Conserving(AfterSendData(m, id, data, endStream))
  {
    if id in m.streams {
      var r := Enqueue(m, id, data, endStream);
      assert forall k :: k in r.streams && k != id ==> HeldUp(m, k) && HeldUp(r, k);
      DrainedConserves(r, id);
    }
  }

  lemma DataSendsNothing(m: Manager, id: int, flags: int, payload: Bytes)
    ensures NoMoreToSend(m, AfterData(m, id, flags, payload))
  {
  }

  lemma PutSendsNothing(m: Manager, id: int, t: Stream)
    requires id in m.streams && t.sendQueue == m.streams[id].sendQueue && t.localWindow == m.streams[id].localWindow
    ensures NoMoreToSend(m, Put(m, id, t))
  {
  }

  lemma ResolvingKeeps(m: Manager, id: int)
    requires id in m.streams
    ensures var r := MaybeResolve(m, id);
            forall k :: k in r.streams ==> k in m.streams && r.streams[k] == m.streams[k]
  {
  }

  lemma ResolvingSendsNothing(m: Manager, r: Manager, id: int)
    requires NoMoreToSend(m, r) && id in r.streams
    ensures NoMoreToSend(m, MaybeResolve(r, id))
  {
    ResolvingKeeps(r, id);
  }

  lemma HeadersSendNothing(decode: Decoder, m: Manager, id: int, endHeaders: bool, endStream: bool, payload: Bytes)
    ensures NoMoreToSend(m, AfterHeaders(decode, m, id, endHeaders, endStream, payload).manager)
  {
    if id in m.streams {
      var s := m.streams[id].(pendingHeaderBytes := m.streams[id].pendingHeaderBytes + payload);
      var (s1, thrown) := WithHeaders(decode, s);
      var s2 := Promoted(s1);
      var t := if !endHeaders then s else if thrown.Some? then s1 else if endStream then EndStream(s2) else s2;
      PutSendsNothing(m, id, t);
      ResolvingSendsNothing(m, Put(m, id, t), id);
    }
  }

  lemma ContinuationSendsNothing(decode: Decoder, m: Manager, id: int, endHeaders: bool, payload: Bytes)
    ensures NoMoreToSend(m, AfterContinuation(decode, m, id, endHeaders, payload).manager)
  {
  }

  lemma PromiseSendsNothing(decode: Decoder, m: Manager, id: int, promised: int, endHeaders: bool, payload: Bytes)
    ensures NoMoreToSend(m, AfterPushPromise(decode, m, id, promised, endHeaders, payload).manager)
  {
  }

  lemma ReceivingSendsNothing(decode: Decoder, m: Manager, f: Frame)
    requires !f.SettingsFrame? && !f.WindowUpdate? && !f.Goaway?
    ensures NoMoreToSend(m, AfterDispatch(decode, m, f).manager)
  {
    match f
    case Data(flags, id, payload) => DataSendsNothing(m, id, flags, payload);
    case Headers(_, id, endHeaders, endStream, _, _, payload) =>
      HeadersSendNothing(decode, m, id, endHeaders, endStream, payload);
    case Continuation(_, id, endHeaders, payload) => ContinuationSendsNothing(decode, m, id, endHeaders, payload);
    case PushPromise(_, id, endHeaders, _, promised, payload) =>
      PromiseSendsNothing(decode, m, id, promised, endHeaders, payload);
    case _ =>
  }

  lemma DispatchConserves(decode: Decoder, m: Manager, f: Frame)
    requires Good(m) && Conserving(m)
    ensures Conserving(AfterDispatch(decode, m, f).manager)
  {
    match f
    case SettingsFrame(_, _, ack, settings, _, _) =>
      if !ack {
        SettingsConserve(m, NaturalEntries(settings));
        StillConserving(AfterSettings(m, NaturalEntries(settings)), AfterDispatch(decode, m, f).manager);
      } else {
        StillConserving(m, AfterDispatch(decode, m, f).manager);
      }
    case WindowUpdate(_, id, increment) => WindowUpdateConserves(m, id, increment);
    case Goaway(_, _, last, errorCode, debugData) =>
      var m1 := Log(m, [GoawayIn(last, errorCode, debugData)]);
      RejectingSendsNothing(m1, m.order, Some(last), GoawayError(last, errorCode, debugData));
      StillConserving(m, AfterDispatch(decode, m, f).manager);
    case _ =>
      ReceivingSendsNothing(decode, m, f);
      StillConserving(m, AfterDispatch(decode, m, f).manager);
  }

  lemma AfterConserves(decode: Decoder, m: Manager, input: Input)
    requires Good(m) && Conserving(m)
    ensures Conserving(After(decode, m, input).manager)
  {
    var r := After(decode, m, input).manager;
    match input
    case Dispatch(f) => DispatchConserves(decode, m, f);
    case SendData(id, data, endStream) => SendDataConserves(m, id, data, endStream);
    case ApplyWindowUpdate(id, increment) => WindowUpdateConserves(m, id, increment);
    case AbortAll(error) => assert Conserving(r);
    case _ => StillConserving(m, r);
  }

  // ----- lifecycle -----

  /** The peer may send no more on a stream in this state. */
  predicate RemoteEnded(state: StreamState) {
    state.RemoteHalfClosed? || state.Closed?
  }

  /** We may send no more on it; on a stream that the peer reserved we never may. */
  predicate LocalEnded(state: StreamState) {
    state.LocalHalfClosed? || state.RemoteReserved? || state.Closed?
  }

  /** END_STREAM from the peer ends its side and leaves ours; in the other states it changes nothing. */
  lemma EndMovesOneSide(state: StreamState)
    ensures var r := OnEndStream(state);
            if state.Open? || state.LocalHalfClosed? || state.RemoteReserved?
            then RemoteEnded(r) && (LocalEnded(r) <==> LocalEnded(state)) && (r.Closed? ==> r.reason == Normal)
            else r == state
  {
  }

  /** Along the arrows of section 5.1 of RFC 7540; a push whose response ends at once takes two. */
  predicate Arrow(a: StreamState, b: StreamState) {
    || a == b
    || (a.RemoteReserved? && (b.Open? || b.RemoteHalfClosed? || b.Closed?))
    || (a.Open? && b.RemoteHalfClosed?)
  }

  /** The states a stream is ever in. */
  predicate Reached(s: Stream) {
    && ((s.state.RemoteReserved? && s.isPushPromise) || s.state.Open? || s.state.RemoteHalfClosed? || s.state.Closed?)
    && (s.endStreamSeen ==> s.state.RemoteHalfClosed? || s.state.Closed?)
  }

  ghost predicate MovesOne(m: Manager, s: Stream, id: int) {
    if id in m.streams then Arrow(m.streams[id].state, s.state) && s.isPushPromise == m.streams[id].isPushPromise
    else s.state == if s.isPushPromise then RemoteReserved else Open
  }

  /** Streams that stay move along an arrow; a new one is reserved by the peer or open. */
  ghost predicate Moves(m: Manager, r: Manager) {
    forall id :: id in r.streams ==> Reached(r.streams[id]) && MovesOne(m, r.streams[id], id)
  }

  ghost predicate AllReached(m: Manager) {
    forall id :: id in m.streams ==> Reached(m.streams[id])
  }

  predicate SameState(s: Stream, t: Stream) {
    && t.state == s.state && t.isPushPromise == s.isPushPromise && t.endStreamSeen == s.endStreamSeen
    && t.headersComplete == s.headersComplete && t.resolver == s.resolver
    && t.responseHeaders == s.responseHeaders && t.pendingHeaderBytes == s.pendingHeaderBytes
    && t.responseChunks == s.responseChunks
  }

  /** Sending leaves states alone. */
  ghost predicate SameStates(m: Manager, r: Manager) {
    r.streams.Keys == m.streams.Keys && forall id :: id in m.streams ==> SameState(m.streams[id], r.streams[id])
  }

  lemma SameStatesMove(m: Manager, r: Manager)
    requires AllReached(m) && SameStates(m, r)
    ensures Moves(m, r)
  {
    assert forall id :: id in r.streams ==> id in m.streams && SameState(m.streams[id], r.streams[id]);
  }

  lemma {:induction false} DrainedStates(m: Manager, id: int)
    requires id in m.streams
    ensures SameStates(m, Drained(m, id))
    decreases |m.streams[id].sendQueue|
  {
    var queue := m.streams[id].sendQueue;
    if queue == [] || Cap(m, id) <= 0 {
    } else {
      DrainedStates(SendChunk(m, id, Min(Cap(m, id), |queue|)), id);
    }
  }

  lemma {:induction false} DrainedFromStates(m: Manager, i: nat)
    requires i <= |m.order|
    ensures SameStates(m, DrainedFrom(m, i))
    decreases |m.order| - i
  {
    if i == |m.order| {
    } else {
      if m.order[i] in m.streams {
        DrainedStates(m, m.order[i]);
      }
      DrainedFromStates(if m.order[i] in m.streams then Drained(m, m.order[i]) else m, i + 1);
    }
  }

  lemma {:induction false} SettingsStates(m: Manager, entries: seq<Setting>)
    ensures SameStates(m, AfterSettings(m, entries))
    decreases |entries|
  {
    if entries == [] {
    } else {
      if entries[0].id == 4 {
        DrainedFromStates(WithInitialWindow(m, entries[0].value), 0);
      }
      SettingsStates(AfterSetting(m, entries[0]), entries[1..]);
    }
  }

  lemma WindowUpdateStates(m: Manager, id: int, increment: int)
    ensures SameStates(m, AfterWindowUpdate(m, id, increment))
  {
    if id == 0 {
      DrainedFromStates(CreditConnection(m, increment), 0);
    } else if id in m.streams {
      DrainedStates(CreditStream(m, id, increment), id);
    }
  }

  lemma SendDataStates(m: Manager, id: int, data: Bytes, endStream: bool)
    ensures SameStates(m, AfterSendData(m, id, data, endStream))
  {
    if id in m.streams {
      DrainedStates(Enqueue(m, id, data, endStream), id);
    }
  }

  lemma {:induction false} RejectingKeeps(m: Manager, ids: seq<int>, last: Option<int>, err: StreamError)
    ensures var r := RejectAbove(m, ids, last, err);
            forall id :: id in r.streams ==> id in m.streams && r.streams[id] == m.streams[id]
    decreases |ids|
  {
    if ids == [] {
    } else {
      var id := ids[0];
      var due := id in m.streams && (last.None? || id > last.value);
      RejectingKeeps(if due then Reject(m, id, err) else m, ids[1..], last, err);
    }
  }

  lemma DataMoves(m: Manager, id: int, flags: int, payload: Bytes)
    requires AllReached(m)
    ensures Moves(m, AfterData(m, id, flags, payload))
  {
    if id in m.streams {
      var n := TakeData(m, id, flags, payload);
      var t := EndStream(n.streams[id]);
      assert Moves(m, n);
      assert Reached(t) && MovesOne(m, t, id);
      assert Moves(m, Put(n, id, t));
      ResolvingKeeps(Put(n, id, t), id);
    }
  }

  lemma HeadersMove(decode: Decoder, m: Manager, id: int, endHeaders: bool, endStream: bool, payload: Bytes)
    requires AllReached(m)
    ensures Moves(m, AfterHeaders(decode, m, id, endHeaders, endStream, payload).manager)
  {
    if id in m.streams {
      var s := m.streams[id].(pendingHeaderBytes := m.streams[id].pendingHeaderBytes + payload);
      var (s1, thrown) := WithHeaders(decode, s);
      var s2 := Promoted(s1);
      var s3 := if endStream then EndStream(s2) else s2;
      assert Reached(s3) && MovesOne(m, s3, id);
      assert Moves(m, Put(m, id, s3));
      ResolvingKeeps(Put(m, id, s3), id);
    }
  }

  lemma ContinuationMoves(decode: Decoder, m: Manager, id: int, endHeaders: bool, payload: Bytes)
    requires AllReached(m)
    ensures Moves(m, AfterContinuation(decode, m, id, endHeaders, payload).manager)
  {
    var target := ContinuedStream(m, id);
    if target in m.streams {
      var s := m.streams[target].(pendingHeaderBytes := m.streams[target].pendingHeaderBytes + payload);
      var (s1, thrown) := WithHeaders(decode, s);
      var m1 := Put(m, target, s1).(pendingPush := m.pendingPush - {id});
      assert Reached(s1) && MovesOne(m, s1, target);
      assert Moves(m, m1);
      ResolvingKeeps(if s1.isPushPromise then Log(m1, [Push(target, s1.responseHeaders)]) else m1, target);
    }
  }

  lemma PromiseMoves(decode: Decoder, m: Manager, id: int, promised: int, endHeaders: bool, payload: Bytes)
    requires AllReached(m) && promised !in m.streams
    ensures Moves(m, AfterPushPromise(decode, m, id, promised, endHeaders, payload).manager)
  {
  }

  lemma DispatchMoves(decode: Decoder, m: Manager, f: Frame)
    requires AllReached(m) && Polite(m, Dispatch(f))
    ensures Moves(m, AfterDispatch(decode, m, f).manager)
  {
    match f
    case Data(flags, id, payload) => DataMoves(m, id, flags, payload);
    case Headers(_, id, endHeaders, endStream, _, _, payload) =>
      HeadersMove(decode, m, id, endHeaders, endStream, payload);
    case Continuation(_, id, endHeaders, payload) => ContinuationMoves(decode, m, id, endHeaders, payload);
    case PushPromise(_, id, endHeaders, _, promised, payload) =>
      PromiseMoves(decode, m, id, promised, endHeaders, payload);
    case Goaway(_, _, last, errorCode, debugData) =>
      RejectingKeeps(Log(m, [GoawayIn(last, errorCode, debugData)]), m.order, Some(last),
                     GoawayError(last, errorCode, debugData));
    case SettingsFrame(_, _, ack, settings, _, _) =>
      if !ack {
        SettingsStates(m, NaturalEntries(settings));
      }
      SameStatesMove(m, AfterDispatch(decode, m, f).manager);
    case WindowUpdate(_, id, increment) =>
      WindowUpdateStates(m, id, increment);
      SameStatesMove(m, AfterWindowUpdate(m, id, increment));
    case _ =>
  }

  /** Every stream only moves along the arrows of its lifecycle. */
  lemma AfterMoves(decode: Decoder, m: Manager, input: Input)
    requires Good(m) && AllReached(m) && Polite(m, input)
    ensures Moves(m, After(decode, m, input).manager)
  {
    match input
    case OpenStream => NextIsFresh(m);
    case Dispatch(f) => DispatchMoves(decode, m, f);
    case SendData(id, data, endStream) =>
      SendDataStates(m, id, data, endStream);
      SameStatesMove(m, AfterSendData(m, id, data, endStream));
    case ApplyWindowUpdate(id, increment) =>
      WindowUpdateStates(m, id, increment);
      SameStatesMove(m, AfterWindowUpdate(m, id, increment));
    case _ =>
  }

  // ----- prompt settlement -----

  /** Nobody waits for a response that is complete. */
  ghost predicate Prompt(m: Manager) {
    forall id :: id in m.streams ==> !IsSettling(m.streams[id])
  }

  predicate IsComplete(s: Stream) {
    s.headersComplete && s.endStreamSeen
  }

  /** The response is asked for before it is complete. */
  predicate InTime(m: Manager, input: Input) {
    match input
    case ExpectResponse(id) => id in m.streams ==> !IsComplete(m.streams[id])
    case _ => true
  }

  lemma SameStatesPrompt(m: Manager, r: Manager)
    requires Prompt(m) && SameStates(m, r)
    ensures Prompt(r)
  {
    assert forall id :: id in r.streams ==> id in m.streams && SameState(m.streams[id], r.streams[id]);
  }

  lemma ResolvingIsPrompt(m: Manager, id: int)
    requires id in m.streams && forall k :: k in m.streams && k != id ==> !IsSettling(m.streams[k])
    ensures Prompt(MaybeResolve(m, id))
  {
  }

  lemma DataPrompt(m: Manager, id: int, flags: int, payload: Bytes)
    requires Prompt(m)
    ensures Prompt(AfterData(m, id, flags, payload))
  {
    if id in m.streams {
      var m1 := TakeData(m, id, flags, payload);
      assert Prompt(m1);
      ResolvingIsPrompt(Put(m1, id, EndStream(m1.streams[id])), id);
    }
  }

  lemma HeadersPrompt(decode: Decoder, m: Manager, id: int, endHeaders: bool, endStream: bool, payload: Bytes)
    requires Prompt(m)
    ensures Prompt(AfterHeaders(decode, m, id, endHeaders, endStream, payload).manager)
  {
    if id in m.streams {
      var s := m.streams[id].(pendingHeaderBytes := m.streams[id].pendingHeaderBytes + payload);
      var (s1, thrown) := WithHeaders(decode, s);
      var s2 := Promoted(s1);
      ResolvingIsPrompt(Put(m, id, if endStream then EndStream(s2) else s2), id);
    }
  }

  lemma ContinuationPrompt(decode: Decoder, m: Manager, id: int, endHeaders: bool, payload: Bytes)
    requires Prompt(m)
    ensures Prompt(AfterContinuation(decode, m, id, endHeaders, payload).manager)
  {
    var target := ContinuedStream(m, id);
    if target in m.streams {
      var s := m.streams[target].(pendingHeaderBytes := m.streams[target].pendingHeaderBytes + payload);
      var (s1, thrown) := WithHeaders(decode, s);
      var m1 := Put(m, target, s1).(pendingPush := m.pendingPush - {id});
      ResolvingIsPrompt(if s1.isPushPromise then Log(m1, [Push(target, s1.responseHeaders)]) else m1, target);
    }
  }

  lemma DispatchPrompt(decode: Decoder, m: Manager, f: Frame)
    requires Prompt(m)
    ensures Prompt(AfterDispatch(decode, m, f).manager)
  {
    match f
    case Data(flags, id, payload) => DataPrompt(m, id, flags, payload);
    case Headers(_, id, endHeaders, endStream, _, _, payload) =>
      HeadersPrompt(decode, m, id, endHeaders, endStream, payload);
    case Continuation(_, id, endHeaders, payload) => ContinuationPrompt(decode, m, id, endHeaders, payload);
    case Goaway(_, _, last, errorCode, debugData) =>
      RejectingKeeps(Log(m, [GoawayIn(last, errorCode, debugData)]), m.order, Some(last),
                     GoawayError(last, errorCode, debugData));
    case SettingsFrame(_, _, ack, settings, _, _) =>
      if !ack {
        SettingsStates(m, NaturalEntries(settings));
      }
      SameStatesPrompt(m, AfterDispatch(decode, m, f).manager);
    case WindowUpdate(_, id, increment) =>
      WindowUpdateStates(m, id, increment);
      SameStatesPrompt(m, AfterWindowUpdate(m, id, increment));
    case _ =>
  }

  /** A response that somebody waits for is settled by the very frame that completes it. */
  lemma AfterPrompt(decode: Decoder, m: Manager, input: Input)
    requires Prompt(m) && InTime(m, input)
    ensures Prompt(After(decode, m, input).manager)
  {
    match input
    case Dispatch(f) => DispatchPrompt(decode, m, f);
    case SendData(id, data, endStream) =>
      SendDataStates(m, id, data, endStream);
      SameStatesPrompt(m, AfterSendData(m, id, data, endStream));
    case ApplyWindowUpdate(id, increment) =>
      WindowUpdateStates(m, id, increment);
      SameStatesPrompt(m, AfterWindowUpdate(m, id, increment));
    case _ =>
  }

  /** Asked for too late, a complete response is left waiting. */
  lemma LateIsNotPrompt(m: Manager, id: int)
    requires id in m.streams
    ensures var r := AfterExpect(m, id);
            id in r.streams && (IsSettling(r.streams[id]) <==> IsComplete(m.streams[id]))
  {
  }

  // ----- settings in force -----

  predicate SameSettings(m: Manager, r: Manager) {
    r.maxConcurrent == m.maxConcurrent && r.initialWindow == m.initialWindow && r.maxFrame == m.maxFrame
  }

  lemma {:induction false} DrainedSettings(m: Manager, id: int)
    requires id in m.streams
    ensures SameSettings(m, Drained(m, id))
    decreases |m.streams[id].sendQueue|
  {
    var queue := m.streams[id].sendQueue;
    if queue == [] || Cap(m, id) <= 0 {
    } else {
      DrainedSettings(SendChunk(m, id, Min(Cap(m, id), |queue|)), id);
    }
  }

  lemma {:induction false} DrainedFromSettings(m: Manager, i: nat)
    requires i <= |m.order|
    ensures SameSettings(m, DrainedFrom(m, i))
    decreases |m.order| - i
  {
    if i == |m.order| {
    } else {
      if m.order[i] in m.streams {
        DrainedSettings(m, m.order[i]);
      }
      DrainedFromSettings(if m.order[i] in m.streams then Drained(m, m.order[i]) else m, i + 1);
    }
  }

  lemma SettingInForce(m: Manager, e: Setting)
    ensures var r := AfterSetting(m, e);
            && r.maxConcurrent == (if e.id == 3 then e.value else m.maxConcurrent)
            && r.initialWindow == (if e.id == 4 then e.value else m.initialWindow)
            && r.maxFrame == (if e.id == 5 then ClampMaxFrameSize(e.value) else m.maxFrame)
  {
    if e.id == 4 {
      DrainedFromSettings(WithInitialWindow(m, e.value), 0);
    }
  }

  function LastOf(entries: seq<Setting>, id: int, otherwise: int): int {
    if entries == [] then otherwise
    else LastOf(entries[1..], id, if entries[0].id == id then entries[0].value else otherwise)
  }

  lemma {:induction false} ClampTwice(entries: seq<Setting>, value: int)
    ensures ClampMaxFrameSize(LastOf(entries, 5, ClampMaxFrameSize(value))) ==
            ClampMaxFrameSize(LastOf(entries, 5, value))
  {
    if entries == [] || entries[0].id == 5 {
    } else {
      ClampTwice(entries[1..], value);
    }
  }

  lemma {:induction false} EntriesInForce(m: Manager, entries: seq<Setting>)
    ensures var r := AfterSettings(m, entries);
            && r.maxConcurrent == LastOf(entries, 3, m.maxConcurrent)
            && r.initialWindow == LastOf(entries, 4, m.initialWindow)
            && (r.maxFrame == ClampMaxFrameSize(LastOf(entries, 5, m.maxFrame)))
    decreases |entries|
  {
    if entries == [] {
    } else {
      SettingInForce(m, entries[0]);
      EntriesInForce(AfterSetting(m, entries[0]), entries[1..]);
      if entries[0].id == 5 {
        ClampTwice(entries[1..], entries[0].value);
      }
    }
  }

  function ValueOr(settings: Settings, id: nat, otherwise: int): int {
    if id in settings then settings[id] else otherwise
  }

  lemma {:induction false} LastIsGiven(settings: Settings, entries: seq<Setting>, id: nat, otherwise: int)
    requires From(entries, settings)
    ensures LastOf(entries, id, otherwise) ==
            if Mentions(entries, id) then ValueOr(settings, id, otherwise) else otherwise
  {
    if entries == [] {
    } else {
      var e, rest := entries[0], entries[1..];
      assert e.id in settings;
      LastIsGiven(settings, rest, id, if e.id == id then e.value else otherwise);
      if Mentions(rest, id) {
        var i :| 0 <= i < |rest| && rest[i].id == id;
        assert entries[i + 1].id == id;
      }
      if Mentions(entries, id) && e.id != id {
        var i :| 0 <= i < |entries| && entries[i].id == id;
        assert rest[i - 1].id == id;
      }
    }
  }

  lemma NaturalGives(settings: Settings, id: nat, otherwise: int)
    ensures LastOf(NaturalEntries(settings), id, otherwise) == ValueOr(settings, id, otherwise)
  {
    var entries := NaturalEntries(settings);
    NaturalIsAll(settings);
    LastIsGiven(settings, entries, id, otherwise);
    if Mentions(entries, id) {
      var i :| 0 <= i < |entries| && entries[i].id == id;
      assert entries[i].id in settings;
    }
  }

  /** The three settings that matter are in force afterwards, the frame size clamped, and no other setting counts. */
  lemma SettingsInForce(m: Manager, settings: Settings)
    ensures var r := AfterSettings(m, NaturalEntries(settings));
            && r.maxConcurrent == ValueOr(settings, 3, m.maxConcurrent)
            && r.initialWindow == ValueOr(settings, 4, m.initialWindow)
            && var size := ValueOr(settings, 5, m.maxFrame);
               r.maxFrame == if size < 0x4000 then 0x4000 else if size > 0xff_ffff then 0xff_ffff else size
  {
    EntriesInForce(m, NaturalEntries(settings));
    NaturalGives(settings, 3, m.maxConcurrent);
    NaturalGives(settings, 4, m.initialWindow);
    NaturalGives(settings, 5, m.maxFrame);
  }

  // ----- any run -----

  lemma {:induction false} RunConserves(decode: Decoder, inputs: seq<Input>)
    requires PoliteRun(decode, inputs)
    ensures Conserving(Run(decode, inputs)) && AllReached(Run(decode, inputs))
  {
    if inputs == [] {
    } else {
      var front, last := inputs[..|inputs| - 1], inputs[|inputs| - 1];
      RunConserves(decode, front);
      RunGood(decode, front);
      AfterConserves(decode, Run(decode, front), last);
      AfterMoves(decode, Run(decode, front), last);
    }
  }

  /** The windows of the manager are exactly what the other side allowed less what was sent. */
  lemma RunWindows(decode: Decoder, inputs: seq<Input>)
    requires PoliteRun(decode, inputs)
    ensures var m := Run(decode, inputs);
            && m.sendWindow ==
               65535 + StreamLaws.ConnectionCredits(m.log) - StreamLaws.OctetsSent(m.log)
            && (StreamLaws.CreditsAreNatural(m.log) ==> m.sendWindow >= 0)
            && (forall id :: id in m.streams && Odd(id) ==>
                  m.streams[id].localWindow ==
                  m.initialWindow + StreamLaws.CreditsOn(m.log, id) - |StreamLaws.SentOn(m.log, id)|)
  {
    var m := Run(decode, inputs);
    RunGood(decode, inputs);
    StreamLaws.ConnectionWindow(m.log);
    forall id | id in m.streams && Odd(id)
      ensures m.streams[id].localWindow ==
              m.initialWindow + StreamLaws.CreditsOn(m.log, id) - |StreamLaws.SentOn(m.log, id)|
    {
      assert Tracked(m, Replay(m.log), id);
      StreamLaws.StreamWindow(m.log, id);
      StreamLaws.ClientsHaveNoHeadStart(m.log, id);
      StreamLaws.AccountsAreSums(m.log, id);
    }
  }

  /** What was sent and what still waits is what was handed over. */
  lemma RunBytes(decode: Decoder, inputs: seq<Input>, id: int)
    requires PoliteRun(decode, inputs) && id in Run(decode, inputs).streams
    ensures var m := Run(decode, inputs);
            && StreamLaws.SentOn(m.log, id) + m.streams[id].sendQueue == StreamLaws.QueuedOn(m.log, id)
            && Join(m.streams[id].responseChunks) == StreamLaws.DataOf(m.log, id)
  {
    var m := Run(decode, inputs);
    RunGood(decode, inputs);
    assert Tracked(m, Replay(m.log), id);
    StreamLaws.AccountsAreSums(m.log, id);
    StreamLaws.BodyIsData(m.log, id);
  }

  /**
   * A client stream has sent the least of what was queued, what the connection had left for it, and
   * its own allowance.
   */
  ghost predicate SentTheMinimum(m: Manager, id: int) {
    var sent := |StreamLaws.SentOn(m.log, id)|;
    var others := StreamLaws.OctetsSent(m.log) - sent;
    sent == Min(|StreamLaws.QueuedOn(m.log, id)|,
                Min(65535 + StreamLaws.ConnectionCredits(m.log) - others,
                    m.initialWindow + StreamLaws.CreditsOn(m.log, id)))
  }

  lemma GoodSendsTheMinimum(m: Manager, id: int)
    requires Good(m) && id in m.streams && HeldUp(m, id) && Odd(id)
    requires StreamLaws.CreditsAreNatural(m.log) && m.streams[id].localWindow >= 0
    ensures SentTheMinimum(m, id)
  {
    var v := Replay(m.log);
    assert Tracked(m, v, id);
    var a := v.accounts[id];
    assert m.streams[id].sendQueue == [] ==> a.sent == a.queued;
    assert Window(v, id) == m.streams[id].localWindow && v.sendWindow == m.sendWindow;
    StreamLaws.SentIsTheMinimum(m.log, id);
    StreamLaws.AccountsAreSums(m.log, id);
  }

  /** A window below zero has let more through than it allows now. */
  lemma ShrunkSentMore(decode: Decoder, inputs: seq<Input>, id: int)
    requires PoliteRun(decode, inputs) && id in Run(decode, inputs).streams && Odd(id)
    requires Run(decode, inputs).streams[id].localWindow < 0
    ensures !SentTheMinimum(Run(decode, inputs), id)
  {
    RunWindows(decode, inputs);
  }

  /**
   * A client stream has sent the least of what was queued and what both windows allow, exactly if its
   * own is not below zero.
   */
  lemma RunSendsTheMinimum(decode: Decoder, inputs: seq<Input>, id: int)
    requires PoliteRun(decode, inputs) && id in Run(decode, inputs).streams && Odd(id)
    requires StreamLaws.CreditsAreNatural(Run(decode, inputs).log)
    ensures SentTheMinimum(Run(decode, inputs), id) <==> Run(decode, inputs).streams[id].localWindow >= 0
  {
    if Run(decode, inputs).streams[id].localWindow >= 0 {
      RunGood(decode, inputs);
      RunConserves(decode, inputs);
      GoodSendsTheMinimum(Run(decode, inputs), id);
    } else {
      ShrunkSentMore(decode, inputs, id);
    }
  }

  /** So it has if SETTINGS never lowered the initial window. */
  lemma UnshrunkSendsTheMinimum(decode: Decoder, inputs: seq<Input>, id: int)
    requires PoliteRun(decode, inputs) && id in Run(decode, inputs).streams && Odd(id)
    requires var log := Run(decode, inputs).log;
             StreamLaws.NeverShrinks(log) && StreamLaws.StreamCreditsAreNatural(log) &&
             StreamLaws.CreditsAreNatural(log)
    ensures SentTheMinimum(Run(decode, inputs), id)
  {
    var m := Run(decode, inputs);
    RunGood(decode, inputs);
    StreamLaws.UnshrunkIsNatural(m.log, id);
    LiveIsKnown(m, id);
    assert Tracked(m, Replay(m.log), id);
    RunSendsTheMinimum(decode, inputs, id);
  }

  /** A registration is settled exactly once unless its stream is live and still waits. */
  lemma RunSettles(decode: Decoder, inputs: seq<Input>, id: int)
    requires PoliteRun(decode, inputs)
    ensures var m := Run(decode, inputs);
            StreamLaws.CountExpected(m.log, id) ==
            StreamLaws.CountSettled(m.log, id) + (if id in m.streams && m.streams[id].resolver then 1 else 0)
  {
    var m := Run(decode, inputs);
    RunGood(decode, inputs);
    StreamLaws.SettledOnce(m.log, id);
    if id in m.streams {
      assert Tracked(m, Replay(m.log), id);
    }
  }

  /** GOAWAY removes exactly the streams above the last one, and leaves the others as they were. */
  lemma GoawayRemovesExactly(m: Manager, last: int, errorCode: int, debugData: Bytes, id: int)
    requires Listed(m)
    ensures var r := AfterGoaway(m, last, errorCode, debugData);
            && (id in r.streams <==> id in m.streams && id <= last)
            && (id in r.streams ==> r.streams[id] == m.streams[id])
  {
    var m1 := Log(m, [GoawayIn(last, errorCode, debugData)]);
    RejectAboveRemoves(m1, m.order, Some(last), GoawayError(last, errorCode, debugData));
    RejectingKeeps(m1, m.order, Some(last), GoawayError(last, errorCode, debugData));
  }

  ghost predicate InTimeRun(decode: Decoder, inputs: seq<Input>) {
    inputs == [] ||
    (InTimeRun(decode, inputs[..|inputs| - 1]) && InTime(Run(decode, inputs[..|inputs| - 1]), inputs[|inputs| - 1]))
  }

  /** In any run in which responses are asked for in time, no complete response is kept from who waits for it. */
  lemma {:induction false} RunPrompt(decode: Decoder, inputs: seq<Input>)
    requires InTimeRun(decode, inputs)
    ensures Prompt(Run(decode, inputs))
  {
    if inputs == [] {
    } else {
      RunPrompt(decode, inputs[..|inputs| - 1]);
      AfterPrompt(decode, Run(decode, inputs[..|inputs| - 1]), inputs[|inputs| - 1]);
    }
  }

  /** When everything is aborted, nobody is left waiting. */
  lemma AbortSettlesAll(decode: Decoder, inputs: seq<Input>, err: StreamError, id: int)
    requires PoliteRun(decode, inputs)
    ensures var m := Run(decode, inputs + [AbortAll(err)]);
            m.streams == map[] && StreamLaws.CountExpected(m.log, id) == StreamLaws.CountSettled(m.log, id)
  {
    var all := inputs + [AbortAll(err)];
    assert all[..|inputs|] == inputs;
    RunSettles(decode, all, id);
  }

  /** What the connection received and gave back always adds up to the window it started with. */
  lemma RunGivesBack(decode: Decoder, inputs: seq<Input>)
    requires PoliteRun(decode, inputs)
    ensures var m := Run(decode, inputs);
            && StreamLaws.CreditGiven(m.log) == StreamLaws.OctetsReceived(m.log)
            && m.receiveWindow + StreamLaws.CreditGiven(m.log) == 65535
  {
    RunGood(decode, inputs);
    StreamLaws.CreditIsReceived(Run(decode, inputs).log);
  }

  predicate IsZeroUpdate(e: Event) {
    match e
    case Sent(WindowUpdate(_, _, increment)) => increment == 0
    case _ => false
  }

  lemma NothingElseIsSent(m: Manager, id: int, flags: int, payload: Bytes)
    requires id in m.streams
    ensures var n, r := TakeData(m, id, flags, payload), AfterData(m, id, flags, payload);
            n.log <= r.log && forall k :: |n.log| <= k < |r.log| ==> !r.log[k].Sent?
  {
  }

  lemma BothAreGivenBack(m: Manager, id: int, flags: int, payload: Bytes)
    requires id in m.streams
    ensures var log := TakeData(m, id, flags, payload).log;
            && m.log + [DataIn(id, flags, payload), Sent(WindowUpdate(0, 0, |payload|))] <= log
            && (forall k :: |m.log| <= k < |log| && log[k].Sent? ==>
                  log[k].frame.WindowUpdate? && log[k].frame.windowSizeIncrement == |payload|)
  {
  }

  /** A window update of zero answers DATA exactly if the payload is empty. */
  lemma ZeroUpdatesExactly(m: Manager, id: int, flags: int, payload: Bytes)
    requires id in m.streams
    ensures var r := AfterData(m, id, flags, payload);
            (exists k :: |m.log| <= k < |r.log| && IsZeroUpdate(r.log[k])) <==> payload == []
  {
    BothAreGivenBack(m, id, flags, payload);
    NothingElseIsSent(m, id, flags, payload);
    var n, r := TakeData(m, id, flags, payload), AfterData(m, id, flags, payload);
    assert r.log[|m.log| + 1] == n.log[|m.log| + 1] == Sent(WindowUpdate(0, 0, |payload|));
    assert IsZeroUpdate(r.log[|m.log| + 1]) <==> payload == [];
    forall k | |m.log| <= k < |r.log| && IsZeroUpdate(r.log[k])
      ensures payload == []
    {
      assert k < |n.log| ==> r.log[k] == n.log[k];
    }
  }

  /** The receive window of a stream is 65535 less what came in on it: credit is sent but not taken back. */
  lemma RunReceives(decode: Decoder, inputs: seq<Input>, id: int)
    requires PoliteRun(decode, inputs)
    ensures var m := Run(decode, inputs);
            id in m.streams ==> m.streams[id].remoteWindow == 65535 - StreamLaws.TakenOn(m.log, id)
  {
    var m := Run(decode, inputs);
    RunGood(decode, inputs);
    if id in m.streams {
      assert Tracked(m, Replay(m.log), id);
      StreamLaws.TakenIsSum(m.log, id);
    }
  }
}
