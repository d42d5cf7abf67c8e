/** Every step of the manager is legal to the observer, who always knows the manager's accounts. */
module StreamInvariant {
  import opened Bits
  import opened Results
  import opened PrefixInteger
  import opened Frames
  import opened SettingsEntries
  import opened StreamTypes
  import opened StreamSteps
  import opened StreamProtocol

  ghost predicate Accounted(s: Stream, a: Account, initialWindow: int, awaiting: bool) {
    && a.live && s.localWindow == initialWindow + a.base
    && a.sent + s.sendQueue == a.queued && s.sendQueueEndStream == a.endRequested
    && (!s.state.Closed? ==> a.owed == 0)
    && Join(s.responseChunks) == a.body && s.remoteWindow == 65535 - a.taken
    && s.resolver == awaiting
  }

  ghost predicate Totals(m: Manager, v: View) {
    && m.sendWindow == v.sendWindow && m.initialWindow == v.initialWindow && m.maxFrame == v.maxFrame
    && m.receiveWindow == DEFAULT_INITIAL_WINDOW_SIZE - v.received && v.credited == v.received
    && Odd(m.nextId) && v.lastOpened == m.nextId - 2
  }

  ghost predicate Tracked(m: Manager, v: View, id: int)
    requires id in m.streams
  {
    id in v.accounts && Accounted(m.streams[id], v.accounts[id], v.initialWindow, id in v.awaiting)
  }

  ghost predicate Identified(m: Manager, id: int) {
    id != 0 && (Odd(id) ==> id < m.nextId)
  }

  ghost predicate Matches(m: Manager, v: View) {
    && Totals(m, v)
    && (forall id :: id in m.streams ==> Tracked(m, v, id) && Identified(m, id))
    && (forall id :: id in v.accounts && v.accounts[id].live ==> id in m.streams)
    && (forall id :: id in v.awaiting ==> id in m.streams)
  }

  /** A change to one stream and its account. */
  lemma OneStream(m: Manager, r: Manager, v: View, w: View, id: int)
    requires Matches(m, v) && Totals(r, w) && r.nextId == m.nextId && w.initialWindow == v.initialWindow
    requires id in m.streams && id in r.streams && r.streams == m.streams[id := r.streams[id]]
    requires id in w.accounts && w.accounts == v.accounts[id := w.accounts[id]]
    requires w.awaiting == v.awaiting || w.awaiting == v.awaiting + {id}
    requires Accounted(r.streams[id], w.accounts[id], w.initialWindow, id in w.awaiting)
    ensures Matches(r, w)
  {
    forall k | k in r.streams
      ensures Tracked(r, w, k) && Identified(r, k)
    {
      assert k in m.streams;
      if k != id {
        assert Tracked(m, v, k);
      }
    }
  }

  ghost predicate Good(m: Manager) {
    LegalLog(m.log) && Matches(m, Replay(m.log)) && Listed(m)
  }

  lemma ReplayMore(log: seq<Event>, e: Event)
    ensures Replay(log + [e]) == Observe(Replay(log), e)
    ensures LegalLog(log + [e]) <==> LegalLog(log) && Legal(Replay(log), e)
  {
    assert (log + [e])[..|log|] == log;
  }

  /** One legal event keeps the invariant. */
  lemma OneEvent(m: Manager, r: Manager, e: Event)
    requires Good(m) && r.log == m.log + [e] && Listed(r)
    requires Legal(Replay(m.log), e) && Matches(r, Observe(Replay(m.log), e))
    ensures Good(r)
  {
    ReplayMore(m.log, e);
  }

  // ----- sending -----

  lemma ChunkMatches(m: Manager, v: View, id: int, n: nat, e: Event)
    requires Matches(m, v) && id in m.streams && n == Min(Cap(m, id), |m.streams[id].sendQueue|) && n > 0
    requires m.streams[id].id == id && e == ChunkEvent(m.streams[id], n)
    ensures Legal(v, e) && Matches(SendChunk(m, id, n), Observe(v, e))
  {
    assert Tracked(m, v, id);
    var s, a := m.streams[id], v.accounts[id];
    var chunk, rest := s.sendQueue[..n], s.sendQueue[n..];
    assert s.sendQueue == chunk + rest;
    assert a.sent + s.sendQueue == a.sent + chunk + rest;
    assert a.sent + chunk == a.queued <==> rest == [];
    OneStream(m, SendChunk(m, id, n), v, Observe(v, e), id);
  }

  lemma {:induction false} DrainedGood(m: Manager, id: int)
    requires Good(m) && id in m.streams
    ensures Good(Drained(m, id)) && SameShape(m, Drained(m, id))
    decreases |m.streams[id].sendQueue|
  {
    var s := m.streams[id];
    if s.sendQueue == [] || Cap(m, id) <= 0 {
    } else {
      var n := Min(Cap(m, id), |s.sendQueue|);
      var r := SendChunk(m, id, n);
      assert Good(r) by {
        ChunkMatches(m, Replay(m.log), id, n, ChunkEvent(s, n));
        ListedSame(m, r);
        OneEvent(m, r, ChunkEvent(s, n));
      }
      DrainedGood(r, id);
    }
  }

  lemma {:induction false} DrainedFromGood(m: Manager, i: nat)
    requires Good(m) && i <= |m.order|
    ensures Good(DrainedFrom(m, i))
    decreases |m.order| - i
  {
    if i == |m.order| {
    } else {
      var live := m.order[i] in m.streams;
      if live {
        DrainedGood(m, m.order[i]);
      }
      DrainedFromGood(if live then Drained(m, m.order[i]) else m, i + 1);
    }
  }

  lemma EnqueueGood(m: Manager, id: int, data: Bytes, endStream: bool)
    requires Good(m) && id in m.streams
    ensures Good(Enqueue(m, id, data, endStream))
  {
    var r, v, e := Enqueue(m, id, data, endStream), Replay(m.log), Queued(id, data, endStream);
    assert Matches(r, Observe(v, e)) && Legal(v, e) by {
      assert Tracked(m, v, id);
      var s, a := m.streams[id], v.accounts[id];
      assert a.sent + (s.sendQueue + data) == a.queued + data;
      OneStream(m, r, v, Observe(v, e), id);
    }
    ListedSame(m, r);
    OneEvent(m, r, e);
  }

  lemma CreditConnectionGood(m: Manager, increment: int)
    requires Good(m)
    ensures Good(CreditConnection(m, increment))
  {
    var r, v, e := CreditConnection(m, increment), Replay(m.log), ConnectionCredit(increment);
    assert Matches(r, Observe(v, e)) by {
      assert forall id :: id in m.streams ==> Tracked(m, v, id) && Tracked(r, Observe(v, e), id);
    }
    OneEvent(m, r, e);
  }

  lemma CreditStreamGood(m: Manager, id: int, increment: int)
    requires Good(m) && id in m.streams
    ensures Good(CreditStream(m, id, increment))
  {
    var r, v, e := CreditStream(m, id, increment), Replay(m.log), StreamCredit(id, increment);
    assert Matches(r, Observe(v, e)) && Legal(v, e) by {
      assert Tracked(m, v, id);
      OneStream(m, r, v, Observe(v, e), id);
    }
    ListedSame(m, r);
    OneEvent(m, r, e);
  }

  lemma InitialWindowGood(m: Manager, size: int)
    requires Good(m)
    ensures Good(WithInitialWindow(m, size))
  {
    var r := WithInitialWindow(m, size);
    WindowsKeep(m, size);
    ListedSame(m, r);
    var v, w := Replay(m.log), Observe(Replay(m.log), InitialWindow(size));
    assert Matches(r, w) by {
      forall id | id in r.streams
        ensures Tracked(r, w, id) && Identified(r, id)
      {
        assert Tracked(m, v, id) && Identified(m, id);
      }
    }
    OneEvent(m, r, InitialWindow(size));
  }

  lemma SettingGood(m: Manager, e: Setting)
    requires Good(m)
    ensures Good(AfterSetting(m, e))
  {
    match e.id
    case 3 =>
      assert Good(m.(maxConcurrent := e.value));
    case 4 =>
      InitialWindowGood(m, e.value);
      DrainedFromGood(WithInitialWindow(m, e.value), 0);
    case 5 =>
      OneEvent(m, AfterSetting(m, e), MaxFrame(ClampMaxFrameSize(e.value)));
    case _ =>
  }

  lemma {:induction false} SettingsGood(m: Manager, entries: seq<Setting>)
    requires Good(m)
    ensures Good(AfterSettings(m, entries))
    decreases |entries|
  {
    if entries == [] {
    } else {
      SettingGood(m, entries[0]);
      SettingsGood(AfterSetting(m, entries[0]), entries[1..]);
    }
  }

  /** Events that tell the observer nothing. */
  predicate Neutral(e: Event) {
    match e
    case Sent(f) =>
      || f == SETTINGS_ACK || (f.Ping? && f.flags == 1 && f.streamId == 0 && f.ack)
      || (f.Goaway? && f.flags == 0 && f.streamId == 0)
    case Push(_, _) => true
    case PushResponse(_, _) => true
    case SettingsAcked => true
    case PingAcked(_) => true
    case GoawayIn(_, _, _) => true
    case _ => false
  }

  lemma NeutralGood(m: Manager, e: Event)
    requires Good(m) && Neutral(e)
    ensures Good(Log(m, [e]))
  {
    OneEvent(m, Log(m, [e]), e);
  }

  /** Fields the accounts do not cover may change; a closed state stays closed. */
  predicate SameAccount(s: Stream, t: Stream) {
    && t.id == s.id && t.localWindow == s.localWindow && t.sendQueue == s.sendQueue
    && t.sendQueueEndStream == s.sendQueueEndStream && t.responseChunks == s.responseChunks && t.resolver == s.resolver
    && t.remoteWindow == s.remoteWindow
    && (s.state.Closed? ==> t.state.Closed?)
  }

  lemma PutGood(m: Manager, id: int, t: Stream)
    requires Good(m) && id in m.streams && SameAccount(m.streams[id], t)
    ensures Good(Put(m, id, t))
  {
    assert Listed(Put(m, id, t)) by {
      ListedSame(m, Put(m, id, t));
    }
    assert Matches(Put(m, id, t), Replay(m.log)) by {
      assert Tracked(m, Replay(m.log), id);
      OneStream(m, Put(m, id, t), Replay(m.log), Replay(m.log), id);
    }
  }

  // ----- receiving data -----

  /** The view when the data is in and the octets are given back. */
  function TakenView(v: View, id: int, flags: int, payload: Bytes, closed: bool): View {
    var w := Observe(Observe(v, DataIn(id, flags, payload)), Sent(WindowUpdate(0, 0, |payload|)));
    if closed then w else Observe(w, Sent(WindowUpdate(0, id, |payload|)))
  }

  /** DataIn leaves the accounts behind by what the window updates then give back. */
  lemma TakenLegal(m: Manager, v: View, id: int, flags: int, payload: Bytes)
    requires Matches(m, v) && id in m.streams
    ensures var w := Observe(v, DataIn(id, flags, payload));
            var e := Sent(WindowUpdate(0, 0, |payload|));
            && Legal(v, DataIn(id, flags, payload)) && Legal(w, e)
            && (!m.streams[id].state.Closed? ==> Legal(Observe(w, e), Sent(WindowUpdate(0, id, |payload|))))
  {
    assert Tracked(m, v, id) && Identified(m, id);
  }

  lemma TakenViewIs(v: View, id: int, flags: int, payload: Bytes, closed: bool)
    requires Live(v, id) && id != 0
    ensures var a, n := v.accounts[id], |payload|;
            TakenView(v, id, flags, payload, closed) ==
            With(v, id, a.(owed := if closed then a.owed + n else a.owed, taken := a.taken + n,
                           body := a.body + Unpadded(flags, payload)))
              .(received := v.received + n, credited := v.credited + n)
  {
  }

  lemma TakenBody(m: Manager, id: int, flags: int, payload: Bytes)
    requires id in m.streams
    ensures Join(TakeData(m, id, flags, payload).streams[id].responseChunks) ==
            Join(m.streams[id].responseChunks) + Unpadded(flags, payload)
  {
    JoinSnoc(m.streams[id].responseChunks, Unpadded(flags, payload));
    assert Join(m.streams[id].responseChunks) + [] == Join(m.streams[id].responseChunks);
  }

  lemma TakenMatches(m: Manager, v: View, id: int, flags: int, payload: Bytes)
    requires Matches(m, v) && id in m.streams && m.streams[id].id == id
    ensures Matches(TakeData(m, id, flags, payload), TakenView(v, id, flags, payload, m.streams[id].state.Closed?))
  {
    assert Tracked(m, v, id) && Identified(m, id);
    var closed := m.streams[id].state.Closed?;
    var r, w := TakeData(m, id, flags, payload), TakenView(v, id, flags, payload, closed);
    TakenViewIs(v, id, flags, payload, closed);
    assert Join(r.streams[id].responseChunks) == w.accounts[id].body by {
      TakenBody(m, id, flags, payload);
    }
    assert r.streams == m.streams[id := r.streams[id]];
    OneStream(m, r, v, w, id);
  }

  lemma TakeDataGood(m: Manager, id: int, flags: int, payload: Bytes)
    requires Good(m) && id in m.streams
    ensures Good(TakeData(m, id, flags, payload))
  {
    var r, n := TakeData(m, id, flags, payload), |payload|;
    var log := m.log;
    TakenLegal(m, Replay(log), id, flags, payload);
    TakenMatches(m, Replay(log), id, flags, payload);
    assert Listed(r) by {
      ListedSame(m, r);
    }
    ReplayMore(log, DataIn(id, flags, payload));
    ReplayMore(log + [DataIn(id, flags, payload)], Sent(WindowUpdate(0, 0, n)));
    if !m.streams[id].state.Closed? {
      ReplayMore(log + [DataIn(id, flags, payload)] + [Sent(WindowUpdate(0, 0, n))], Sent(WindowUpdate(0, id, n)));
    }
  }

  // ----- closing -----

  lemma {:induction false} WithoutHas(order: seq<int>, id: int, k: int)
    ensures k in Without(order, id) <==> k in order && k != id
  {
    if order == [] {
    } else {
      WithoutHas(order[1..], id, k);
    }
  }

  lemma DeleteListed(m: Manager, id: int)
    requires Listed(m) && id in m.streams
    ensures Listed(Delete(m, id))
  {
    var order := Without(m.order, id);
    forall k | 0 <= k < |order|
      ensures order[k] in m.streams && order[k] != id
    {
      WithoutHas(m.order, id, order[k]);
    }
    forall k | k in m.streams && k != id
      ensures k in order
    {
      WithoutHas(m.order, id, k);
    }
  }

  /** A stream that is gone and not waited for. */
  lemma GoneMatches(m: Manager, v: View, w: View, id: int)
    requires Matches(m, v) && id in m.streams && Totals(m, w) && w.initialWindow == v.initialWindow
    requires id in w.accounts && !w.accounts[id].live && w.accounts == v.accounts[id := w.accounts[id]]
    requires w.awaiting == v.awaiting - {id}
    ensures Matches(Delete(m, id), w)
  {
    var r := Delete(m, id);
    forall k | k in r.streams
      ensures Tracked(r, w, k) && Identified(r, k)
    {
      assert Tracked(m, v, k);
    }
  }

  lemma DeleteMatches(m: Manager, v: View, id: int)
    requires Matches(m, v) && id in m.streams && id !in v.awaiting
    ensures Legal(v, StreamClosed(id, Normal))
    ensures Matches(Delete(m, id), Observe(v, StreamClosed(id, Normal)))
  {
    assert Tracked(m, v, id);
    GoneMatches(m, v, Observe(v, StreamClosed(id, Normal)), id);
  }

  /** The stream goes and its callback is called. */
  lemma SettleMatches(m: Manager, v: View, id: int, e: Event)
    requires Matches(m, v) && id in m.streams && m.streams[id].resolver
    requires e.Rejected? || e == Resolved(id, ResponseOf(m.streams[id]))
    requires e.id == id
    ensures var v1 := Observe(v, StreamClosed(id, Normal));
            Legal(v, StreamClosed(id, Normal)) && Legal(v1, e) && Matches(Delete(m, id), Observe(v1, e))
  {
    assert Tracked(m, v, id);
    var v1 := Observe(v, StreamClosed(id, Normal));
    GoneMatches(m, v, Observe(v1, e), id);
  }

  function Settled(m: Manager, id: int, e: Event): Manager {
    Log(Log(Delete(m, id), [StreamClosed(id, Normal)]), [e])
  }

  /** Two legal events keep the invariant. */
  lemma TwoEvents(m: Manager, r: Manager, a: Event, b: Event)
    requires Good(m) && r.log == m.log + [a] + [b] && Listed(r)
    requires Legal(Replay(m.log), a) && Legal(Observe(Replay(m.log), a), b)
    requires Matches(r, Observe(Observe(Replay(m.log), a), b))
    ensures Good(r)
  {
    ReplayMore(m.log, a);
    ReplayMore(m.log + [a], b);
  }

  lemma LogMatches(m: Manager, r: Manager, v: View)
    requires Matches(m, v) && r == m.(log := r.log)
    ensures Matches(r, v)
  {
    assert forall id :: id in r.streams ==> Tracked(m, v, id) && Tracked(r, v, id);
  }

  lemma SettledGood(m: Manager, id: int, e: Event)
    requires Good(m) && id in m.streams && m.streams[id].resolver
    requires e.Rejected? || e == Resolved(id, ResponseOf(m.streams[id]))
    requires e.id == id
    ensures Good(Settled(m, id, e))
  {
    var r, v := Settled(m, id, e), Observe(Observe(Replay(m.log), StreamClosed(id, Normal)), e);
    SettleMatches(m, Replay(m.log), id, e);
    assert Listed(r) by {
      DeleteListed(m, id);
      ListedSame(Delete(m, id), r);
    }
    assert Matches(r, v) by {
      LogMatches(Delete(m, id), r, v);
    }
    TwoEvents(m, r, StreamClosed(id, Normal), e);
  }

  lemma FinalizeGood(m: Manager, id: int)
    requires Good(m) && id in m.streams && !m.streams[id].resolver
    ensures Good(Finalize(m, id))
  {
    DeleteListed(m, id);
    DeleteMatches(m, Replay(m.log), id);
    OneEvent(m, Finalize(m, id), StreamClosed(id, Normal));
  }

  lemma FinalizedIsSettled(m: Manager, id: int, e: Event, s: Stream)
    requires id in m.streams
    ensures Log(Finalize(Put(m, id, s), id), [e]) == Settled(m, id, e)
  {
    assert Put(m, id, s).streams - {id} == m.streams - {id};
  }

  lemma RejectGood(m: Manager, id: int, err: StreamError)
    requires Good(m) && id in m.streams
    ensures Good(Reject(m, id, err))
  {
    var s := m.streams[id];
    if s.resolver {
      FinalizedIsSettled(m, id, Rejected(id, err), s.(resolver := false));
      SettledGood(m, id, Rejected(id, err));
    } else {
      FinalizeGood(m, id);
    }
  }

  lemma MaybeResolveGood(m: Manager, id: int)
    requires Good(m) && id in m.streams
    ensures Good(MaybeResolve(m, id))
  {
    var s := m.streams[id];
    if IsSettling(s) {
      var response := ResponseOf(s);
      var m1 := if s.isPushPromise then Log(m, [PushResponse(id, response)]) else m;
      if s.isPushPromise {
        NeutralGood(m, PushResponse(id, response));
      }
      SettledGood(m1, id, Resolved(id, response));
      FinalizedIsSettled(m1, id, Resolved(id, response), s.(resolver := false));
      assert MaybeResolve(m, id) == Settled(m1, id, Resolved(id, response));
    }
  }

  lemma {:induction false} RejectAboveGood(m: Manager, ids: seq<int>, last: Option<int>, err: StreamError)
    requires Good(m)
    ensures Good(RejectAbove(m, ids, last, err))
    decreases |ids|
  {
    if ids == [] {
    } else {
      var id := ids[0];
      var due := id in m.streams && (last.None? || id > last.value);
      if due {
        RejectGood(m, id, err);
      }
      RejectAboveGood(if due then Reject(m, id, err) else m, ids[1..], last, err);
    }
  }

  // ----- header blocks -----

  lemma HeadersGood(decode: Decoder, m: Manager, id: int, endHeaders: bool, endStream: bool, payload: Bytes)
    requires Good(m)
    ensures Good(AfterHeaders(decode, m, id, endHeaders, endStream, payload).manager)
  {
    if id in m.streams {
      var s := m.streams[id].(pendingHeaderBytes := m.streams[id].pendingHeaderBytes + payload);
      var (s1, thrown) := WithHeaders(decode, s);
      var s2 := Promoted(s1);
      var s3 := if endStream then EndStream(s2) else s2;
      var r := if !endHeaders then s else if thrown.Some? then s1 else s3;
      assert Good(Put(m, id, r)) by {
        PutGood(m, id, r);
      }
      MaybeResolveGood(Put(m, id, r), id);
    }
  }

  lemma PendingPushIgnored(m: Manager, pendingPush: map<int, int>)
    requires Good(m)
    ensures Good(m.(pendingPush := pendingPush))
  {
    var r, v := m.(pendingPush := pendingPush), Replay(m.log);
    assert forall id :: id in r.streams ==> Tracked(m, v, id) && Tracked(r, v, id);
  }

  lemma ContinuationGood(decode: Decoder, m: Manager, id: int, endHeaders: bool, payload: Bytes)
    requires Good(m)
    ensures Good(AfterContinuation(decode, m, id, endHeaders, payload).manager)
  {
    var target := ContinuedStream(m, id);
    if target in m.streams {
      var s := m.streams[target].(pendingHeaderBytes := m.streams[target].pendingHeaderBytes + payload);
      var (s1, thrown) := WithHeaders(decode, s);
      assert Good(Put(m, target, s)) by {
        PutGood(m, target, s);
      }
      assert Good(Put(m, target, s1)) by {
        PutGood(m, target, s1);
      }
      var m1 := Put(m, target, s1).(pendingPush := m.pendingPush - {id});
      PendingPushIgnored(Put(m, target, s1), m.pendingPush - {id});
      NeutralGood(m1, Push(target, s1.responseHeaders));
      MaybeResolveGood(if s1.isPushPromise then Log(m1, [Push(target, s1.responseHeaders)]) else m1, target);
    }
  }

  lemma InsertListed(m: Manager, s: Stream)
    requires Listed(m) && s.id !in m.streams
    ensures Listed(Insert(m, s))
  {
  }

  /** The identifiers a fresh stream may have: the next odd one, or an even one that the peer promises. */
  predicate Fresh(m: Manager, id: int) {
    id !in m.streams && id != 0 && (Odd(id) ==> id == m.nextId)
  }

  function Begin(m: Manager, s: Stream): Manager {
    Log(Insert(m, s).(nextId := if Odd(s.id) then m.nextId + 2 else m.nextId), [Opened(s.id, s.localWindow)])
  }

  function FreshStream(m: Manager, id: int, pending: Bytes): Stream {
    var window := if Odd(id) then m.initialWindow else DEFAULT_INITIAL_WINDOW_SIZE;
    NewStream(id, window, !Odd(id)).(pendingHeaderBytes := pending)
  }

  lemma NextIsFresh(m: Manager)
    requires Good(m)
    ensures Fresh(m, m.nextId)
  {
  }

  lemma BeginMatches(m: Manager, v: View, s: Stream)
    requires Matches(m, v) && Fresh(m, s.id) && s == FreshStream(m, s.id, s.pendingHeaderBytes)
    ensures Legal(v, Opened(s.id, s.localWindow)) && Matches(Begin(m, s), Observe(v, Opened(s.id, s.localWindow)))
  {
    var r, w := Begin(m, s), Observe(v, Opened(s.id, s.localWindow));
    OddSteps(m.nextId);
    forall k | k in r.streams
      ensures Tracked(r, w, k) && Identified(r, k)
    {
      if k != s.id {
        assert Tracked(m, v, k) && Identified(m, k);
      }
    }
  }

  lemma BeginGood(m: Manager, id: int, pending: Bytes)
    requires Good(m) && Fresh(m, id)
    ensures Good(Begin(m, FreshStream(m, id, pending)))
  {
    var s := FreshStream(m, id, pending);
    assert Listed(Begin(m, s)) by {
      InsertListed(m, s);
    }
    BeginMatches(m, Replay(m.log), s);
    OneEvent(m, Begin(m, s), Opened(id, s.localWindow));
  }

  /** A promise is a fresh stream whose header block is decoded or awaited. */
  lemma PromiseBegins(decode: Decoder, m: Manager, id: int, promised: int, endHeaders: bool, payload: Bytes)
    requires !Odd(promised)
    ensures var m1 := Begin(m, FreshStream(m, promised, payload));
            promised in m1.streams &&
            var (s, thrown) := WithHeaders(decode, m1.streams[promised]);
            var r := Put(m1, promised, s);
            AfterPushPromise(decode, m, id, promised, endHeaders, payload).manager ==
            if !endHeaders then m1.(pendingPush := m.pendingPush[id := promised])
            else if thrown.Some? then r else Log(r, [Push(promised, s.responseHeaders)])
  {
  }

  lemma PromisedHeadersGood(decode: Decoder, m: Manager, promised: int)
    requires Good(m) && promised in m.streams
    ensures var (s, thrown) := WithHeaders(decode, m.streams[promised]);
            var r := Put(m, promised, s);
            Good(r) && Good(Log(r, [Push(promised, s.responseHeaders)]))
  {
    var (s, thrown) := WithHeaders(decode, m.streams[promised]);
    assert Good(Put(m, promised, s)) by {
      PutGood(m, promised, s);
    }
    NeutralGood(Put(m, promised, s), Push(promised, s.responseHeaders));
  }

  lemma PushPromiseGood(decode: Decoder, m: Manager, id: int, promised: int, endHeaders: bool, payload: Bytes)
    requires Good(m) && !Odd(promised) && Fresh(m, promised)
    ensures Good(AfterPushPromise(decode, m, id, promised, endHeaders, payload).manager)
  {
    var m1 := Begin(m, FreshStream(m, promised, payload));
    PromiseBegins(decode, m, id, promised, endHeaders, payload);
    BeginGood(m, promised, payload);
    if endHeaders {
      PromisedHeadersGood(decode, m1, promised);
    } else {
      PendingPushIgnored(m1, m.pendingPush[id := promised]);
    }
  }

  // ----- whole runs -----

  /**
   * What the manager relies on: a promised id is even, not zero and not in use, and nobody
   * asks twice for the response of a stream while the first waits.
   */
  predicate Polite(m: Manager, input: Input) {
    match input
    case Dispatch(PushPromise(_, _, _, _, promised, _)) => !Odd(promised) && promised != 0 && promised !in m.streams
    case ExpectResponse(id) => id in m.streams ==> !m.streams[id].resolver
    case _ => true
  }

  /** A stream that is not there is rejected at once. */
  lemma ExpectNobodyGood(m: Manager, id: int)
    requires Good(m) && id !in m.streams
    ensures Good(AfterExpect(m, id))
  {
    var r, v, w := AfterExpect(m, id), Replay(m.log), Observe(Replay(m.log), Expected(id));
    var e := Rejected(id, RstStreamError(id, 1));
    assert r.log == m.log + [Expected(id)] + [e];
    assert Observe(w, e) == v;
    assert Matches(r, v) by {
      assert forall k :: k in r.streams ==> Tracked(m, v, k) && Tracked(r, v, k);
    }
    ReplayMore(m.log, Expected(id));
    ReplayMore(m.log + [Expected(id)], e);
  }

  lemma ExpectGood(m: Manager, id: int)
    requires Good(m) && Polite(m, ExpectResponse(id))
    ensures Good(AfterExpect(m, id))
  {
    if id in m.streams {
      var r, v, w := AfterExpect(m, id), Replay(m.log), Observe(Replay(m.log), Expected(id));
      assert Matches(r, w) && Legal(v, Expected(id)) by {
        assert Tracked(m, v, id);
        OneStream(m, r, v, w, id);
      }
      ListedSame(m, r);
      OneEvent(m, r, Expected(id));
    } else {
      ExpectNobodyGood(m, id);
    }
  }

  lemma ClearedGood(m: Manager)
    requires Good(m) && forall id :: id !in m.streams
    ensures Good(m.(streams := map[], order := []))
  {
  }

  lemma {:induction false} RejectAboveRemoves(m: Manager, ids: seq<int>, last: Option<int>, err: StreamError)
    ensures var r := RejectAbove(m, ids, last, err);
            forall id :: id in r.streams <==> id in m.streams && !(id in ids && (last.None? || id > last.value))
    decreases |ids|
  {
    if ids == [] {
    } else {
      var id := ids[0];
      var due := id in m.streams && (last.None? || id > last.value);
      RejectAboveRemoves(if due then Reject(m, id, err) else m, ids[1..], last, err);
    }
  }

  lemma AbortAllGood(m: Manager, err: StreamError)
    requires Good(m)
    ensures Good(AfterAbortAll(m, err))
  {
    var r := RejectAbove(m, m.order, None, err);
    RejectAboveGood(m, m.order, None, err);
    RejectAboveRemoves(m, m.order, None, err);
    ClearedGood(r);
  }

  lemma DataGood(m: Manager, id: int, flags: int, payload: Bytes)
    requires Good(m)
    ensures Good(AfterData(m, id, flags, payload))
  {
    if id in m.streams {
      var m1 := TakeData(m, id, flags, payload);
      TakeDataGood(m, id, flags, payload);
      var m2 := Put(m1, id, EndStream(m1.streams[id]));
      assert Good(m2) by {
        PutGood(m1, id, EndStream(m1.streams[id]));
      }
      MaybeResolveGood(m2, id);
    }
  }

  lemma RstStreamGood(m: Manager, id: int, errorCode: int)
    requires Good(m)
    ensures Good(AfterRstStream(m, id, errorCode))
  {
    if id in m.streams {
      var m1 := Put(m, id, m.streams[id].(state := Closed(ResetByPeer(errorCode))));
      assert Good(m1) by {
        PutGood(m, id, m.streams[id].(state := Closed(ResetByPeer(errorCode))));
      }
      RejectGood(m1, id, RstStreamError(id, errorCode));
    }
  }

  lemma GoawayGood(m: Manager, last: int, errorCode: int, debugData: Bytes)
    requires Good(m)
    ensures Good(AfterGoaway(m, last, errorCode, debugData))
  {
    NeutralGood(m, GoawayIn(last, errorCode, debugData));
    RejectAboveGood(Log(m, [GoawayIn(last, errorCode, debugData)]), m.order, Some(last),
                    GoawayError(last, errorCode, debugData));
  }

  lemma AcknowledgingGood(m: Manager, entries: seq<Setting>)
    requires Good(m)
    ensures Good(Log(AfterSettings(m, entries), [Sent(SETTINGS_ACK)]))
  {
    SettingsGood(m, entries);
    NeutralGood(AfterSettings(m, entries), Sent(SETTINGS_ACK));
  }

  lemma ControlGood(decode: Decoder, m: Manager, f: Frame)
    requires Good(m) && (f.SettingsFrame? || f.Ping? || f.Priority?)
    ensures Good(AfterDispatch(decode, m, f).manager)
  {
    match f
    case SettingsFrame(_, _, ack, settings, _, _) =>
      if ack {
        NeutralGood(m, SettingsAcked);
      } else {
        AcknowledgingGood(m, NaturalEntries(settings));
      }
    case Ping(_, _, ack, opaqueData) =>
      NeutralGood(m, if ack then PingAcked(opaqueData) else Sent(Frame.Ping(1, 0, true, opaqueData)));
    case Priority(_, _, _, _, _) =>
  }

  lemma WindowUpdateGood(m: Manager, id: int, increment: int)
    requires Good(m)
    ensures Good(AfterWindowUpdate(m, id, increment))
  {
    if id == 0 {
      CreditConnectionGood(m, increment);
      DrainedFromGood(CreditConnection(m, increment), 0);
    } else if id in m.streams {
      CreditStreamGood(m, id, increment);
      DrainedGood(CreditStream(m, id, increment), id);
    }
  }

  lemma DispatchGood(decode: Decoder, m: Manager, f: Frame)
    requires Good(m) && Polite(m, Dispatch(f))
    ensures Good(AfterDispatch(decode, m, f).manager)
  {
    match f
    case Data(flags, id, payload) => DataGood(m, id, flags, payload);
    case Headers(_, id, endHeaders, endStream, _, _, payload) =>
      HeadersGood(decode, m, id, endHeaders, endStream, payload);
    case RstStream(_, id, errorCode) => RstStreamGood(m, id, errorCode);
    case PushPromise(_, id, endHeaders, _, promised, payload) =>
      PushPromiseGood(decode, m, id, promised, endHeaders, payload);
    case Goaway(_, _, last, errorCode, debugData) => GoawayGood(m, last, errorCode, debugData);
    case WindowUpdate(_, id, increment) => WindowUpdateGood(m, id, increment);
    case Continuation(_, id, endHeaders, payload) => ContinuationGood(decode, m, id, endHeaders, payload);
    case _ => ControlGood(decode, m, f);
  }

  /** Every polite call keeps the invariant. */
  lemma AfterGood(decode: Decoder, m: Manager, input: Input)
    requires Good(m) && Polite(m, input)
    ensures Good(After(decode, m, input).manager)
  {
    match input
    case OpenStream =>
      NextIsFresh(m);
      BeginGood(m, m.nextId, []);
    case Dispatch(f) => DispatchGood(decode, m, f);
    case SendData(id, data, endStream) =>
      if id in m.streams {
        EnqueueGood(m, id, data, endStream);
        DrainedGood(Enqueue(m, id, data, endStream), id);
      }
    case ApplyWindowUpdate(id, increment) => WindowUpdateGood(m, id, increment);
    case ExpectResponse(id) => ExpectGood(m, id);
    case AbortAll(error) => AbortAllGood(m, error);
  }

  /** A log that is legal was legal all along. */
  lemma EventWasLegal(m: Manager, r: Manager, e: Event)
    requires LegalLog(r.log) && m.log + [e] <= r.log
    ensures Legal(Replay(m.log), e)
  {
    LegalAt(r.log, |m.log|);
    assert r.log[..|m.log|] == m.log && r.log[|m.log|] == e;
  }

  lemma LiveIsKnown(m: Manager, id: int)
    requires Good(m)
    ensures id in m.streams ==> Live(Replay(m.log), id) && (m.streams[id].resolver <==> id in Replay(m.log).awaiting)
  {
    assert id in m.streams ==> Tracked(m, Replay(m.log), id);
  }

  lemma OddGap(id: int, next: int)
    requires Odd(id) && Odd(next)
    ensures id > next - 2 ==> id >= next
  {
  }

  lemma PromiseOutOfRange(m: Manager, r: Manager, promised: int)
    requires Good(m) && Legal(Replay(m.log), Opened(promised, DEFAULT_INITIAL_WINDOW_SIZE))
    requires Odd(promised) || promised == 0 || promised in m.streams
    requires promised in r.streams && r.nextId == m.nextId
    ensures !Identified(r, promised)
  {
    LiveIsKnown(m, promised);
    if Odd(promised) {
      OddGap(promised, m.nextId);
    }
  }

  lemma ImpolitePromise(decode: Decoder, m: Manager, f: Frame)
    requires Good(m) && !Polite(m, Dispatch(f))
    ensures !Good(AfterDispatch(decode, m, f).manager)
  {
    var r, promised := AfterDispatch(decode, m, f).manager, f.promisedStreamId;
    assert promised in r.streams && m.log + [Opened(promised, DEFAULT_INITIAL_WINDOW_SIZE)] <= r.log &&
           r.nextId == m.nextId;
    if Good(r) {
      EventWasLegal(m, r, Opened(promised, DEFAULT_INITIAL_WINDOW_SIZE));
      PromiseOutOfRange(m, r, promised);
    }
  }

  /** Each impolite call breaks the invariant: an event is illegal, or an identifier out of its range. */
  lemma ImpoliteIsNotGood(decode: Decoder, m: Manager, input: Input)
    requires Good(m) && !Polite(m, input)
    ensures !Good(After(decode, m, input).manager)
  {
    var r := After(decode, m, input).manager;
    match input
    case Dispatch(f) => ImpolitePromise(decode, m, f);
    case ExpectResponse(id) =>
      LiveIsKnown(m, id);
      if Good(r) {
        EventWasLegal(m, r, Expected(id));
      }
    case _ =>
  }

  /** The calls that keep the invariant are exactly the polite ones. */
  lemma AfterGoodExactly(decode: Decoder, m: Manager, input: Input)
    requires Good(m)
    ensures Good(After(decode, m, input).manager) <==> Polite(m, input)
  {
    if Polite(m, input) {
      AfterGood(decode, m, input);
    } else {
      ImpoliteIsNotGood(decode, m, input);
    }
  }

  function Run(decode: Decoder, inputs: seq<Input>): Manager {
    if inputs == [] then INITIAL_MANAGER
    else After(decode, Run(decode, inputs[..|inputs| - 1]), inputs[|inputs| - 1]).manager
  }

  ghost predicate PoliteRun(decode: Decoder, inputs: seq<Input>) {
    inputs == [] ||
    (PoliteRun(decode, inputs[..|inputs| - 1]) && Polite(Run(decode, inputs[..|inputs| - 1]), inputs[|inputs| - 1]))
  }

  /** Whatever happens, in whatever order, every event is legal and the observer's accounts are the manager's. */
  lemma {:induction false} RunGood(decode: Decoder, inputs: seq<Input>)
    requires PoliteRun(decode, inputs)
    ensures Good(Run(decode, inputs))
  {
    if inputs == [] {
    } else {
      var front := inputs[..|inputs| - 1];
      RunGood(decode, front);
      AfterGood(decode, Run(decode, front), inputs[|inputs| - 1]);
    }
  }

  ghost predicate AlwaysGood(decode: Decoder, inputs: seq<Input>) {
    Good(Run(decode, inputs)) && (inputs == [] || AlwaysGood(decode, inputs[..|inputs| - 1]))
  }

  /** The runs that keep the invariant throughout are exactly the polite ones. */
  lemma {:induction false} RunGoodExactly(decode: Decoder, inputs: seq<Input>)
    ensures AlwaysGood(decode, inputs) <==> PoliteRun(decode, inputs)
  {
    if inputs == [] {
      assert Good(Run(decode, inputs));
    } else {
      var front, last := inputs[..|inputs| - 1], inputs[|inputs| - 1];
      RunGoodExactly(decode, front);
      if PoliteRun(decode, front) {
        RunGood(decode, front);
        AfterGoodExactly(decode, Run(decode, front), last);
      }
    }
  }

  /** In a polite run every event was legal to the observer when it came. */
  lemma RunLegalAt(decode: Decoder, inputs: seq<Input>, k: nat)
    requires PoliteRun(decode, inputs)
    ensures var log := Run(decode, inputs).log; k < |log| ==> Legal(Replay(log[..k]), log[k])
  {
    RunGood(decode, inputs);
    LegalAt(Run(decode, inputs).log, k);
  }
}
