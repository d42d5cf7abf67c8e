/** The connection: slot pool, stream manager, SETTINGS waits, and the signals between them (src/connection.ts). */
module ConnectionSteps {
  import opened Bits
  import opened Results
  import opened PrefixInteger
  import opened Frames
  import opened StreamTypes
  import opened StreamSteps
  import opened StreamProtocol
  import opened StreamInvariant
  import opened SlotPool
  import opened StreamReactions
  import SettingsWait
  import StreamLaws

  datatype World = World(manager: Manager, pool: Pool, waits: SettingsWait.Waits)

  const START_OF_WORLD: World := World(INITIAL_MANAGER, EMPTY_POOL, SettingsWait.NO_WAITS)

  /** What the listeners of the connection do about the events of the manager. */
  function Notified(p: Pool, events: seq<Event>): Pool {
    if events == [] then p
    else
      var before := Notified(p, events[..|events| - 1]);
      match events[|events| - 1]
      case StreamClosed(id, _) => Gone(before, id)
      case GoawayIn(_, _, _) => before.(closing := true)
      case _ => before
  }

  /** And those of the waits. */
  function Acked(waits: SettingsWait.Waits, events: seq<Event>): SettingsWait.Waits {
    if events == [] then waits
    else
      var before := Acked(waits, events[..|events| - 1]);
      if events[|events| - 1].SettingsAcked? then SettingsWait.After(before, SettingsWait.Acknowledge) else before
  }

  /** The manager has moved on to m; the connection hears of it. */
  function Heard(w: World, m: Manager): World
    requires w.manager.log <= m.log
  {
    var events := m.log[|w.manager.log|..];
    World(m, Notified(w.pool, events).(limit := m.maxConcurrent), Acked(w.waits, events))
  }

  function AbortedManager(m: Manager, cause: Cause): (r: Manager)
    ensures m.log <= r.log
  {
    AbortReacts(m, Aborted(cause), 0, true);
    AfterAbortAll(m, Aborted(cause))
  }

  /** What closing and fatal errors have in common: everything in flight is rejected and every waiting request woken. */
  function TornDown(w: World, cause: Cause): World {
    if w.pool.closed then w
    else
      var heard := Heard(w.(pool := w.pool.(closing := true)), AbortedManager(w.manager, cause));
      heard.(pool := WakeAll(heard.pool.(active := {})).(closed := true))
  }

  /** A fatal error breaks the pending SETTINGS wait first. */
  function Broken(w: World, cause: Cause): World {
    w.(waits := SettingsWait.After(w.waits, SettingsWait.Break(cause)))
  }

  function Failed(w: World, cause: Cause): World {
    if w.pool.closed then w else TornDown(Broken(w, cause), cause)
  }

  /** The connection writes a frame itself. */
  function WithSent(w: World, f: Frame): World {
    w.(manager := Log(w.manager, [Sent(f)]))
  }

  /** The HEADERS frame of a request. */
  function RequestHead(id: int, endStream: bool, block: Bytes): Frame {
    Headers(if endStream then 5 else 4, id, true, endStream, false, None, block)
  }

  /** The stream is open and its response expected; the header block that was encoded goes out. */
  function Headed(m: Manager, block: Bytes, body: Bytes): Manager {
    Log(AfterExpect(AfterOpen(m), m.nextId), [Sent(RequestHead(m.nextId, body == [], block))])
  }

  /** The manager's side of a request; None when its headers cannot be encoded. */
  function Requested(m: Manager, block: Option<Bytes>, body: Bytes): Manager {
    match block
    case None => AfterExpect(AfterOpen(m), m.nextId)
    case Some(octets) =>
      var headed := Headed(m, octets, body);
      if body == [] then headed else AfterSendData(headed, m.nextId, body, true)
  }

  /** It is too late for a request that finds the connection closing or closed. */
  predicate TooLate(w: World) {
    w.pool.closing || w.pool.closed
  }

  /** A request that got a slot opens its stream. */
  function WithRequest(w: World, i: nat, block: Option<Bytes>, body: Bytes): World
    requires i < |w.pool.granted|
  {
    w.(manager := if TooLate(w) then AfterOpen(w.manager) else Requested(w.manager, block, body),
       pool := SlotPool.After(w.pool, SlotPool.OpenStream(i, w.manager.nextId)))
  }

  datatype Step =
    | StartRequest(request: nat)
    | ResumeRequest(i: nat)
    | OpenRequest(i: nat, block: Option<Bytes>, body: Bytes)
    | Receive(frame: Frame)
    | Fail(cause: Cause)
    | SendGoaway(lastStreamId: int, errorCode: int, debugData: Bytes)
    | Close
    | AwaitSettingsAck
    | SettingsAckTimeout(i: nat)

  /** The manager takes a frame in and the connection hears of it; what the manager throws is fatal. */
  function Received(decode: Decoder, w: World, f: Frame): World {
    DispatchReacts(decode, w.manager, f);
    var o := AfterDispatch(decode, w.manager, f);
    var heard := Heard(w, o.manager);
    if o.thrown.Some? then Failed(heard, HeaderFailure(o.thrown.value)) else heard
  }

  function AfterClose(w: World): World {
    if w.pool.closed then w else TornDown(WithSent(w, Goaway(0, 0, 0, 0, [])), ConnectionClosed)
  }

  function Next(decode: Decoder, w: World, s: Step): World {
    match s
    case StartRequest(request) => w.(pool := SlotPool.After(w.pool, Start(request)))
    case ResumeRequest(i) => w.(pool := SlotPool.After(w.pool, Resume(i)))
    case OpenRequest(i, block, body) => if i < |w.pool.granted| then WithRequest(w, i, block, body) else w
    case Receive(f) => Received(decode, w, f)
    case Fail(cause) => Failed(w, cause)
    case SendGoaway(last, errorCode, debugData) =>
      WithSent(w.(pool := w.pool.(closing := true)), Goaway(0, 0, last, errorCode, debugData))
    case Close => AfterClose(w)
    case AwaitSettingsAck => w.(waits := SettingsWait.After(w.waits, SettingsWait.Begin))
    case SettingsAckTimeout(i) => w.(waits := SettingsWait.After(w.waits, SettingsWait.TimeOut(i)))
  }

  // ----- what always holds -----

  /** Every slot in use belongs to a live stream. */
  ghost predicate Consistent(w: World) {
    && Good(w.manager)
    && (forall id :: id in w.pool.active ==> id in w.manager.streams)
    && w.pool.limit == w.manager.maxConcurrent
  }

  ghost predicate Announced(events: seq<Event>, id: int) {
    exists k :: 0 <= k < |events| && events[k].StreamClosed? && events[k].id == id
  }

  /** A slot stays taken exactly until the stream that has it is announced to be closed. */
  lemma {:induction false} NotifiedRemoves(p: Pool, events: seq<Event>, id: int)
    ensures id in Notified(p, events).active <==> id in p.active && !Announced(events, id)
  {
    if events == [] {
    } else {
      var front, e := events[..|events| - 1], events[|events| - 1];
      NotifiedRemoves(p, front, id);
      assert Announced(events, id) <==> Announced(front, id) || (e.StreamClosed? && e.id == id);
    }
  }

  /** Whatever the manager drops, it announces, and the connection gives up the slot. */
  lemma HeardConsistent(w: World, m: Manager)
    requires Consistent(w) && Good(m) && w.manager.log <= m.log
    ensures Consistent(Heard(w, m))
  {
    var events := m.log[|w.manager.log|..];
    assert m.log == w.manager.log + events;
    forall id | id in Heard(w, m).pool.active
      ensures id in m.streams
    {
      NotifiedRemoves(w.pool, events, id);
      assert Tracked(w.manager, Replay(w.manager.log), id);
      if !Live(Replay(m.log), id) {
        StreamLaws.RemovalIsAnnounced(w.manager.log, events, id);
      }
    }
  }

  lemma TornDownConsistent(w: World, cause: Cause)
    requires Consistent(w)
    ensures Consistent(TornDown(w, cause))
    ensures !w.pool.closed ==> TornDown(w, cause).manager.streams == map[]
  {
    if !w.pool.closed {
      AbortAllGood(w.manager, Aborted(cause));
      HeardConsistent(w.(pool := w.pool.(closing := true)), AbortedManager(w.manager, cause));
    }
  }

  lemma FailedConsistent(w: World, cause: Cause)
    requires Consistent(w)
    ensures Consistent(Failed(w, cause))
    ensures !w.pool.closed ==> Failed(w, cause).manager.streams == map[]
  {
    TornDownConsistent(Broken(w, cause), cause);
  }

  lemma SentConsistent(w: World, f: Frame)
    requires Consistent(w) && Neutral(Sent(f))
    ensures Consistent(WithSent(w, f))
  {
    NeutralGood(w.manager, Sent(f));
  }

  /** The same streams and one more, and the same limit. */
  ghost predicate HasOpened(m: Manager, r: Manager) {
    r.maxConcurrent == m.maxConcurrent && r.streams.Keys == m.streams.Keys + {m.nextId}
  }

  lemma {:induction false} DrainedLimit(m: Manager, id: int)
    requires id in m.streams
    ensures Drained(m, id).maxConcurrent == m.maxConcurrent
    decreases |m.streams[id].sendQueue|
  {
    var queue := m.streams[id].sendQueue;
    if queue == [] || Cap(m, id) <= 0 {
    } else {
      DrainedLimit(SendChunk(m, id, Min(Cap(m, id), |queue|)), id);
    }
  }

  lemma OpenGood(m: Manager)
    requires Good(m)
    ensures Good(AfterOpen(m))
  {
    NextIsFresh(m);
    BeginGood(m, m.nextId, []);
  }

  /** Opened, and its response not yet asked for. */
  ghost predicate IsBare(m: Manager, id: int) {
    id in m.streams && !m.streams[id].resolver
  }

  lemma OpenIsBare(m: Manager)
    ensures IsBare(AfterOpen(m), m.nextId) && HasOpened(m, AfterOpen(m))
  {
  }

  lemma NothingQueued(m: Manager, id: int)
    requires LegalLog(m.log)
    ensures Replay(Log(m, [Event.Opened(id, m.initialWindow)]).log).accounts[id].queued == []
  {
    ReplayMore(m.log, Event.Opened(id, m.initialWindow));
  }

  /** The head of a request is in front of all its data. */
  lemma HeadLegal(m: Manager)
    requires Good(m)
    ensures var r := AfterExpect(AfterOpen(m), m.nextId);
            var v := Replay(r.log);
            Live(v, m.nextId) && v.accounts[m.nextId].queued == []
  {
    var id := m.nextId;
    NothingQueued(m, id);
    OpenIsBare(m);
    ReplayMore(AfterOpen(m).log, Expected(id));
  }

  lemma ExpectKeepsStreams(m: Manager, id: int)
    requires id in m.streams
    ensures AfterExpect(m, id).streams.Keys == m.streams.Keys && AfterExpect(m, id).maxConcurrent == m.maxConcurrent
  {
  }

  lemma ExpectedGood(m: Manager)
    requires Good(m)
    ensures Good(AfterExpect(AfterOpen(m), m.nextId)) && HasOpened(m, AfterExpect(AfterOpen(m), m.nextId))
  {
    OpenGood(m);
    OpenIsBare(m);
    var n := AfterOpen(m);
    ExpectGood(n, m.nextId);
    ExpectKeepsStreams(n, m.nextId);
  }

  /** A head may go out on a stream on which nothing is queued. */
  lemma HeadEventGood(m: Manager, id: int, endStream: bool, block: Bytes)
    requires Good(m) && Live(Replay(m.log), id) && Replay(m.log).accounts[id].queued == []
    ensures Good(Log(m, [Sent(RequestHead(id, endStream, block))]))
  {
    OneEvent(m, Log(m, [Sent(RequestHead(id, endStream, block))]), Sent(RequestHead(id, endStream, block)));
  }

  lemma HeadedGood(m: Manager, block: Bytes, body: Bytes)
    requires Good(m)
    ensures Good(Headed(m, block, body)) && HasOpened(m, Headed(m, block, body))
  {
    var n := AfterExpect(AfterOpen(m), m.nextId);
    assert Good(n) && HasOpened(m, n) by {
      ExpectedGood(m);
    }
    assert Live(Replay(n.log), m.nextId) && Replay(n.log).accounts[m.nextId].queued == [] by {
      HeadLegal(m);
    }
    HeadEventGood(n, m.nextId, body == [], block);
  }

  lemma SendGood(m: Manager, id: int, body: Bytes)
    requires Good(m) && id in m.streams
    ensures var r := AfterSendData(m, id, body, true);
            Good(r) && r.streams.Keys == m.streams.Keys && r.maxConcurrent == m.maxConcurrent
  {
    var n := Enqueue(m, id, body, true);
    EnqueueGood(m, id, body, true);
    DrainedGood(n, id);
    DrainedLimit(n, id);
  }

  lemma RequestedGood(m: Manager, block: Option<Bytes>, body: Bytes)
    requires Good(m)
    ensures Good(Requested(m, block, body)) && HasOpened(m, Requested(m, block, body))
  {
    match block
    case None => ExpectedGood(m);
    case Some(octets) =>
      HeadedGood(m, octets, body);
      SendGood(Headed(m, octets, body), m.nextId, body);
  }

  lemma OpenedGood(w: World, i: nat, block: Option<Bytes>, body: Bytes)
    requires Consistent(w) && i < |w.pool.granted|
    ensures var r := WithRequest(w, i, block, body);
            Good(r.manager) && HasOpened(w.manager, r.manager)
  {
    OpenGood(w.manager);
    OpenIsBare(w.manager);
    RequestedGood(w.manager, block, body);
  }

  /** Too late, and the stream gets no slot; otherwise it does. */
  lemma OpenedSlots(w: World, i: nat, block: Option<Bytes>, body: Bytes)
    requires Consistent(w) && i < |w.pool.granted|
    ensures var r := WithRequest(w, i, block, body);
            r.pool.active == (if TooLate(w) then w.pool.active else w.pool.active + {w.manager.nextId}) &&
            r.pool.limit == w.pool.limit && w.manager.nextId !in w.pool.active
  {
    NextIsFresh(w.manager);
  }

  lemma OpenedConsistent(w: World, i: nat, block: Option<Bytes>, body: Bytes)
    requires Consistent(w) && i < |w.pool.granted|
    ensures Consistent(WithRequest(w, i, block, body))
  {
    OpenedGood(w, i, block, body);
    OpenedSlots(w, i, block, body);
  }

  /** Every request that is due opens a stream, which gets no slot exactly if the connection is closing by then. */
  lemma SlotlessExactly(w: World, i: nat, block: Option<Bytes>, body: Bytes)
    requires Consistent(w) && i < |w.pool.granted|
    ensures var id, r := w.manager.nextId, WithRequest(w, i, block, body);
            id !in w.manager.streams && id in r.manager.streams &&
            (id !in r.pool.active <==> w.pool.closing || w.pool.closed)
  {
    NextIsFresh(w.manager);
    OpenedGood(w, i, block, body);
    OpenedSlots(w, i, block, body);
  }

  /** The connection relies on the same of its peer as the manager does. */
  predicate Polite(w: World, s: Step) {
    s.Receive? ==> StreamInvariant.Polite(w.manager, Dispatch(s.frame))
  }

  lemma ReceivedConsistent(decode: Decoder, w: World, f: Frame)
    requires Consistent(w) && Polite(w, Receive(f))
    ensures Consistent(Received(decode, w, f))
  {
    var o := AfterDispatch(decode, w.manager, f);
    DispatchReacts(decode, w.manager, f);
    DispatchGood(decode, w.manager, f);
    HeardConsistent(w, o.manager);
    if o.thrown.Some? {
      FailedConsistent(Heard(w, o.manager), HeaderFailure(o.thrown.value));
    }
  }

  lemma NextConsistent(decode: Decoder, w: World, s: Step)
    requires Consistent(w) && Polite(w, s)
    ensures Consistent(Next(decode, w, s))
  {
    match s
    case OpenRequest(i, block, body) =>
      if i < |w.pool.granted| {
        OpenedConsistent(w, i, block, body);
      }
    case Receive(f) => ReceivedConsistent(decode, w, f);
    case Fail(cause) => FailedConsistent(w, cause);
    case SendGoaway(last, errorCode, debugData) =>
      SentConsistent(w.(pool := w.pool.(closing := true)), Goaway(0, 0, last, errorCode, debugData));
    case Close =>
      SentConsistent(w, Goaway(0, 0, 0, 0, []));
      TornDownConsistent(WithSent(w, Goaway(0, 0, 0, 0, [])), ConnectionClosed);
    case _ =>
  }

  // ----- slots and ids -----

  /** Slots are only held by streams that were opened; the next one has none. */
  predicate IdsAreOld(w: World) {
    forall id :: id in w.pool.active ==> id < w.manager.nextId
  }

  lemma HeardIds(w: World, m: Manager)
    requires IdsAreOld(w) && w.manager.log <= m.log && m.nextId == w.manager.nextId
    ensures IdsAreOld(Heard(w, m))
  {
    forall id | id in Heard(w, m).pool.active
      ensures id < m.nextId
    {
      NotifiedRemoves(w.pool, m.log[|w.manager.log|..], id);
    }
  }

  lemma DrainedNextId(m: Manager, id: int)
    requires id in m.streams
    ensures Drained(m, id).nextId == m.nextId
  {
    DrainedReacts(m, id, 0, true);
  }

  lemma RequestedNextId(m: Manager, block: Option<Bytes>, body: Bytes)
    ensures Requested(m, block, body).nextId == m.nextId + 2
  {
    if block.Some? && body != [] {
      DrainedNextId(Enqueue(Headed(m, block.value, body), m.nextId, body, true), m.nextId);
    }
  }

  /** Every step keeps it so, polite or not. */
  lemma NextIds(decode: Decoder, w: World, s: Step)
    requires IdsAreOld(w)
    ensures IdsAreOld(Next(decode, w, s))
  {
    match s
    case OpenRequest(i, block, body) => RequestedNextId(w.manager, block, body);
    case Receive(f) =>
      DispatchReacts(decode, w.manager, f);
      HeardIds(w, AfterDispatch(decode, w.manager, f).manager);
    case _ =>
  }

  // ----- whole runs -----

  function Run(decode: Decoder, steps: seq<Step>): World {
    if steps == [] then START_OF_WORLD else Next(decode, Run(decode, steps[..|steps| - 1]), steps[|steps| - 1])
  }

  ghost predicate PoliteRun(decode: Decoder, steps: seq<Step>) {
    steps == [] ||
    (PoliteRun(decode, steps[..|steps| - 1]) && Polite(Run(decode, steps[..|steps| - 1]), steps[|steps| - 1]))
  }

  lemma {:induction false} RunConsistent(decode: Decoder, steps: seq<Step>)
    requires PoliteRun(decode, steps)
    ensures Consistent(Run(decode, steps))
  {
    if steps == [] {
    } else {
      var front := steps[..|steps| - 1];
      RunConsistent(decode, front);
      NextConsistent(decode, Run(decode, front), steps[|steps| - 1]);
    }
  }

  lemma RunOneMore(decode: Decoder, steps: seq<Step>, s: Step)
    ensures Run(decode, steps + [s]) == Next(decode, Run(decode, steps), s)
  {
    assert (steps + [s])[..|steps|] == steps;
  }

  function RunOn(decode: Decoder, w: World, steps: seq<Step>): World
    decreases |steps|
  {
    if steps == [] then w else RunOn(decode, Next(decode, w, steps[0]), steps[1..])
  }

  lemma {:induction false} RunOnIsRun(decode: Decoder, steps: seq<Step>, w: World, more: seq<Step>, all: seq<Step>)
    requires w == Run(decode, steps) && all == steps + more
    ensures RunOn(decode, w, more) == Run(decode, all)
    decreases |more|
  {
    if more == [] {
      assert steps == all;
    } else {
      RunOneMore(decode, steps, more[0]);
      assert all == steps + [more[0]] + more[1..];
      RunOnIsRun(decode, steps + [more[0]], Next(decode, w, more[0]), more[1..], all);
    }
  }

  /** Torn down, the connection has no stream, no slot in use and nobody parked. */
  lemma TornDownLeavesNobody(w: World, cause: Cause)
    requires !w.pool.closed
    ensures var r := TornDown(w, cause);
            r.pool.closed && r.pool.active == {} && r.pool.waiters == [] && r.manager.streams == map[]
  {
  }
}
