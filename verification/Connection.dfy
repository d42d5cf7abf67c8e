/** The connection object; each method runs from one await to the next (src/connection.ts). */
module Connection {
  import opened Bits
  import opened Results
  import opened PrefixInteger
  import opened Frames
  import opened StreamTypes
  import opened StreamSteps
  import opened StreamManager
  import opened SlotPool
  import opened StreamReactions
  import opened FrameReader
  import opened HpackHelpers
  import opened ConnectionSteps
  import opened ConnectionReading
  import opened ConnectionRequests
  import opened ConnectionMessages
  import SettingsWait
  import StaticTable

  /** A call from outside while the read loop waits. */
  datatype Call =
    | CallStart(request: nat)
    | CallResume(i: nat)
    | CallOpen(i: nat, headers: seq<StaticTable.Entry>, body: Bytes)
    | CallGoaway(lastStreamId: int, errorCode: int, debugData: Bytes)
    | CallClose
    | CallAwait
    | CallTimeout(i: nat)

  function BlockOf(headers: seq<StaticTable.Entry>, o: EncodeOptions): Option<Bytes> {
    if BlockFor(headers, o).Ok? then Some(BlockFor(headers, o).value) else None
  }

  /**
   * A request in time whose strings survive: the HEADERS frame it sends gives its headers, names
   * lower-cased, to a fresh decoder.
   */
  lemma OpenSaysHeaders(w: World, i: nat, headers: seq<StaticTable.Entry>, body: Bytes, o: EncodeOptions)
    requires i < |w.pool.granted| && !w.pool.closing && !w.pool.closed
    requires CanEncode(headers, o) && AllCarriedFor(headers, o)
    ensures var n, log := |w.manager.log|, WithRequest(w, i, BlockOf(headers, o), body).manager.log;
            && |log| > n + 2 && log[n + 2].Sent? && log[n + 2].frame.Headers?
            && log[n + 2].frame.streamId == w.manager.nextId
            && HeadersOf(log[n + 2].frame.payload) == Ok(Lowered(headers))
  {
    HeadersRoundTrip(headers, o);
    RequestIsSent(w, i, BlockFor(headers, o).value, body);
  }

  function StepOf(c: Call, o: EncodeOptions): ConnectionSteps.Step {
    match c
    case CallStart(request) => StartRequest(request)
    case CallResume(i) => ResumeRequest(i)
    case CallOpen(i, headers, body) => OpenRequest(i, BlockOf(headers, o), body)
    case CallGoaway(last, errorCode, debugData) => SendGoaway(last, errorCode, debugData)
    case CallClose => Close
    case CallAwait => AwaitSettingsAck
    case CallTimeout(i) => SettingsAckTimeout(i)
  }

  function StepsOf(calls: seq<Call>, o: EncodeOptions): seq<ConnectionSteps.Step> {
    if calls == [] then [] else [StepOf(calls[0], o)] + StepsOf(calls[1..], o)
  }

  function StepsBetween(between: seq<seq<Call>>, o: EncodeOptions): seq<seq<ConnectionSteps.Step>> {
    if between == [] then [] else [StepsOf(between[0], o)] + StepsBetween(between[1..], o)
  }

  /** The limit plays no part in what the listeners do. */
  lemma {:induction false} NotifiedLimit(p: Pool, events: seq<Event>, limit: int)
    ensures Notified(p.(limit := limit), events) == Notified(p, events).(limit := limit)
  {
    if events == [] {
    } else {
      NotifiedLimit(p, events[..|events| - 1], limit);
    }
  }

  lemma RequestedLimit(m: Manager, block: Option<Bytes>, body: Bytes)
    ensures Requested(m, block, body).maxConcurrent == m.maxConcurrent
  {
    if block.Some? && body != [] {
      DrainedLimit(Enqueue(Headed(m, block.value, body), m.nextId, body, true), m.nextId);
    }
  }

  class Connection {
    const manager: StreamManager
    const options: EncodeOptions
    var activeClientStreams: set<int>
    var slotWaiters: seq<nat>
    /**
     * Requests whose waiting was resolved and that have yet to run on, and those that have yet to open
     * their stream.
     */
    var woken: seq<nat>
    var granted: seq<nat>
    var closing: bool
    var closed: bool
    /** The waits for a SETTINGS acknowledgement, and the one whose reject function is at hand. */
    var settingsWaits: seq<SettingsWait.Wait>
    var settingsAckReject: Option<nat>

    ghost predicate Valid()
      reads this, manager
    {
      manager.Valid() && IdsAreOld(State())
    }

    ghost function Slots(): Pool
      reads this, manager
    {
      Pool(activeClientStreams, slotWaiters, woken, granted, closing, closed, manager.maxConcurrent)
    }

    ghost function Waits(): SettingsWait.Waits
      reads this
    {
      SettingsWait.Waits(settingsWaits, settingsAckReject)
    }

    ghost function State(): World
      reads this, manager
    {
      World(manager.State(), Slots(), Waits())
    }

    constructor (options: EncodeOptions)
      ensures Valid() && fresh(manager) && State() == START_OF_WORLD && this.options == options
    {
      manager := new StreamManager();
      this.options := options;
      activeClientStreams, slotWaiters, woken, granted := {}, [], [], [];
      closing, closed := false, false;
      settingsWaits, settingsAckReject := [], None;
    }

    // ----- concurrency slot pool -----

    method AcquireSlot(request: nat)
      modifies this
      ensures Slots() == Look(old(Slots()), request) && Waits() == old(Waits())
    {
      if !closing && !closed && |activeClientStreams| >= manager.maxConcurrent {
        slotWaiters := slotWaiters + [request];
      } else {
        granted := granted + [request];
      }
    }

    method ReleaseSlot()
      modifies this
      ensures Slots() == Release(old(Slots())) && Waits() == old(Waits())
    {
      if slotWaiters != [] {
        var waiter := slotWaiters[0];
        slotWaiters := slotWaiters[1..];
        woken := woken + [waiter];
      }
    }

    method DrainSlotWaiters()
      modifies this
      ensures Slots() == WakeAll(old(Slots())) && Waits() == old(Waits())
    {
      var waiters := slotWaiters;
      for i := 0 to |waiters|
        invariant Slots() == old(Slots()).(woken := old(woken) + waiters[..i]) && Waits() == old(Waits())
      {
        assert waiters[..i + 1] == waiters[..i] + [waiters[i]];
        woken := woken + [waiters[i]];
      }
      assert waiters[..|waiters|] == waiters;
      slotWaiters := [];
    }

    method OnStreamClosed(id: int)
      modifies this
      ensures Slots() == Gone(old(Slots()), id) && Waits() == old(Waits())
    {
      if id in activeClientStreams {
        activeClientStreams := activeClientStreams - {id};
        ReleaseSlot();
      }
    }

    /** The listeners, for the events of the manager from a point of its log on. */
    method Hear(from: nat)
      requires from <= |manager.log|
      modifies this
      ensures Slots() == Notified(old(Slots()), manager.log[from..])
      ensures Waits() == Acked(old(Waits()), manager.log[from..])
    {
      var events := manager.log[from..];
      for i := 0 to |events|
        invariant Slots() == Notified(old(Slots()), events[..i]) && Waits() == Acked(old(Waits()), events[..i])
      {
        assert events[..i + 1][..i] == events[..i];
        match events[i] {
          case StreamClosed(id, _) => OnStreamClosed(id);
          case GoawayIn(_, _, _) => closing := true;
          case SettingsAcked => OnSettingsAck();
          case _ =>
        }
      }
      assert events[..|events|] == events;
    }

    /** The manager has moved on since w. */
    method HearFrom(from: nat, ghost w: World)
      requires from == |w.manager.log| && w.manager.log <= manager.log && Waits() == w.waits
      requires Slots() == w.pool.(limit := manager.maxConcurrent)
      modifies this
      ensures State() == Heard(w, manager.State())
    {
      Hear(from);
      NotifiedLimit(w.pool, manager.log[from..], manager.maxConcurrent);
    }

    // ----- SETTINGS acknowledgement -----

    method WaitForSettingsAck()
      modifies this
      ensures State() == Next(manager.decode, old(State()), AwaitSettingsAck)
    {
      settingsAckReject := Some(|settingsWaits|);
      settingsWaits := settingsWaits + [SettingsWait.Wait(None, true)];
    }

    method OnSettingsAckTimeout(i: nat)
      modifies this
      ensures State() == Next(manager.decode, old(State()), SettingsAckTimeout(i))
    {
      if i < |settingsWaits| && settingsWaits[i].listens {
        settingsAckReject := None;
        settingsWaits :=
          settingsWaits[i := SettingsWait.Settled(settingsWaits[i], SettingsWait.TimedOut).(listens := false)];
      }
    }

    /** Every listening wait is told. */
    method OnSettingsAck()
      modifies this
      ensures Slots() == old(Slots())
      ensures Waits() == SettingsWait.After(old(Waits()), SettingsWait.Acknowledge)
    {
      ghost var all := settingsWaits;
      for i := 0 to |settingsWaits|
        invariant |settingsWaits| == |all| && Slots() == old(Slots())
        invariant forall k :: 0 <= k < i ==> settingsWaits[k] == SettingsWait.Heard(all)[k]
        invariant forall k :: i <= k < |all| ==> settingsWaits[k] == all[k]
        invariant settingsAckReject ==
                  if exists k :: 0 <= k < i && all[k].listens then None else old(settingsAckReject)
      {
        var w := settingsWaits[i];
        if w.listens {
          settingsAckReject := None;
          settingsWaits := settingsWaits[i := SettingsWait.Settled(w, SettingsWait.Acknowledged).(listens := false)];
        }
      }
      assert settingsWaits == SettingsWait.Heard(all);
      if !SettingsWait.Listens(old(Waits())) {
        assert settingsWaits == all;
      }
    }

    method RejectSettingsWait(cause: Cause)
      modifies this
      ensures Slots() == old(Slots())
      ensures Waits() == SettingsWait.After(old(Waits()), SettingsWait.Break(cause))
    {
      if settingsAckReject.Some? && settingsAckReject.value < |settingsWaits| {
        var i := settingsAckReject.value;
        settingsWaits := settingsWaits[i := SettingsWait.Settled(settingsWaits[i], SettingsWait.Broken(cause))];
        settingsAckReject := None;
      }
    }

    // ----- requests -----

    method StartRequest(request: nat)
      modifies this
      ensures State() == Next(manager.decode, old(State()), ConnectionSteps.StartRequest(request))
    {
      if closing || closed {
        return;
      }
      AcquireSlot(request);
    }

    method ResumeRequest(i: nat)
      modifies this
      ensures State() == Next(manager.decode, old(State()), ConnectionSteps.ResumeRequest(i))
    {
      if i >= |woken| {
        return;
      }
      var request := woken[i];
      woken := Remove(woken, i);
      AcquireSlot(request);
    }

    /** The request that got a slot opens its stream; headers that cannot be encoded end it there. */
    method OpenRequest(i: nat, headers: seq<StaticTable.Entry>, body: Bytes)
      requires Valid()
      modifies this, manager
      ensures State() ==
              Next(manager.decode, old(State()), ConnectionSteps.OpenRequest(i, BlockOf(headers, options), body))
    {
      if i >= |granted| {
        return;
      }
      granted := Remove(granted, i);
      ghost var m := manager.State();
      var endStreamNoBody := |body| == 0;
      var id := manager.OpenStream();
      activeClientStreams := activeClientStreams + {id};
      if closing || closed {
        activeClientStreams := activeClientStreams - {id};
        assert activeClientStreams == old(activeClientStreams);
        ReleaseSlot();
        return;
      }
      manager.ExpectResponse(id);
      var encoded := EncodeHeaders(headers, options);
      if encoded.Ok? {
        SendHeaders(id, encoded.value, endStreamNoBody);
        if !endStreamNoBody {
          manager.SendData(id, body, true);
        }
      }
      RequestedLimit(m, BlockOf(headers, options), body);
    }

    method SendHeaders(id: int, encoded: Bytes, endStream: bool)
      modifies manager
      ensures manager.State() == Log(old(manager.State()), [Sent(RequestHead(id, endStream, encoded))])
    {
      var flags := if endStream then 4 + 1 else 4;
      SendFrame(Headers(flags, id, true, endStream, false, None, encoded));
    }

    /** The manager and the connection write through the same callback, so one log has the frames of both. */
    method SendFrame(f: Frame)
      modifies manager
      ensures manager.State() == Log(old(manager.State()), [Sent(f)])
    {
      manager.log := manager.log + [Sent(f)];
    }

    // ----- frames and closing -----

    /** Dispatches one frame, the listeners included; an error is fatal. */
    method ReceiveFrame(f: Frame)
      requires Valid()
      modifies this, manager
      ensures State() == Next(manager.decode, old(State()), Receive(f))
    {
      var thrown := DispatchAndHear(f);
      if thrown.Some? {
        HandleFatal(HeaderFailure(thrown.value));
      }
    }

    /** What the manager does with a frame, and what the listeners do about that. */
    method DispatchAndHear(f: Frame) returns (thrown: Option<HpackError>)
      requires Valid()
      modifies this, manager
      ensures var o := AfterDispatch(manager.decode, old(manager.State()), f);
              old(manager.log) <= o.manager.log && State() == Heard(old(State()), o.manager) && thrown == o.thrown
    {
      DispatchReacts(manager.decode, manager.State(), f);
      var from := |manager.log|;
      thrown := manager.Dispatch(f);
      HearFrom(from, old(State()));
    }

    /** Any call from outside. */
    method Perform(c: Call)
      requires Valid()
      modifies this, manager
      ensures State() == Next(manager.decode, old(State()), StepOf(c, options))
    {
      match c {
        case CallStart(request) => StartRequest(request);
        case CallResume(i) => ResumeRequest(i);
        case CallOpen(i, headers, body) => OpenRequest(i, headers, body);
        case CallGoaway(last, errorCode, debugData) => SendGoaway(last, errorCode, debugData);
        case CallClose => Close();
        case CallAwait => WaitForSettingsAck();
        case CallTimeout(i) => OnSettingsAckTimeout(i);
      }
    }

    method PerformAll(calls: seq<Call>)
      requires Valid()
      modifies this, manager
      ensures Valid() && State() == RunOn(manager.decode, old(State()), StepsOf(calls, options))
    {
      ghost var end := RunOn(manager.decode, State(), StepsOf(calls, options));
      for i := 0 to |calls|
        invariant Valid() && RunOn(manager.decode, State(), StepsOf(calls[i..], options)) == end
      {
        NextIds(manager.decode, State(), StepOf(calls[i], options));
        assert calls[i..][1..] == calls[i + 1..];
        Perform(calls[i]);
      }
    }

    /** A frame is dispatched; that there is none, or that it does not parse, is fatal. */
    method TakeIn(r: ReadResult)
      requires Valid()
      modifies this, manager
      ensures Valid() && State() == TakenIn(manager.decode, old(State()), r)
    {
      match r {
        case Ended =>
          NextIds(manager.decode, State(), Fail(TransportFailed));
          HandleFatal(TransportFailed);
        case Got(Err(e)) =>
          NextIds(manager.decode, State(), Fail(UnreadableFrame(e)));
          HandleFatal(UnreadableFrame(e));
        case Got(Ok(f)) =>
          NextIds(manager.decode, State(), Receive(f));
          ReceiveFrame(f);
      }
    }

    /**
     * Reads and dispatches frames until the connection is closed, by whatever cause. While it waits for
     * its n-th frame, the n-th calls come in between.
     */
    method ReadLoop(reader: FrameReader, between: seq<seq<Call>>)
      requires Valid()
      modifies this, manager, reader
      ensures State() == Handled(manager.decode, old(State()), FramesOf(old(reader.Stream())),
                                 StepsBetween(between, options))
    {
      ghost var end := Handled(manager.decode, State(), FramesOf(reader.Stream()), StepsBetween(between, options));
      var later := between;
      while !closed
        invariant Valid()
        invariant Handled(manager.decode, State(), FramesOf(reader.Stream()), StepsBetween(later, options)) == end
        decreases !closed, |reader.Stream()|
      {
        NextHandled(manager.decode, State(), reader.Stream(), StepsBetween(later, options));
        var r := reader.ReadOneFrame();
        if later != [] {
          PerformAll(later[0]);
          later := later[1..];
        }
        TakeIn(r);
      }
    }

    method SendGoaway(lastStreamId: int, errorCode: int, debugData: Bytes)
      modifies this, manager
      ensures State() ==
              Next(manager.decode, old(State()), ConnectionSteps.SendGoaway(lastStreamId, errorCode, debugData))
    {
      closing := true;
      SendFrame(Goaway(0, 0, lastStreamId, errorCode, debugData));
    }

    method Close()
      modifies this, manager
      ensures State() == Next(manager.decode, old(State()), ConnectionSteps.Close)
    {
      if closed {
        return;
      }
      closing := true;
      ghost var w := old(State());
      SendFrame(Goaway(0, 0, 0, 0, []));
      assert State() == WithSent(w, Goaway(0, 0, 0, 0, [])).(pool := w.pool.(closing := true));
      TearDown(ConnectionClosed);
    }

    method HandleFatal(cause: Cause)
      modifies this, manager
      ensures State() == Failed(old(State()), cause)
    {
      if closed {
        return;
      }
      closing := true;
      RejectSettingsWait(cause);
      TearDown(cause);
    }

    /** What closing and fatal errors have in common. */
    method TearDown(cause: Cause)
      requires closing && !closed
      modifies this, manager
      ensures State() == TornDown(old(State()), cause)
    {
      ghost var w := State();
      var from := |manager.log|;
      manager.AbortEverything(Aborted(cause));
      assert manager.State() == AbortedManager(w.manager, cause);
      HearFrom(from, w);
      activeClientStreams := {};
      DrainSlotWaiters();
      closed := true;
    }
  }
}
