/** What holds of requests, their streams, slots and frames over whole runs of the connection. */
module ConnectionRequests {
  import opened Bits
  import opened Results
  import opened PrefixInteger
  import opened Frames
  import opened StreamTypes
  import opened StreamSteps
  import opened StreamProtocol
  import opened StreamReactions
  import opened StreamInvariant
  import opened SlotPool
  import opened ConnectionSteps
  import StreamLaws

  // ----- streams without a slot -----

  /** The streams opened by requests that came too late. */
  function LateIds(decode: Decoder, steps: seq<ConnectionSteps.Step>): set<int> {
    if steps == [] then {}
    else
      var before, w, s :=
        LateIds(decode, steps[..|steps| - 1]), ConnectionSteps.Run(decode, steps[..|steps| - 1]), steps[|steps| - 1];
      if s.OpenRequest? && s.i < |w.pool.granted| && TooLate(w) then before + {w.manager.nextId} else before
  }

  ghost predicate SlotsExact(w: World, late: set<int>) {
    && (forall id :: id in late ==> id < w.manager.nextId)
    && (forall id :: id in w.manager.streams && Odd(id) ==> (id in w.pool.active <==> id !in late))
  }

  lemma NextIdGrows(m: Manager, r: Manager)
    requires Good(m) && Good(r) && m.log <= r.log
    ensures m.nextId <= r.nextId
  {
    assert r.log == m.log + r.log[|m.log|..];
    StreamLaws.LastOpenedGrows(m.log, r.log[|m.log|..]);
  }

  lemma NotReopened(log: seq<Event>, r: seq<Event>, promised: int, id: int)
    requires log <= r && forall k :: |log| <= k < |r| ==> Reaction(r[k], promised, true)
    requires id != promised
    ensures forall k :: 0 <= k < |r| - |log| ==> !StreamLaws.Begins(r[|log|..][k], id)
  {
    forall k | 0 <= k < |r| - |log|
      ensures !StreamLaws.Begins(r[|log|..][k], id)
    {
      assert Reaction(r[|log| + k], promised, true);
    }
  }

  lemma StreamIsKnown(m: Manager, id: int)
    requires Good(m)
    ensures id in m.streams <==> Live(Replay(m.log), id)
  {
    LiveIsKnown(m, id);
  }

  lemma LivedOn(m: Manager, r: Manager, promised: int, id: int)
    requires Good(m) && Good(r) && Reacts(m, r, promised, true) && !Odd(promised)
    requires id in r.streams && Odd(id)
    ensures id in m.streams && !Announced(r.log[|m.log|..], id)
  {
    var log, more := m.log, r.log[|m.log|..];
    assert log + more == r.log;
    NotReopened(log, r.log, promised, id);
    StreamIsKnown(r, id);
    StreamLaws.LivesOn(log, more, id);
    StreamIsKnown(m, id);
  }

  lemma HeardExact(w: World, m: Manager, promised: int, late: set<int>)
    requires Consistent(w) && Good(m) && Reacts(w.manager, m, promised, true) && !Odd(promised) && SlotsExact(w, late)
    ensures SlotsExact(Heard(w, m), late)
  {
    NextIdGrows(w.manager, m);
    forall id | id in m.streams && Odd(id)
      ensures id in Heard(w, m).pool.active <==> id !in late
    {
      LivedOn(w.manager, m, promised, id);
      NotifiedRemoves(w.pool, m.log[|w.manager.log|..], id);
    }
  }

  lemma TornDownExact(w: World, cause: Cause, late: set<int>)
    requires Consistent(w) && SlotsExact(w, late)
    ensures SlotsExact(TornDown(w, cause), late)
  {
    TornDownConsistent(w, cause);
    if !w.pool.closed {
      NextIdGrows(w.manager, AbortedManager(w.manager, cause));
    }
  }

  lemma ReceivedExact(decode: Decoder, w: World, f: Frame, late: set<int>)
    requires Consistent(w) && ConnectionSteps.Polite(w, Receive(f)) && SlotsExact(w, late)
    ensures SlotsExact(Received(decode, w, f), late)
  {
    var o := AfterDispatch(decode, w.manager, f);
    DispatchReacts(decode, w.manager, f);
    DispatchGood(decode, w.manager, f);
    HeardExact(w, o.manager, PromisedBy(f), late);
    HeardConsistent(w, o.manager);
    if o.thrown.Some? {
      TornDownExact(Broken(Heard(w, o.manager), HeaderFailure(o.thrown.value)), HeaderFailure(o.thrown.value), late);
    }
  }

  lemma OneMoreExact(w: World, r: World, late: set<int>, tooLate: bool)
    requires Good(w.manager) && Good(r.manager) && HasOpened(w.manager, r.manager) && SlotsExact(w, late)
    requires w.manager.nextId !in w.pool.active
    requires r.pool.active == (if tooLate then w.pool.active else w.pool.active + {w.manager.nextId})
    ensures SlotsExact(r, if tooLate then late + {w.manager.nextId} else late)
  {
    var id := w.manager.nextId;
    assert Odd(id) && id in r.manager.streams && Identified(r.manager, id);
    forall k | k in r.manager.streams
      ensures k in w.manager.streams || k == id
    {
      assert k in r.manager.streams.Keys;
    }
  }

  lemma OpenedExact(w: World, i: nat, block: Option<Bytes>, body: Bytes, late: set<int>)
    requires Consistent(w) && i < |w.pool.granted| && SlotsExact(w, late)
    ensures SlotsExact(WithRequest(w, i, block, body), if TooLate(w) then late + {w.manager.nextId} else late)
  {
    OpenedGood(w, i, block, body);
    OpenedSlots(w, i, block, body);
    OneMoreExact(w, WithRequest(w, i, block, body), late, TooLate(w));
  }

  lemma NextExact(decode: Decoder, w: World, s: ConnectionSteps.Step, late: set<int>)
    requires Consistent(w) && ConnectionSteps.Polite(w, s) && SlotsExact(w, late)
    requires !(s.OpenRequest? && s.i < |w.pool.granted|)
    ensures SlotsExact(Next(decode, w, s), late)
  {
    match s
    case StartRequest(request) => assert Next(decode, w, s).pool.active == w.pool.active;
    case ResumeRequest(i) => assert Next(decode, w, s).pool.active == w.pool.active;
    case Receive(f) => ReceivedExact(decode, w, f, late);
    case Fail(cause) => TornDownExact(Broken(w, cause), cause, late);
    case Close =>
      SentConsistent(w, Goaway(0, 0, 0, 0, []));
      TornDownExact(WithSent(w, Goaway(0, 0, 0, 0, [])), ConnectionClosed, late);
    case _ =>
  }

  /**
   * After any polite run a live client stream holds no slot exactly if the request that opened
   * it did so when the connection was closing already.
   */
  lemma {:induction false} SlotlessAreLate(decode: Decoder, steps: seq<ConnectionSteps.Step>)
    requires ConnectionSteps.PoliteRun(decode, steps)
    ensures SlotsExact(ConnectionSteps.Run(decode, steps), LateIds(decode, steps))
  {
    if steps == [] {
    } else {
      var front, s := steps[..|steps| - 1], steps[|steps| - 1];
      var w, late := ConnectionSteps.Run(decode, front), LateIds(decode, front);
      SlotlessAreLate(decode, front);
      RunConsistent(decode, front);
      if s.OpenRequest? && s.i < |w.pool.granted| {
        OpenedExact(w, s.i, s.block, s.body, late);
      } else {
        NextExact(decode, w, s, late);
      }
    }
  }

  // ----- the shape of a request -----

  predicate IsHead(e: Event, id: int) {
    e.Sent? && e.frame.Headers? && e.frame.streamId == id
  }

  /**
   * A head comes two events after its stream was opened and just in front of the one body that
   * is queued, unless it ends the stream; and no body comes without a head.
   */
  predicate Placed(log: seq<Event>, k: nat)
    requires k < |log|
  {
    match log[k]
    case Queued(id, _, _) => k > 0 && IsHead(log[k - 1], id) && !log[k - 1].frame.endStream
    case Sent(Headers(_, id, _, endStream, _, _, _)) =>
      && k > 1 && StreamLaws.Begins(log[k - 2], id) && Odd(id)
      && (!endStream ==> k + 1 < |log| && StreamLaws.QueuesOn(log[k + 1], id) && log[k + 1].endStream)
    case _ => true
  }

  ghost predicate WellPlaced(log: seq<Event>) {
    forall k :: 0 <= k < |log| ==> Placed(log, k)
  }

  lemma StillPlaced(log: seq<Event>, more: seq<Event>, k: nat)
    requires k < |log| && log <= more && Placed(log, k)
    ensures Placed(more, k)
  {
  }

  lemma ReactionsPlaced(m: Manager, r: Manager, promised: int)
    requires WellPlaced(m.log) && Reacts(m, r, promised, true)
    ensures WellPlaced(r.log)
  {
    forall k | 0 <= k < |r.log|
      ensures Placed(r.log, k)
    {
      if k < |m.log| {
        StillPlaced(m.log, r.log, k);
      } else {
        assert Reaction(r.log[k], promised, true);
      }
    }
  }

  /** What a request adds to the log before any data goes out. */
  function RequestEvents(m: Manager, block: Option<Bytes>, body: Bytes): seq<Event> {
    [Event.Opened(m.nextId, m.initialWindow), Expected(m.nextId)] +
    match block
    case None => []
    case Some(octets) =>
      [Sent(RequestHead(m.nextId, body == [], octets))] + if body == [] then [] else [Queued(m.nextId, body, true)]
  }

  lemma RequestPlaced(m: Manager, block: Option<Bytes>, body: Bytes)
    requires WellPlaced(m.log) && Odd(m.nextId)
    ensures WellPlaced(m.log + RequestEvents(m, block, body))
  {
    var log, n := m.log + RequestEvents(m, block, body), |m.log|;
    forall k | 0 <= k < |log|
      ensures Placed(log, k)
    {
      if k < n {
        StillPlaced(m.log, log, k);
      } else if k >= n + 2 {
        assert log[n] == Event.Opened(m.nextId, m.initialWindow);
        assert log[n + 2] == Sent(RequestHead(m.nextId, body == [], block.value));
        assert body != [] ==> log[n + 3] == Queued(m.nextId, body, true);
      }
    }
  }

  lemma RequestedPlaced(m: Manager, block: Option<Bytes>, body: Bytes)
    requires WellPlaced(m.log) && Odd(m.nextId)
    ensures WellPlaced(Requested(m, block, body).log)
  {
    RequestPlaced(m, block, body);
    if block.None? || body == [] {
      assert Requested(m, block, body).log == m.log + RequestEvents(m, block, body);
    } else {
      var n := Enqueue(Headed(m, block.value, body), m.nextId, body, true);
      assert n.log == m.log + RequestEvents(m, block, body);
      DrainedReacts(n, m.nextId, 0, true);
      ReactionsPlaced(n, Drained(n, m.nextId), 0);
    }
  }

  lemma OtherEventPlaced(log: seq<Event>, e: Event)
    requires WellPlaced(log) && !e.Queued? && (e.Sent? ==> !e.frame.Headers?)
    ensures WellPlaced(log + [e])
  {
    forall k | 0 <= k < |log + [e]|
      ensures Placed(log + [e], k)
    {
      if k < |log| {
        StillPlaced(log, log + [e], k);
      }
    }
  }

  lemma TornDownPlaced(w: World, cause: Cause)
    requires WellPlaced(w.manager.log)
    ensures WellPlaced(TornDown(w, cause).manager.log)
  {
    AbortReacts(w.manager, Aborted(cause), 0, true);
    ReactionsPlaced(w.manager, AfterAbortAll(w.manager, Aborted(cause)), 0);
  }

  lemma NextPlaced(decode: Decoder, w: World, s: ConnectionSteps.Step)
    requires WellPlaced(w.manager.log) && Odd(w.manager.nextId)
    ensures WellPlaced(Next(decode, w, s).manager.log)
  {
    match s
    case OpenRequest(i, block, body) =>
      RequestedPlaced(w.manager, block, body);
      OtherEventPlaced(w.manager.log, Event.Opened(w.manager.nextId, w.manager.initialWindow));
    case Receive(f) =>
      DispatchReacts(decode, w.manager, f);
      var o := AfterDispatch(decode, w.manager, f);
      ReactionsPlaced(w.manager, o.manager, PromisedBy(f));
      if o.thrown.Some? {
        TornDownPlaced(Broken(Heard(w, o.manager), HeaderFailure(o.thrown.value)), HeaderFailure(o.thrown.value));
      }
    case Fail(cause) => TornDownPlaced(Broken(w, cause), cause);
    case SendGoaway(last, errorCode, debugData) =>
      OtherEventPlaced(w.manager.log, Sent(Goaway(0, 0, last, errorCode, debugData)));
    case Close =>
      OtherEventPlaced(w.manager.log, Sent(Goaway(0, 0, 0, 0, [])));
      TornDownPlaced(WithSent(w, Goaway(0, 0, 0, 0, [])), ConnectionClosed);
    case _ =>
  }

  lemma {:induction false} RunPlaced(decode: Decoder, steps: seq<ConnectionSteps.Step>)
    requires ConnectionSteps.PoliteRun(decode, steps)
    ensures WellPlaced(ConnectionSteps.Run(decode, steps).manager.log)
  {
    if steps == [] {
    } else {
      var front := steps[..|steps| - 1];
      RunPlaced(decode, front);
      RunConsistent(decode, front);
      NextPlaced(decode, ConnectionSteps.Run(decode, front), steps[|steps| - 1]);
    }
  }

  lemma OneHead(log: seq<Event>, j: nat, h: nat, id: int)
    requires LegalLog(log) && WellPlaced(log) && j < |log| && h < |log| && IsHead(log[j], id) && IsHead(log[h], id)
    ensures j == h
  {
    assert Placed(log, j) && Placed(log, h);
    if j < h {
      StreamLaws.OpenedAscends(log, j - 2, h - 2);
    } else if h < j {
      StreamLaws.OpenedAscends(log, h - 2, j - 2);
    }
  }

  lemma DataHasHead(log: seq<Event>, k: nat, id: int) returns (q: nat)
    requires LegalLog(log) && WellPlaced(log) && k < |log| && StreamLaws.SendsOn(log[k], id)
    ensures 0 < q < k && IsHead(log[q - 1], id) && !log[q - 1].frame.endStream
  {
    LegalAt(log, k);
    var v := Replay(log[..k]);
    StreamLaws.AccountsAreSums(log[..k], id);
    assert |v.accounts[id].sent + log[k].frame.payload| > 0;
    q := StreamLaws.QueuedBySomebody(log[..k], id);
    assert log[..k][q] == log[q] && Placed(log, q);
  }

  /** The only head of its stream, in front of all its DATA, and none follows if it ends the stream. */
  ghost predicate Leads(log: seq<Event>, j: nat, id: int)
    requires j < |log| && IsHead(log[j], id)
  {
    && (forall h :: 0 <= h < |log| && IsHead(log[h], id) ==> h == j)
    && (forall k :: 0 <= k < |log| && StreamLaws.SendsOn(log[k], id) ==> j < k && !log[j].frame.endStream)
  }

  lemma HeadLeads(log: seq<Event>, j: nat, id: int)
    requires LegalLog(log) && WellPlaced(log) && j < |log| && IsHead(log[j], id)
    ensures Leads(log, j, id)
  {
    forall h | 0 <= h < |log| && IsHead(log[h], id)
      ensures h == j
    {
      OneHead(log, j, h, id);
    }
    forall k | 0 <= k < |log| && StreamLaws.SendsOn(log[k], id)
      ensures j < k && !log[j].frame.endStream
    {
      var q := DataHasHead(log, k, id);
      OneHead(log, j, q - 1, id);
    }
  }

  ghost predicate HasBody(log: seq<Event>, id: int) {
    exists q :: 0 <= q < |log| && StreamLaws.QueuesOn(log[q], id)
  }

  lemma HeadEndsExactly(log: seq<Event>, j: nat, id: int)
    requires LegalLog(log) && WellPlaced(log) && j < |log| && IsHead(log[j], id)
    ensures log[j].frame.endStream <==> !HasBody(log, id)
  {
    assert Placed(log, j);
    if HasBody(log, id) {
      var q :| 0 <= q < |log| && StreamLaws.QueuesOn(log[q], id);
      assert Placed(log, q);
      OneHead(log, j, q - 1, id);
    }
  }

  /**
   * On every client stream one head goes out, in front of all DATA, and it ends the stream
   * exactly if no body is queued, in which case no DATA follows at all.
   */
  lemma RequestShape(decode: Decoder, steps: seq<ConnectionSteps.Step>, j: nat, id: int)
    requires ConnectionSteps.PoliteRun(decode, steps)
    ensures var log := ConnectionSteps.Run(decode, steps).manager.log;
            j < |log| && IsHead(log[j], id) ==> Leads(log, j, id) && (log[j].frame.endStream <==> !HasBody(log, id))
  {
    var log := ConnectionSteps.Run(decode, steps).manager.log;
    RunConsistent(decode, steps);
    RunPlaced(decode, steps);
    if j < |log| && IsHead(log[j], id) {
      HeadLeads(log, j, id);
      HeadEndsExactly(log, j, id);
    }
  }

  /** No DATA goes out on a stream without a head in front of it. */
  lemma DataFollowsHead(decode: Decoder, steps: seq<ConnectionSteps.Step>, k: nat, id: int)
    requires ConnectionSteps.PoliteRun(decode, steps)
    ensures var log := ConnectionSteps.Run(decode, steps).manager.log;
            k < |log| && StreamLaws.SendsOn(log[k], id) ==> exists j :: 0 <= j < k && IsHead(log[j], id)
  {
    var log := ConnectionSteps.Run(decode, steps).manager.log;
    RunConsistent(decode, steps);
    RunPlaced(decode, steps);
    if k < |log| && StreamLaws.SendsOn(log[k], id) {
      var q := DataHasHead(log, k, id);
    }
  }

  /** A body is queued once, whole, and right behind its head. */
  lemma BodiesAreWhole(decode: Decoder, steps: seq<ConnectionSteps.Step>, q: nat)
    requires ConnectionSteps.PoliteRun(decode, steps)
    ensures var log := ConnectionSteps.Run(decode, steps).manager.log;
            q < |log| && log[q].Queued? ==>
              log[q].data != [] && log[q].endStream &&
              q > 0 && IsHead(log[q - 1], log[q].id) && !log[q - 1].frame.endStream
  {
    var log := ConnectionSteps.Run(decode, steps).manager.log;
    RunPlaced(decode, steps);
    if q < |log| && log[q].Queued? {
      assert Placed(log, q) && Placed(log, q - 1);
    }
  }

  // ----- requests whose headers cannot be encoded -----

  /** The streams opened in time by requests whose headers cannot be encoded. */
  function MuteIds(decode: Decoder, steps: seq<ConnectionSteps.Step>): set<int> {
    if steps == [] then {}
    else
      var front, s := steps[..|steps| - 1], steps[|steps| - 1];
      var before, w := MuteIds(decode, front), ConnectionSteps.Run(decode, front);
      if s.OpenRequest? && s.i < |w.pool.granted| && !TooLate(w) && s.block.None? then before + {w.manager.nextId}
      else before
  }

  ghost predicate HasHead(log: seq<Event>, id: int) {
    exists j :: 0 <= j < |log| && IsHead(log[j], id)
  }

  /** Of the client streams the silent ones have no head. */
  ghost predicate HeadsExact(m: Manager, silent: set<int>) {
    && (forall id :: id in silent ==> id < m.nextId)
    && (forall id :: id in m.streams && Odd(id) ==> (HasHead(m.log, id) <==> id !in silent))
  }

  lemma HeadStays(log: seq<Event>, more: seq<Event>, id: int)
    requires log <= more && HasHead(log, id)
    ensures HasHead(more, id)
  {
    var j :| 0 <= j < |log| && IsHead(log[j], id);
    assert more[j] == log[j];
  }

  lemma NoNewHead(log: seq<Event>, more: seq<Event>, id: int)
    requires log <= more && forall k :: |log| <= k < |more| ==> !IsHead(more[k], id)
    ensures HasHead(more, id) <==> HasHead(log, id)
  {
    if HasHead(more, id) {
      var j :| 0 <= j < |more| && IsHead(more[j], id);
      assert log[j] == more[j];
    } else if HasHead(log, id) {
      HeadStays(log, more, id);
    }
  }

  lemma ReactionsAreHeadless(m: Manager, r: Manager, promised: int, id: int)
    requires Reacts(m, r, promised, true)
    ensures HasHead(r.log, id) <==> HasHead(m.log, id)
  {
    forall k | |m.log| <= k < |r.log|
      ensures !IsHead(r.log[k], id)
    {
      assert Reaction(r.log[k], promised, true);
    }
    NoNewHead(m.log, r.log, id);
  }

  lemma ReactionsExact(m: Manager, r: Manager, promised: int, silent: set<int>)
    requires Good(m) && Good(r) && Reacts(m, r, promised, true) && !Odd(promised) && HeadsExact(m, silent)
    ensures HeadsExact(r, silent)
  {
    forall id | id in r.streams && Odd(id)
      ensures HasHead(r.log, id) <==> id !in silent
    {
      LivedOn(m, r, promised, id);
      ReactionsAreHeadless(m, r, promised, id);
    }
  }

  lemma SentExact(m: Manager, f: Frame, silent: set<int>)
    requires HeadsExact(m, silent) && !f.Headers?
    ensures HeadsExact(Log(m, [Sent(f)]), silent)
  {
    forall id | id in m.streams && Odd(id)
      ensures HasHead(m.log + [Sent(f)], id) <==> id !in silent
    {
      NoNewHead(m.log, m.log + [Sent(f)], id);
    }
  }

  lemma TornDownHeads(w: World, cause: Cause, silent: set<int>)
    requires Consistent(w) && HeadsExact(w.manager, silent)
    ensures HeadsExact(TornDown(w, cause).manager, silent)
  {
    TornDownConsistent(w, cause);
    if !w.pool.closed {
      NextIdGrows(w.manager, AbortedManager(w.manager, cause));
    }
  }

  lemma ReceivedHeads(decode: Decoder, w: World, f: Frame, silent: set<int>)
    requires Consistent(w) && ConnectionSteps.Polite(w, Receive(f)) && HeadsExact(w.manager, silent)
    ensures HeadsExact(Received(decode, w, f).manager, silent)
  {
    var o := AfterDispatch(decode, w.manager, f);
    DispatchReacts(decode, w.manager, f);
    DispatchGood(decode, w.manager, f);
    ReactionsExact(w.manager, o.manager, PromisedBy(f), silent);
    HeardConsistent(w, o.manager);
    if o.thrown.Some? {
      var cause := HeaderFailure(o.thrown.value);
      TornDownHeads(Broken(Heard(w, o.manager), cause), cause, silent);
    }
  }

  lemma OtherHeads(decode: Decoder, w: World, s: ConnectionSteps.Step, silent: set<int>)
    requires Consistent(w) && ConnectionSteps.Polite(w, s) && HeadsExact(w.manager, silent)
    requires !(s.OpenRequest? && s.i < |w.pool.granted|)
    ensures HeadsExact(Next(decode, w, s).manager, silent)
  {
    match s
    case Receive(f) => ReceivedHeads(decode, w, f, silent);
    case Fail(cause) => TornDownHeads(Broken(w, cause), cause, silent);
    case SendGoaway(last, errorCode, debugData) =>
      SentExact(w.manager, Goaway(0, 0, last, errorCode, debugData), silent);
    case Close =>
      SentExact(w.manager, Goaway(0, 0, 0, 0, []), silent);
      SentConsistent(w, Goaway(0, 0, 0, 0, []));
      TornDownHeads(WithSent(w, Goaway(0, 0, 0, 0, [])), ConnectionClosed, silent);
    case _ =>
  }

  lemma RequestedLog(m: Manager, block: Option<Bytes>, body: Bytes, id: int)
    ensures var r, log := Requested(m, block, body), m.log + RequestEvents(m, block, body);
            log <= r.log && (HasHead(r.log, id) <==> HasHead(log, id))
  {
    if block.None? || body == [] {
      assert Requested(m, block, body).log == m.log + RequestEvents(m, block, body);
    } else {
      var n := Enqueue(Headed(m, block.value, body), m.nextId, body, true);
      assert n.log == m.log + RequestEvents(m, block, body);
      DrainedReacts(n, m.nextId, 0, true);
      ReactionsAreHeadless(n, Drained(n, m.nextId), 0, id);
    }
  }

  /** The manager's log after a request opened its stream, before the data of its body. */
  lemma RequestLog(m: Manager, block: Option<Bytes>, body: Bytes, id: int)
    ensures var r := Requested(m, block, body);
            m.log <= r.log &&
            (HasHead(r.log, id) <==> HasHead(m.log, id) || (block.Some? && id == m.nextId))
  {
    var events := RequestEvents(m, block, body);
    var log := m.log + events;
    if id == m.nextId && block.Some? {
      assert IsHead(log[|m.log| + 2], id);
    } else {
      NoNewHead(m.log, log, id);
    }
    assert HasHead(log, id) <==> HasHead(m.log, id) || (block.Some? && id == m.nextId) by {
      if HasHead(m.log, id) {
        HeadStays(m.log, log, id);
      }
    }
    RequestedLog(m, block, body, id);
  }

  /** No head is out for a stream that is yet to be opened. */
  lemma FreshHasNoHead(m: Manager)
    requires Good(m) && WellPlaced(m.log)
    ensures !HasHead(m.log, m.nextId)
  {
    if HasHead(m.log, m.nextId) {
      var j :| 0 <= j < |m.log| && IsHead(m.log[j], m.nextId);
      assert Placed(m.log, j);
      StreamLaws.LastOpened(m.log, j - 2);
    }
  }

  lemma OneMoreHead(m: Manager, r: Manager, silent: set<int>, mute: bool)
    requires Good(m) && Good(r) && HasOpened(m, r) && HeadsExact(m, silent) && !HasHead(m.log, m.nextId)
    requires forall id :: HasHead(r.log, id) <==> HasHead(m.log, id) || (!mute && id == m.nextId)
    ensures HeadsExact(r, if mute then silent + {m.nextId} else silent)
  {
    var id := m.nextId;
    assert Odd(id) && id in r.streams && Identified(r, id);
    forall k | k in r.streams
      ensures k in m.streams || k == id
    {
      assert k in r.streams.Keys;
    }
  }

  lemma OpenedHeads(w: World, i: nat, block: Option<Bytes>, body: Bytes, silent: set<int>)
    requires Consistent(w) && i < |w.pool.granted| && HeadsExact(w.manager, silent) && WellPlaced(w.manager.log)
    ensures var mute := TooLate(w) || block.None?;
            HeadsExact(WithRequest(w, i, block, body).manager,
                       if mute then silent + {w.manager.nextId} else silent)
  {
    var m, r := w.manager, WithRequest(w, i, block, body).manager;
    var mute := TooLate(w) || block.None?;
    OpenedGood(w, i, block, body);
    FreshHasNoHead(m);
    forall id
      ensures HasHead(r.log, id) <==> HasHead(m.log, id) || (!mute && id == m.nextId)
    {
      RequestLog(m, block, body, id);
      NoNewHead(m.log, AfterOpen(m).log, id);
    }
    OneMoreHead(m, r, silent, mute);
  }

  lemma SilentGrows(decode: Decoder, steps: seq<ConnectionSteps.Step>)
    requires steps != []
    ensures var front, s := steps[..|steps| - 1], steps[|steps| - 1];
            var w := ConnectionSteps.Run(decode, front);
            var silent := LateIds(decode, front) + MuteIds(decode, front);
            LateIds(decode, steps) + MuteIds(decode, steps) ==
            if s.OpenRequest? && s.i < |w.pool.granted| &&
              (TooLate(w) || s.block.None?) then silent + {w.manager.nextId}
            else silent
  {
  }

  /**
   * After any polite run a live client stream has its HEADERS frame out exactly if the request that
   * opened it was in time and its headers could be encoded.
   */
  lemma {:induction false} SilentIsLateOrMute(decode: Decoder, steps: seq<ConnectionSteps.Step>)
    requires ConnectionSteps.PoliteRun(decode, steps)
    ensures HeadsExact(ConnectionSteps.Run(decode, steps).manager, LateIds(decode, steps) + MuteIds(decode, steps))
  {
    if steps == [] {
    } else {
      var front, s := steps[..|steps| - 1], steps[|steps| - 1];
      var w, silent := ConnectionSteps.Run(decode, front), LateIds(decode, front) + MuteIds(decode, front);
      SilentIsLateOrMute(decode, front);
      RunConsistent(decode, front);
      RunPlaced(decode, front);
      SilentGrows(decode, steps);
      if s.OpenRequest? && s.i < |w.pool.granted| {
        OpenedHeads(w, s.i, s.block, s.body, silent);
      } else {
        OtherHeads(decode, w, s, silent);
      }
    }
  }

  lemma {:induction false} LateIsNotMute(decode: Decoder, steps: seq<ConnectionSteps.Step>, id: int)
    requires ConnectionSteps.PoliteRun(decode, steps) && id in MuteIds(decode, steps)
    ensures id !in LateIds(decode, steps)
  {
    var front := steps[..|steps| - 1];
    SlotlessAreLate(decode, front);
    SilentIsLateOrMute(decode, front);
    if id !in MuteIds(decode, front) {
      assert id == ConnectionSteps.Run(decode, front).manager.nextId;
    } else {
      LateIsNotMute(decode, front, id);
    }
  }

  /** So a slot is held by a stream of which the peer never heard exactly by the streams of mute requests. */
  lemma MuteHoldsItsSlot(decode: Decoder, steps: seq<ConnectionSteps.Step>, id: int)
    requires ConnectionSteps.PoliteRun(decode, steps)
    ensures var w := ConnectionSteps.Run(decode, steps);
            id in w.manager.streams && Odd(id) ==>
              (id in w.pool.active && !HasHead(w.manager.log, id) <==> id in MuteIds(decode, steps))
  {
    SlotlessAreLate(decode, steps);
    SilentIsLateOrMute(decode, steps);
    if id in MuteIds(decode, steps) {
      LateIsNotMute(decode, steps, id);
    }
  }

  /** Requests one after the other, none of which can be encoded. */
  function MuteRequests(n: nat): seq<ConnectionSteps.Step> {
    if n == 0 then [] else MuteRequests(n - 1) + [StartRequest(n - 1)] + [OpenRequest(0, None, [])]
  }

  /** Nothing was ever sent, and n slots are taken. */
  ghost predicate IsMute(w: World, n: nat) {
    && w.pool == Pool(w.pool.active, [], [], [], false, false, DEFAULT_MAX_CONCURRENT_STREAMS) && |w.pool.active| == n
    && (forall id :: id in w.pool.active ==> id < w.manager.nextId)
    && (forall k :: 0 <= k < |w.manager.log| ==> !w.manager.log[k].Sent?)
  }

  lemma OneMoreMute(decode: Decoder, w: World, n: nat)
    requires IsMute(w, n) && n < DEFAULT_MAX_CONCURRENT_STREAMS
    ensures IsMute(Next(decode, Next(decode, w, StartRequest(n)), OpenRequest(0, None, [])), n + 1)
  {
    var v := Next(decode, w, StartRequest(n));
    assert v == w.(pool := w.pool.(granted := [n]));
    assert Remove([n], 0) == [];
  }

  lemma {:induction false} MuteRun(decode: Decoder, n: nat)
    requires n <= DEFAULT_MAX_CONCURRENT_STREAMS
    ensures IsMute(ConnectionSteps.Run(decode, MuteRequests(n)), n)
  {
    if n == 0 {
      assert ConnectionSteps.Run(decode, []) == START_OF_WORLD;
    } else {
      var before := MuteRequests(n - 1);
      MuteRun(decode, n - 1);
      RunOneMore(decode, before, StartRequest(n - 1));
      RunOneMore(decode, before + [StartRequest(n - 1)], OpenRequest(0, None, []));
      OneMoreMute(decode, ConnectionSteps.Run(decode, before), n - 1);
    }
  }

  /** A hundred such requests park every later one, though nothing was ever sent that the peer could answer. */
  lemma HundredMuteRequestsPark(decode: Decoder, request: nat)
    ensures var w := ConnectionSteps.Run(decode, MuteRequests(100) + [StartRequest(request)]);
            w.pool.waiters == [request] && forall k :: 0 <= k < |w.manager.log| ==> !w.manager.log[k].Sent?
  {
    MuteRun(decode, 100);
    RunOneMore(decode, MuteRequests(100), StartRequest(request));
  }
}
