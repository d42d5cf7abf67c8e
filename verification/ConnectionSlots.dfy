/** The connection runs the slot pool, so what holds of runs of the pool holds of the connection. */
module ConnectionSlots {
  import opened Bits
  import opened Results
  import opened PrefixInteger
  import opened Frames
  import opened SettingsEntries
  import opened StreamTypes
  import opened StreamSteps
  import opened StreamProtocol
  import opened StreamReactions
  import opened StreamInvariant
  import opened SlotPool
  import opened ConnectionSteps
  import StreamLaws
  import StreamRuns

  // ----- the connection as a run of the pool -----

  /** What the events of the manager are to the pool. */
  function PoolEvents(events: seq<Event>): seq<SlotPool.Step> {
    if events == [] then []
    else
      PoolEvents(events[..|events| - 1]) +
      match events[|events| - 1]
      case StreamClosed(id, _) => [StreamGone(id)]
      case GoawayIn(_, _, _) => [StartClosing]
      case _ => []
  }

  function HeardSteps(w: World, m: Manager): seq<SlotPool.Step>
    requires w.manager.log <= m.log
  {
    PoolEvents(m.log[|w.manager.log|..]) + [NewLimit(m.maxConcurrent)]
  }

  function TornDownSteps(w: World, cause: Cause): seq<SlotPool.Step> {
    if w.pool.closed then []
    else
      [StartClosing] + (HeardSteps(w, AbortedManager(w.manager, cause)) + [Shutdown])
  }

  /** What one step of the connection is to the pool. */
  function PoolSteps(decode: Decoder, w: World, s: ConnectionSteps.Step): seq<SlotPool.Step> {
    match s
    case StartRequest(request) => [Start(request)]
    case ResumeRequest(i) => [Resume(i)]
    case OpenRequest(i, _, _) => if i < |w.pool.granted| then [SlotPool.OpenStream(i, w.manager.nextId)] else []
    case Receive(f) =>
      DispatchReacts(decode, w.manager, f);
      var o := AfterDispatch(decode, w.manager, f);
      HeardSteps(w, o.manager) +
      if o.thrown.Some? then TornDownSteps(Heard(w, o.manager), HeaderFailure(o.thrown.value)) else []
    case Fail(cause) => TornDownSteps(w, cause)
    case SendGoaway(_, _, _) => [StartClosing]
    case Close => TornDownSteps(WithSent(w, Goaway(0, 0, 0, 0, [])), ConnectionClosed)
    case AwaitSettingsAck => []
    case SettingsAckTimeout(_) => []
  }

  lemma {:induction false} FromInTwo(p: Pool, a: seq<SlotPool.Step>, b: seq<SlotPool.Step>)
    ensures RunFrom(p, a + b) == RunFrom(RunFrom(p, a), b)
    decreases |a|
  {
    if a == [] {
      assert a + b == b;
    } else {
      assert (a + b)[1..] == a[1..] + b;
      FromInTwo(SlotPool.After(p, a[0]), a[1..], b);
    }
  }

  lemma FromOne(p: Pool, s: SlotPool.Step)
    ensures RunFrom(p, [s]) == SlotPool.After(p, s)
  {
    assert [s][1..] == [];
  }

  lemma {:induction false} NotifiedIsRun(p: Pool, events: seq<Event>)
    ensures Notified(p, events) == RunFrom(p, PoolEvents(events))
  {
    if events == [] {
    } else {
      var front, e := events[..|events| - 1], events[|events| - 1];
      NotifiedIsRun(p, front);
      FromInTwo(p, PoolEvents(front), if e.StreamClosed? then [StreamGone(e.id)] else [StartClosing]);
      FromOne(Notified(p, front), if e.StreamClosed? then StreamGone(e.id) else StartClosing);
      assert PoolEvents(front) + [] == PoolEvents(front);
    }
  }

  lemma HeardIsRun(w: World, m: Manager)
    requires w.manager.log <= m.log
    ensures Heard(w, m).pool == RunFrom(w.pool, HeardSteps(w, m))
  {
    var events := m.log[|w.manager.log|..];
    NotifiedIsRun(w.pool, events);
    FromInTwo(w.pool, PoolEvents(events), [NewLimit(m.maxConcurrent)]);
    FromOne(Notified(w.pool, events), NewLimit(m.maxConcurrent));
  }

  /** Events neither close the pool nor end its closing. */
  lemma {:induction false} NotifiedStays(p: Pool, events: seq<Event>)
    ensures var r := Notified(p, events); r.closed == p.closed && (p.closing ==> r.closing)
  {
    if events == [] {
    } else {
      NotifiedStays(p, events[..|events| - 1]);
    }
  }

  lemma TornDownIsRun(w: World, cause: Cause)
    ensures TornDown(w, cause).pool == RunFrom(w.pool, TornDownSteps(w, cause))
  {
    if !w.pool.closed {
      var start := w.(pool := w.pool.(closing := true));
      var m := AbortedManager(w.manager, cause);
      var heard := HeardSteps(start, m);
      HeardIsRun(start, m);
      NotifiedStays(start.pool, m.log[|w.manager.log|..]);
      FromOne(w.pool, StartClosing);
      FromInTwo(w.pool, [StartClosing], heard + [Shutdown]);
      FromInTwo(start.pool, heard, [Shutdown]);
      FromOne(Heard(start, m).pool, Shutdown);
    }
  }

  lemma ReceivedIsPoolRun(decode: Decoder, w: World, f: Frame)
    ensures Received(decode, w, f).pool == RunFrom(w.pool, PoolSteps(decode, w, Receive(f)))
  {
    DispatchReacts(decode, w.manager, f);
    var o := AfterDispatch(decode, w.manager, f);
    var steps, heard := HeardSteps(w, o.manager), Heard(w, o.manager);
    HeardIsRun(w, o.manager);
    if o.thrown.Some? {
      var cause := HeaderFailure(o.thrown.value);
      TornDownIsRun(Broken(heard, cause), cause);
      FromInTwo(w.pool, steps, TornDownSteps(heard, cause));
    } else {
      assert steps + [] == steps;
    }
  }

  /** Every step of the connection, the listeners included, is a run of steps of the pool. */
  lemma NextIsPoolRun(decode: Decoder, w: World, s: ConnectionSteps.Step)
    ensures Next(decode, w, s).pool == RunFrom(w.pool, PoolSteps(decode, w, s))
  {
    match s
    case StartRequest(request) => FromOne(w.pool, Start(request));
    case ResumeRequest(i) => FromOne(w.pool, Resume(i));
    case OpenRequest(i, _, _) => FromOne(w.pool, SlotPool.OpenStream(i, w.manager.nextId));
    case Receive(f) => ReceivedIsPoolRun(decode, w, f);
    case Fail(cause) => TornDownIsRun(Broken(w, cause), cause);
    case SendGoaway(_, _, _) => FromOne(w.pool, StartClosing);
    case Close => TornDownIsRun(WithSent(w, Goaway(0, 0, 0, 0, [])), ConnectionClosed);
    case _ =>
  }

  function AllPoolSteps(decode: Decoder, steps: seq<ConnectionSteps.Step>): seq<SlotPool.Step> {
    if steps == [] then []
    else
      var front := steps[..|steps| - 1];
      AllPoolSteps(decode, front) + PoolSteps(decode, ConnectionSteps.Run(decode, front), steps[|steps| - 1])
  }

  lemma {:induction false} FromRun(steps: seq<SlotPool.Step>, p: Pool, more: seq<SlotPool.Step>,
                                   all: seq<SlotPool.Step>)
    requires p == SlotPool.Run(steps) && all == steps + more
    ensures RunFrom(p, more) == SlotPool.Run(all)
    decreases |more|
  {
    if more == [] {
      assert steps == all;
    } else {
      RunMore(steps, more[0]);
      assert all == steps + [more[0]] + more[1..];
      FromRun(steps + [more[0]], SlotPool.After(p, more[0]), more[1..], all);
    }
  }

  /** The pool of the connection is always that of a run of the pool alone. */
  lemma {:induction false} PoolIsRun(decode: Decoder, steps: seq<ConnectionSteps.Step>)
    ensures ConnectionSteps.Run(decode, steps).pool == SlotPool.Run(AllPoolSteps(decode, steps))
  {
    if steps == [] {
    } else {
      var front, s := steps[..|steps| - 1], steps[|steps| - 1];
      var w := ConnectionSteps.Run(decode, front);
      PoolIsRun(decode, front);
      NextIsPoolRun(decode, w, s);
      FromRun(AllPoolSteps(decode, front), w.pool, PoolSteps(decode, w, s), AllPoolSteps(decode, steps));
    }
  }

  /**
   * After any interleaving: every slot in use belongs to a live stream, the manager's
   * invariant holds, and if the peer never set the limit below one, no wakeup is lost.
   */
  lemma ConnectionSafe(decode: Decoder, steps: seq<ConnectionSteps.Step>)
    requires ConnectionSteps.PoliteRun(decode, steps)
    ensures var w, low := ConnectionSteps.Run(decode, steps), LowestLimit(AllPoolSteps(decode, steps));
            && Consistent(w) && Used(w.pool, low) && (low >= 1 ==> !Lost(w.pool))
  {
    RunConsistent(decode, steps);
    PoolIsRun(decode, steps);
    SlotsAreUsed(AllPoolSteps(decode, steps));
  }

  /** Over any run of the connection waiting requests are served in order, and none is lost or doubled. */
  lemma ConnectionServesInOrder(decode: Decoder, steps: seq<ConnectionSteps.Step>)
    ensures var p, all := ConnectionSteps.Run(decode, steps).pool, AllPoolSteps(decode, steps);
            && AllWoken(all) + p.waiters == AllParked(all)
            && InPool(p) + AllDone(all) == AllEntered(all)
  {
    PoolIsRun(decode, steps);
    ServedInOrder(AllPoolSteps(decode, steps));
    RequestsAreKept(AllPoolSteps(decode, steps));
  }

  /** A closed connection has nobody parked, and nobody parks again. */
  lemma NobodyParksAgain(decode: Decoder, steps: seq<ConnectionSteps.Step>)
    ensures var p := ConnectionSteps.Run(decode, steps).pool; p.closed ==> p.waiters == []
  {
    PoolIsRun(decode, steps);
    NobodyParkedWhenClosed(AllPoolSteps(decode, steps));
  }

  // ----- the limit -----

  /** The limit that a frame from the peer puts in force. */
  function LimitBy(m: Manager, f: Frame): int {
    if f.SettingsFrame? && !f.ack && 3 in f.settings then f.settings[3] else m.maxConcurrent
  }

  lemma {:induction false} RejectingLimit(m: Manager, ids: seq<int>, last: Option<int>, err: StreamError)
    ensures RejectAbove(m, ids, last, err).maxConcurrent == m.maxConcurrent
    decreases |ids|
  {
    if ids == [] {
    } else {
      var due := ids[0] in m.streams && (last.None? || ids[0] > last.value);
      RejectingLimit(if due then Reject(m, ids[0], err) else m, ids[1..], last, err);
    }
  }

  lemma DispatchLimit(decode: Decoder, m: Manager, f: Frame)
    ensures AfterDispatch(decode, m, f).manager.maxConcurrent == LimitBy(m, f)
  {
    match f
    case SettingsFrame(_, _, ack, settings, _, _) => StreamRuns.SettingsInForce(m, settings);
    case WindowUpdate(_, id, increment) =>
      if id == 0 {
        StreamRuns.DrainedFromSettings(CreditConnection(m, increment), 0);
      } else if id in m.streams {
        StreamRuns.DrainedSettings(CreditStream(m, id, increment), id);
      }
    case Goaway(_, _, last, errorCode, debugData) =>
      RejectingLimit(Log(m, [GoawayIn(last, errorCode, debugData)]), m.order, Some(last),
                     GoawayError(last, errorCode, debugData));
    case _ =>
  }

  lemma {:induction false} NothingHeard(p: Pool, events: seq<Event>)
    requires forall k :: 0 <= k < |events| ==> ClosesNothing(events[k])
    ensures Notified(p, events) == p
  {
    if events == [] {
    } else {
      assert ClosesNothing(events[|events| - 1]);
      NothingHeard(p, events[..|events| - 1]);
    }
  }

  /** All that SETTINGS does to the pool is to put its limit in force. */
  lemma SettingsLimit(decode: Decoder, w: World, f: Frame)
    requires f.SettingsFrame?
    ensures Received(decode, w, f).pool == w.pool.(limit := LimitBy(w.manager, f))
  {
    var m := AfterDispatch(decode, w.manager, f).manager;
    DispatchReacts(decode, w.manager, f);
    DispatchLimit(decode, w.manager, f);
    if !f.ack {
      SettingsKeepOpen(w.manager, NaturalEntries(f.settings));
    }
    NothingHeard(w.pool, m.log[|w.manager.log|..]);
  }

  lemma {:induction false} NotifiedUsed(p: Pool, events: seq<Event>, low: int)
    requires Used(p, low)
    ensures Used(Notified(p, events), low)
  {
    if events == [] {
    } else {
      var front, e := events[..|events| - 1], events[|events| - 1];
      NotifiedUsed(p, front, low);
      if e.StreamClosed? {
        StaysUsed(Notified(p, front), StreamGone(e.id), low);
      }
    }
  }

  /** Events give slots up and take none. */
  lemma {:induction false} NotifiedTakesNone(p: Pool, events: seq<Event>)
    ensures var r := Notified(p, events); r.active <= p.active && r.granted == p.granted && |r.active| <= |p.active|
  {
    if events == [] {
    } else {
      var front, e := events[..|events| - 1], events[|events| - 1];
      NotifiedTakesNone(p, front);
      if e.StreamClosed? && e.id in Notified(p, front).active {
        RemoveOne(Notified(p, front).active, e.id);
      }
    }
  }

  /** What a frame other than SETTINGS leaves as it was, and what it does not use up. */
  ghost predicate GivesUp(p: Pool, r: Pool) {
    && r.limit == p.limit && |r.active| <= |p.active| && |r.granted| <= |p.granted|
    && (Used(p, p.limit) ==> Used(r, p.limit))
  }

  lemma HeardGivesUp(w: World, m: Manager)
    requires w.manager.log <= m.log && m.maxConcurrent == w.pool.limit
    ensures GivesUp(w.pool, Heard(w, m).pool)
  {
    var events := m.log[|w.manager.log|..];
    NotifiedTakesNone(w.pool, events);
    if Used(w.pool, w.pool.limit) {
      NotifiedUsed(w.pool, events, w.pool.limit);
    }
  }

  lemma TornDownGivesUp(w: World, cause: Cause)
    requires w.pool.limit == w.manager.maxConcurrent
    ensures GivesUp(w.pool, TornDown(w, cause).pool)
  {
    if !w.pool.closed {
      RejectingLimit(w.manager, w.manager.order, None, Aborted(cause));
      NotifiedTakesNone(w.pool.(closing := true), AbortedManager(w.manager, cause).log[|w.manager.log|..]);
    }
  }

  lemma ReceivedGivesUp(decode: Decoder, w: World, f: Frame)
    requires w.pool.limit == w.manager.maxConcurrent && !f.SettingsFrame?
    ensures GivesUp(w.pool, Received(decode, w, f).pool)
  {
    DispatchReacts(decode, w.manager, f);
    DispatchLimit(decode, w.manager, f);
    var o := AfterDispatch(decode, w.manager, f);
    HeardGivesUp(w, o.manager);
    if o.thrown.Some? {
      var cause := HeaderFailure(o.thrown.value);
      TornDownGivesUp(Broken(Heard(w, o.manager), cause), cause);
    }
  }

  /** Steps other than those of requests and SETTINGS. */
  lemma OthersGiveUp(decode: Decoder, w: World, s: ConnectionSteps.Step)
    requires w.pool.limit == w.manager.maxConcurrent
    requires !s.StartRequest? && !s.ResumeRequest? && !s.OpenRequest? && !(s.Receive? && s.frame.SettingsFrame?)
    ensures GivesUp(w.pool, Next(decode, w, s).pool)
  {
    match s
    case Receive(f) => ReceivedGivesUp(decode, w, f);
    case Fail(cause) => TornDownGivesUp(Broken(w, cause), cause);
    case Close => TornDownGivesUp(WithSent(w, Goaway(0, 0, 0, 0, [])), ConnectionClosed);
    case _ =>
  }

  // ----- is every slot used while somebody waits? -----

  /** SETTINGS raises the limit above the slots in use while requests wait. */
  predicate RaisesOverWaiting(w: World, s: ConnectionSteps.Step) {
    s.Receive? && s.frame.SettingsFrame? && w.pool.waiters != [] && InUse(w.pool) < LimitBy(w.manager, s.frame)
  }

  /** That is the only step of the connection that leaves slots unused while requests wait. */
  lemma UsedByConnectionExactly(decode: Decoder, w: World, s: ConnectionSteps.Step)
    requires w.pool.limit == w.manager.maxConcurrent && Used(w.pool, w.pool.limit)
    ensures var r := Next(decode, w, s).pool; Used(r, r.limit) <==> !RaisesOverWaiting(w, s)
  {
    match s
    case StartRequest(request) => StaysUsed(w.pool, Start(request), w.pool.limit);
    case ResumeRequest(i) => StaysUsed(w.pool, Resume(i), w.pool.limit);
    case OpenRequest(i, _, _) => StaysUsed(w.pool, SlotPool.OpenStream(i, w.manager.nextId), w.pool.limit);
    case Receive(f) =>
      if f.SettingsFrame? {
        SettingsLimit(decode, w, f);
      } else {
        OthersGiveUp(decode, w, s);
      }
    case _ => OthersGiveUp(decode, w, s);
  }

  // ----- is the limit kept? -----

  /** A request opens its stream when all slots are taken, or SETTINGS drops the limit below the open streams. */
  predicate PassesLimit(w: World, s: ConnectionSteps.Step) {
    match s
    case OpenRequest(i, _, _) => i < |w.pool.granted| && !TooLate(w) && |w.pool.active| == w.pool.limit
    case Receive(f) => f.SettingsFrame? && LimitBy(w.manager, f) < |w.pool.active|
    case _ => false
  }

  lemma LimitPassedByConnectionExactly(decode: Decoder, w: World, s: ConnectionSteps.Step)
    requires Consistent(w) && |w.pool.active| <= w.pool.limit
    ensures var r := Next(decode, w, s).pool; |r.active| <= r.limit <==> !PassesLimit(w, s)
  {
    match s
    case StartRequest(request) =>
    case ResumeRequest(i) =>
    case OpenRequest(i, block, body) =>
      if i < |w.pool.granted| {
        OpenedSlots(w, i, block, body);
      }
    case Receive(f) =>
      if f.SettingsFrame? {
        SettingsLimit(decode, w, f);
      } else {
        OthersGiveUp(decode, w, s);
      }
    case _ => OthersGiveUp(decode, w, s);
  }

  /**
   * A request looks for a slot when the last are promised already, and finds one all the same; or
   * SETTINGS drops the limit below what is taken and promised.
   */
  predicate OvercommitsBy(w: World, s: ConnectionSteps.Step) {
    var taken := |w.pool.active| + |w.pool.granted|;
    match s
    case StartRequest(_) => !TooLate(w) && !MustPark(w.pool) && taken == w.pool.limit
    case ResumeRequest(i) => i < |w.pool.woken| && !MustPark(w.pool) && taken == w.pool.limit
    case Receive(f) => f.SettingsFrame? && LimitBy(w.manager, f) < taken
    case _ => false
  }

  lemma ReservedByConnectionExactly(decode: Decoder, w: World, s: ConnectionSteps.Step)
    requires w.pool.limit == w.manager.maxConcurrent && Reserved(w.pool)
    ensures Reserved(Next(decode, w, s).pool) <==> !OvercommitsBy(w, s)
  {
    match s
    case StartRequest(request) => ReservedExactly(w.pool, Start(request));
    case ResumeRequest(i) => ReservedExactly(w.pool, Resume(i));
    case OpenRequest(i, _, _) => ReservedExactly(w.pool, SlotPool.OpenStream(i, w.manager.nextId));
    case Receive(f) =>
      if f.SettingsFrame? {
        SettingsLimit(decode, w, f);
      } else {
        OthersGiveUp(decode, w, s);
      }
    case _ => OthersGiveUp(decode, w, s);
  }

  // ----- the same over whole runs -----

  lemma LimitInForce(decode: Decoder, steps: seq<ConnectionSteps.Step>)
    requires ConnectionSteps.PoliteRun(decode, steps)
    ensures var w := ConnectionSteps.Run(decode, steps); w.pool.limit == w.manager.maxConcurrent
  {
    RunConsistent(decode, steps);
  }

  ghost predicate AlwaysInUse(decode: Decoder, steps: seq<ConnectionSteps.Step>) {
    var p := ConnectionSteps.Run(decode, steps).pool;
    Used(p, p.limit) && (steps == [] || AlwaysInUse(decode, steps[..|steps| - 1]))
  }

  ghost predicate NeverRaisesOverWaiting(decode: Decoder, steps: seq<ConnectionSteps.Step>) {
    steps == [] ||
    var front := steps[..|steps| - 1];
    NeverRaisesOverWaiting(decode, front) && !RaisesOverWaiting(ConnectionSteps.Run(decode, front), steps[|steps| - 1])
  }

  lemma InUseNow(decode: Decoder, steps: seq<ConnectionSteps.Step>)
    requires AlwaysInUse(decode, steps)
    ensures var p := ConnectionSteps.Run(decode, steps).pool; Used(p, p.limit)
  {
  }

  /**
   * In a whole run every slot is in use whenever a request waits, exactly if SETTINGS never raises the
   * limit over waiting requests.
   */
  lemma {:induction false} AlwaysInUseExactly(decode: Decoder, steps: seq<ConnectionSteps.Step>)
    requires ConnectionSteps.PoliteRun(decode, steps)
    ensures AlwaysInUse(decode, steps) <==> NeverRaisesOverWaiting(decode, steps)
  {
    if steps == [] {
      assert Used(ConnectionSteps.Run(decode, steps).pool, DEFAULT_MAX_CONCURRENT_STREAMS);
    } else {
      var front, s := steps[..|steps| - 1], steps[|steps| - 1];
      AlwaysInUseExactly(decode, front);
      if AlwaysInUse(decode, front) {
        LimitInForce(decode, front);
        InUseNow(decode, front);
        UsedByConnectionExactly(decode, ConnectionSteps.Run(decode, front), s);
      }
    }
  }

  ghost predicate AlwaysWithin(decode: Decoder, steps: seq<ConnectionSteps.Step>) {
    Reserved(ConnectionSteps.Run(decode, steps).pool) && (steps == [] || AlwaysWithin(decode, steps[..|steps| - 1]))
  }

  ghost predicate NeverOvercommitsBy(decode: Decoder, steps: seq<ConnectionSteps.Step>) {
    steps == [] ||
    var front := steps[..|steps| - 1];
    NeverOvercommitsBy(decode, front) && !OvercommitsBy(ConnectionSteps.Run(decode, front), steps[|steps| - 1])
  }

  lemma WithinNow(decode: Decoder, steps: seq<ConnectionSteps.Step>)
    requires AlwaysWithin(decode, steps)
    ensures var p := ConnectionSteps.Run(decode, steps).pool; Reserved(p) && |p.active| <= p.limit
  {
  }

  /** In a whole run the slots taken and promised stay within the limit exactly if no step overcommits. */
  lemma {:induction false} AlwaysWithinExactly(decode: Decoder, steps: seq<ConnectionSteps.Step>)
    requires ConnectionSteps.PoliteRun(decode, steps)
    ensures AlwaysWithin(decode, steps) <==> NeverOvercommitsBy(decode, steps)
    ensures var p := ConnectionSteps.Run(decode, steps).pool;
            NeverOvercommitsBy(decode, steps) ==> |p.active| <= p.limit
  {
    if steps == [] {
      assert Reserved(ConnectionSteps.Run(decode, steps).pool);
    } else {
      var front, s := steps[..|steps| - 1], steps[|steps| - 1];
      AlwaysWithinExactly(decode, front);
      if AlwaysWithin(decode, front) {
        LimitInForce(decode, front);
        WithinNow(decode, front);
        ReservedByConnectionExactly(decode, ConnectionSteps.Run(decode, front), s);
      }
    }
  }
}
