/** The waits for the acknowledgement of our SETTINGS over whole runs of the connection. */
module ConnectionWaits {
  import opened Bits
  import opened Results
  import opened PrefixInteger
  import opened Frames
  import opened SettingsEntries
  import opened StreamTypes
  import opened StreamSteps
  import opened StreamReactions
  import opened ConnectionSteps
  import SettingsWait

  lemma {:induction false} AbortAcksNothing(waits: SettingsWait.Waits, events: seq<Event>)
    requires forall k :: 0 <= k < |events| ==> !events[k].SettingsAcked?
    ensures Acked(waits, events) == waits
  {
    if events == [] {
    } else {
      AbortAcksNothing(waits, events[..|events| - 1]);
    }
  }

  lemma {:induction false} RejectingAcksNothing(m: Manager, ids: seq<int>, last: Option<int>, err: StreamError)
    ensures var r := RejectAbove(m, ids, last, err);
            m.log <= r.log && forall k :: |m.log| <= k < |r.log| ==> !r.log[k].SettingsAcked?
    decreases |ids|
  {
    if ids == [] {
    } else {
      var due := ids[0] in m.streams && (last.None? || ids[0] > last.value);
      var n := if due then Reject(m, ids[0], err) else m;
      assert m.log <= n.log && forall k :: |m.log| <= k < |n.log| ==> !n.log[k].SettingsAcked?;
      RejectingAcksNothing(n, ids[1..], last, err);
    }
  }

  lemma TornDownWaits(w: World, cause: Cause)
    ensures TornDown(w, cause).waits == w.waits
  {
    if !w.pool.closed {
      RejectingAcksNothing(w.manager, w.manager.order, None, Aborted(cause));
      var events := AbortedManager(w.manager, cause).log[|w.manager.log|..];
      AbortAcksNothing(w.waits, events);
    }
  }

  /**
   * Closing leaves a pending wait to its timer; a fatal error settles it, with its cause, exactly if the
   * connection is not closed yet and the wait is the one to break.
   */
  lemma WaitsWhenClosing(w: World, cause: Cause, i: nat)
    requires SettingsWait.Sound(w.waits) && SettingsWait.IsPending(w.waits, i)
    ensures SettingsWait.IsPending(AfterClose(w).waits, i)
    ensures var r := Failed(w, cause).waits;
            if !w.pool.closed && w.waits.breaks == Some(i)
            then i < |r.all| && r.all[i].outcome == Some(SettingsWait.Outcome.Broken(cause))
            else SettingsWait.IsPending(r, i)
  {
    TornDownWaits(WithSent(w, Goaway(0, 0, 0, 0, [])), ConnectionClosed);
    TornDownWaits(Broken(w, cause), cause);
    SettingsWait.SettledExactly(w.waits, SettingsWait.Break(cause), i);
  }

  function Acks(events: seq<Event>): seq<SettingsWait.Step> {
    if events == [] then []
    else Acks(events[..|events| - 1]) + if events[|events| - 1].SettingsAcked? then [SettingsWait.Acknowledge] else []
  }

  /** What one step of the connection is to the waits. */
  function WaitStepsOf(decode: Decoder, w: World, s: Step): seq<SettingsWait.Step> {
    match s
    case Receive(f) =>
      DispatchReacts(decode, w.manager, f);
      var o := AfterDispatch(decode, w.manager, f);
      Acks(o.manager.log[|w.manager.log|..]) +
      if o.thrown.Some? && !Heard(w, o.manager).pool.closed
      then [SettingsWait.Break(HeaderFailure(o.thrown.value))] else []
    case Fail(cause) => if w.pool.closed then [] else [SettingsWait.Break(cause)]
    case AwaitSettingsAck => [SettingsWait.Begin]
    case SettingsAckTimeout(i) => [SettingsWait.TimeOut(i)]
    case _ => []
  }

  lemma {:induction false} DrainedAcksNothing(m: Manager, id: int)
    requires id in m.streams
    ensures var r := Drained(m, id); m.log <= r.log && forall k :: |m.log| <= k < |r.log| ==> !r.log[k].SettingsAcked?
    decreases |m.streams[id].sendQueue|
  {
    var queue := m.streams[id].sendQueue;
    if queue == [] || Cap(m, id) <= 0 {
    } else {
      DrainedAcksNothing(SendChunk(m, id, Min(Cap(m, id), |queue|)), id);
    }
  }

  lemma {:induction false} DrainedFromAcksNothing(m: Manager, i: nat)
    requires i <= |m.order|
    ensures var r := DrainedFrom(m, i);
            m.log <= r.log && forall k :: |m.log| <= k < |r.log| ==> !r.log[k].SettingsAcked?
    decreases |m.order| - i
  {
    if i == |m.order| {
    } else {
      if m.order[i] in m.streams {
        DrainedAcksNothing(m, m.order[i]);
      }
      DrainedFromAcksNothing(if m.order[i] in m.streams then Drained(m, m.order[i]) else m, i + 1);
    }
  }

  lemma {:induction false} SettingsAckNothing(m: Manager, entries: seq<Setting>)
    ensures var r := AfterSettings(m, entries);
            m.log <= r.log && forall k :: |m.log| <= k < |r.log| ==> !r.log[k].SettingsAcked?
    decreases |entries|
  {
    if entries == [] {
    } else {
      if entries[0].id == 4 {
        DrainedFromAcksNothing(WithInitialWindow(m, entries[0].value), 0);
      }
      SettingsAckNothing(AfterSetting(m, entries[0]), entries[1..]);
    }
  }

  /** An acknowledgement from the peer settles every pending wait; SETTINGS of its own settle none. */
  lemma AckSettlesAll(decode: Decoder, w: World, f: Frame, i: nat)
    requires f.SettingsFrame? && SettingsWait.Sound(w.waits) && SettingsWait.IsPending(w.waits, i)
    ensures var all := Received(decode, w, f).waits.all;
            i < |all| && all[i].outcome == if f.ack then Some(SettingsWait.Outcome.Acknowledged) else None
  {
    var m := AfterDispatch(decode, w.manager, f).manager;
    DispatchReacts(decode, w.manager, f);
    var events := m.log[|w.manager.log|..];
    if f.ack {
      assert events == [SettingsAcked] && events[..0] == [];
      assert Acked(w.waits, events[..0]) == w.waits;
      assert Acked(w.waits, events) == SettingsWait.After(w.waits, SettingsWait.Acknowledge);
      assert w.waits.all[i].listens;
      SettingsWait.SettledExactly(w.waits, SettingsWait.Acknowledge, i);
      SettingsWait.SettledAs(w.waits, SettingsWait.Acknowledge, i);
    } else {
      SettingsAckNothing(w.manager, NaturalEntries(f.settings));
      AbortAcksNothing(w.waits, events);
    }
  }

  function WaitSteps(decode: Decoder, steps: seq<Step>): seq<SettingsWait.Step> {
    if steps == [] then []
    else
      var front, s := steps[..|steps| - 1], steps[|steps| - 1];
      WaitSteps(decode, front) + WaitStepsOf(decode, Run(decode, front), s)
  }

  lemma {:induction false} AckedIsRun(steps: seq<SettingsWait.Step>, events: seq<Event>)
    ensures Acked(SettingsWait.Run(steps), events) == SettingsWait.Run(steps + Acks(events))
  {
    if events == [] {
      assert steps + Acks(events) == steps;
    } else {
      var before := Acks(events[..|events| - 1]);
      AckedIsRun(steps, events[..|events| - 1]);
      SettingsWait.RunOneMore(steps + before, SettingsWait.Acknowledge);
      assert steps + (before + [SettingsWait.Acknowledge]) == steps + before + [SettingsWait.Acknowledge];
      assert steps + (before + []) == steps + before;
    }
  }

  lemma FailedWaits(w: World, cause: Cause)
    ensures Failed(w, cause).waits ==
            if w.pool.closed then w.waits else SettingsWait.After(w.waits, SettingsWait.Break(cause))
  {
    TornDownWaits(Broken(w, cause), cause);
  }

  lemma AckedThenBroken(before: seq<SettingsWait.Step>, acks: seq<SettingsWait.Step>, last: SettingsWait.Step)
    ensures SettingsWait.Run(before + (acks + [last])) == SettingsWait.After(SettingsWait.Run(before + acks), last)
    ensures SettingsWait.Run(before + (acks + [])) == SettingsWait.Run(before + acks)
  {
    SettingsWait.RunOneMore(before + acks, last);
    assert before + (acks + [last]) == before + acks + [last];
    assert acks + [] == acks;
  }

  lemma HeardWaits(w: World, m: Manager, before: seq<SettingsWait.Step>)
    requires w.manager.log <= m.log && w.waits == SettingsWait.Run(before)
    ensures Heard(w, m).waits == SettingsWait.Run(before + Acks(m.log[|w.manager.log|..]))
  {
    AckedIsRun(before, m.log[|w.manager.log|..]);
  }

  lemma ReceivedWaits(decode: Decoder, w: World, f: Frame, before: seq<SettingsWait.Step>)
    requires w.waits == SettingsWait.Run(before)
    ensures Received(decode, w, f).waits == SettingsWait.Run(before + WaitStepsOf(decode, w, Receive(f)))
  {
    var o := AfterDispatch(decode, w.manager, f);
    assert w.manager.log <= o.manager.log by {
      DispatchReacts(decode, w.manager, f);
    }
    var acks, heard := Acks(o.manager.log[|w.manager.log|..]), Heard(w, o.manager);
    HeardWaits(w, o.manager, before);
    var cause := if o.thrown.Some? then HeaderFailure(o.thrown.value) else TransportFailed;
    AckedThenBroken(before, acks, SettingsWait.Break(cause));
    if o.thrown.Some? {
      FailedWaits(heard, cause);
    }
  }

  lemma NextWaits(decode: Decoder, w: World, s: Step, before: seq<SettingsWait.Step>)
    requires w.waits == SettingsWait.Run(before)
    ensures Next(decode, w, s).waits == SettingsWait.Run(before + WaitStepsOf(decode, w, s))
  {
    match s
    case Receive(f) => ReceivedWaits(decode, w, f, before);
    case Fail(cause) =>
      FailedWaits(w, cause);
      SettingsWait.RunOneMore(before, SettingsWait.Break(cause));
      assert before + [] == before;
    case AwaitSettingsAck => SettingsWait.RunOneMore(before, SettingsWait.Begin);
    case SettingsAckTimeout(i) => SettingsWait.RunOneMore(before, SettingsWait.TimeOut(i));
    case Close =>
      TornDownWaits(WithSent(w, Goaway(0, 0, 0, 0, [])), ConnectionClosed);
      assert before + [] == before;
    case _ => assert before + [] == before;
  }

  /**
   * After any run, whatever the peer does, the last wait begun is the one that a fatal error breaks,
   * unless forgotten.
   */
  lemma {:induction false} RunWaits(decode: Decoder, steps: seq<Step>)
    ensures var w := Run(decode, steps).waits;
            && w == SettingsWait.Run(WaitSteps(decode, steps)) && SettingsWait.Sound(w)
            && SettingsWait.BreaksTheLast(w, SettingsWait.ForgottenBy(WaitSteps(decode, steps)))
  {
    if steps == [] {
    } else {
      var front, s := steps[..|steps| - 1], steps[|steps| - 1];
      RunWaits(decode, front);
      NextWaits(decode, Run(decode, front), s, WaitSteps(decode, front));
    }
    SettingsWait.RunSound(WaitSteps(decode, steps));
    SettingsWait.BreaksTheLastExactly(WaitSteps(decode, steps));
  }
}
