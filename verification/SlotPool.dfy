/**
 * The pool of concurrency slots (src/connection.ts:140-171, src/connection.ts:332-398), as steps
 * that run from one await to the next. Between them any other step may run.
 */
module SlotPool {
  import opened StreamTypes

  /**
   * Requests that wait for a slot, that were woken but did not look again yet, and that got a
   * slot but did not open their stream yet; and the streams that are open.
   */
  datatype Pool = Pool(active: set<int>, waiters: seq<nat>, woken: seq<nat>, granted: seq<nat>,
                       closing: bool, closed: bool, limit: int)

  const EMPTY_POOL: Pool := Pool({}, [], [], [], false, false, DEFAULT_MAX_CONCURRENT_STREAMS)

  function Remove(s: seq<nat>, i: nat): (r: seq<nat>)
    requires i < |s|
    ensures |r| == |s| - 1
  {
    s[..i] + s[i + 1..]
  }

  predicate MustPark(p: Pool) {
    !p.closing && !p.closed && |p.active| >= p.limit
  }

  /** The head of the loop in which a request looks for a slot. */
  function Look(p: Pool, request: nat): Pool {
    if MustPark(p) then p.(waiters := p.waiters + [request]) else p.(granted := p.granted + [request])
  }

  /** A slot that is given up wakes one request. */
  function Release(p: Pool): Pool {
    if p.waiters == [] then p else p.(waiters := p.waiters[1..], woken := p.woken + [p.waiters[0]])
  }

  function Gone(p: Pool, id: int): Pool {
    if id in p.active then Release(p.(active := p.active - {id})) else p
  }

  function WakeAll(p: Pool): Pool {
    p.(waiters := [], woken := p.woken + p.waiters)
  }

  datatype Step =
    | Start(request: nat)
    | Resume(i: nat)
    | OpenStream(i: nat, id: int)
    | StreamGone(id: int)
    | NewLimit(limit: int)
    | StartClosing
    | Shutdown

  /** A step that is not due changes nothing. */
  function After(p: Pool, s: Step): Pool {
    match s
    case Start(request) => if p.closing || p.closed then p else Look(p, request)
    case Resume(i) => if i < |p.woken| then Look(p.(woken := Remove(p.woken, i)), p.woken[i]) else p
    case OpenStream(i, id) =>
      if i < |p.granted| && id !in p.active then
        var q := p.(granted := Remove(p.granted, i));
        if p.closing || p.closed then Release(q) else q.(active := p.active + {id})
      else p
    case StreamGone(id) => Gone(p, id)
    case NewLimit(limit) => p.(limit := limit)
    case StartClosing => p.(closing := true)
    case Shutdown => if p.closed then p else WakeAll(p.(active := {}, closing := true)).(closed := true)
  }

  function Run(steps: seq<Step>): Pool {
    if steps == [] then EMPTY_POOL else After(Run(steps[..|steps| - 1]), steps[|steps| - 1])
  }

  /** Slots in use or on their way to a request. */
  function InUse(p: Pool): nat {
    |p.active| + |p.woken| + |p.granted|
  }

  /** The lowest limit that was ever in force. */
  function LowestLimit(steps: seq<Step>): int {
    if steps == [] then DEFAULT_MAX_CONCURRENT_STREAMS
    else
      var before, s := LowestLimit(steps[..|steps| - 1]), steps[|steps| - 1];
      if s.NewLimit? then Min(before, s.limit) else before
  }

  lemma RemoveOne(active: set<int>, id: int)
    requires id in active
    ensures |active - {id}| == |active| - 1
  {
    assert active == (active - {id}) + {id};
  }

  predicate Used(p: Pool, low: int) {
    low <= p.limit && (p.waiters != [] ==> InUse(p) >= low)
  }

  lemma StaysUsed(p: Pool, s: Step, low: int)
    requires Used(p, low)
    ensures Used(After(p, s), if s.NewLimit? then Min(low, s.limit) else low)
  {
    if s.StreamGone? && s.id in p.active {
      RemoveOne(p.active, s.id);
    }
  }

  /** While a request waits, as many slots as the lowest limit ever in force are in use or on their way. */
  lemma {:induction false} SlotsAreUsed(steps: seq<Step>)
    ensures Used(Run(steps), LowestLimit(steps))
  {
    if steps == [] {
    } else {
      SlotsAreUsed(steps[..|steps| - 1]);
      StaysUsed(Run(steps[..|steps| - 1]), steps[|steps| - 1], LowestLimit(steps[..|steps| - 1]));
    }
  }

  /** Somebody waits and nothing is left that could wake them. */
  predicate Lost(p: Pool) {
    p.waiters != [] && p.active == {} && p.woken == [] && p.granted == []
  }

  /** No wakeup is lost if the limit is never below one. */
  lemma NoLostWakeup(steps: seq<Step>)
    requires LowestLimit(steps) >= 1
    ensures !Lost(Run(steps))
  {
    SlotsAreUsed(steps);
  }

  /**
   * A wakeup is lost exactly by the step that parks a request when no stream is open and no other
   * request is under way.
   */
  lemma LostExactly(p: Pool, s: Step)
    requires !Lost(p)
    ensures Lost(After(p, s)) <==>
            MustPark(p) && p.active == {} && p.granted == [] &&
            ((s.Start? && p.woken == []) || (s.Resume? && s.i == 0 && |p.woken| == 1))
  {
    if s.StreamGone? && s.id in p.active {
      RemoveOne(p.active, s.id);
    }
    if s.OpenStream? {
      assert s.id in p.active + {s.id};
    }
  }

  /** With a limit of zero the first request parks for good. */
  lemma ZeroLoses()
    ensures Lost(After(After(EMPTY_POOL, NewLimit(0)), Start(0)))
  {
  }

  // ----- who is served -----

  /** A slot that is given up by a stream goes to those who wait in the order in which they wait. */
  lemma GoneServesFirst(p: Pool, id: int)
    requires id in p.active
    ensures var r := After(p, StreamGone(id));
            && r.active == p.active - {id} && p.woken <= r.woken && p.waiters == r.woken[|p.woken|..] + r.waiters
            && |r.woken| == |p.woken| + if p.waiters == [] then 0 else 1
  {
    if p.waiters != [] {
      assert p.waiters == [p.waiters[0]] + p.waiters[1..];
    }
  }

  /** The requests that a step makes wait. */
  function ParkedBy(p: Pool, s: Step): seq<nat> {
    match s
    case Start(request) => if MustPark(p) then [request] else []
    case Resume(i) => if i < |p.woken| && MustPark(p) then [p.woken[i]] else []
    case _ => []
  }

  /** The requests that a step wakes: all that are woken after it and were not before. */
  function WokenBy(p: Pool, s: Step): seq<nat> {
    var r := After(p, s);
    if s.Resume? || |r.woken| < |p.woken| then [] else r.woken[|p.woken|..]
  }

  function AllParked(steps: seq<Step>): seq<nat> {
    if steps == [] then []
    else AllParked(steps[..|steps| - 1]) + ParkedBy(Run(steps[..|steps| - 1]), steps[|steps| - 1])
  }

  function AllWoken(steps: seq<Step>): seq<nat> {
    if steps == [] then []
    else AllWoken(steps[..|steps| - 1]) + WokenBy(Run(steps[..|steps| - 1]), steps[|steps| - 1])
  }

  lemma WokenInOrder(p: Pool, s: Step)
    ensures var r := After(p, s); WokenBy(p, s) + r.waiters == p.waiters + ParkedBy(p, s)
    ensures !s.Resume? ==> p.woken <= After(p, s).woken
  {
    var r := After(p, s);
    if p.waiters != [] {
      assert p.waiters == [p.waiters[0]] + p.waiters[1..];
    }
    assert p.waiters + [] == p.waiters;
    match s
    case OpenStream(i, id) =>
    case StreamGone(id) =>
    case Shutdown => assert (p.woken + p.waiters)[|p.woken|..] == p.waiters;
    case _ =>
  }

  lemma Requeued(before: seq<nat>, queue: seq<nat>, all: seq<nat>, woken: seq<nat>, rest: seq<nat>, parked: seq<nat>)
    requires before + queue == all && woken + rest == queue + parked
    ensures before + woken + rest == all + parked
  {
    assert before + woken + rest == before + (woken + rest);
    assert before + (queue + parked) == before + queue + parked;
  }

  /**
   * Requests are woken in the order in which they began to wait: those woken so far and then those that
   * wait are all that ever began to.
   */
  lemma {:induction false} ServedInOrder(steps: seq<Step>)
    ensures AllWoken(steps) + Run(steps).waiters == AllParked(steps)
  {
    if steps == [] {
    } else {
      var front, s := steps[..|steps| - 1], steps[|steps| - 1];
      var p := Run(front);
      ServedInOrder(front);
      WokenInOrder(p, s);
      Requeued(AllWoken(front), p.waiters, AllParked(front), WokenBy(p, s), After(p, s).waiters, ParkedBy(p, s));
    }
  }

  /** The request that a step brings in, if it comes in time. */
  function EnteredBy(p: Pool, s: Step): multiset<nat> {
    if s.Start? && !p.closing && !p.closed then multiset{s.request} else multiset{}
  }

  /** The request that is done with the pool: its stream was opened, or it was too late. */
  function DoneBy(p: Pool, s: Step): multiset<nat> {
    if s.OpenStream? && s.i < |p.granted| && s.id !in p.active then multiset{p.granted[s.i]} else multiset{}
  }

  function AllEntered(steps: seq<Step>): multiset<nat> {
    if steps == [] then multiset{}
    else AllEntered(steps[..|steps| - 1]) + EnteredBy(Run(steps[..|steps| - 1]), steps[|steps| - 1])
  }

  function AllDone(steps: seq<Step>): multiset<nat> {
    if steps == [] then multiset{}
    else AllDone(steps[..|steps| - 1]) + DoneBy(Run(steps[..|steps| - 1]), steps[|steps| - 1])
  }

  function InPool(p: Pool): multiset<nat> {
    multiset(p.waiters) + multiset(p.woken) + multiset(p.granted)
  }

  lemma RemovedOne(s: seq<nat>, i: nat)
    requires i < |s|
    ensures multiset(s) == multiset(Remove(s, i)) + multiset{s[i]}
  {
    assert s == s[..i] + [s[i]] + s[i + 1..];
  }

  lemma LookKeepsRequests(p: Pool, request: nat)
    ensures InPool(Look(p, request)) == InPool(p) + multiset{request}
  {
  }

  lemma ReleaseKeepsRequests(p: Pool)
    ensures InPool(Release(p)) == InPool(p) && Release(p).granted == p.granted
  {
    if p.waiters != [] {
      assert p.waiters == [p.waiters[0]] + p.waiters[1..];
    }
  }

  lemma ResumeKeepsRequests(p: Pool, i: nat)
    ensures InPool(After(p, Resume(i))) == InPool(p)
  {
    if i < |p.woken| {
      RemovedOne(p.woken, i);
      LookKeepsRequests(p.(woken := Remove(p.woken, i)), p.woken[i]);
    }
  }

  lemma OpenKeepsRequests(p: Pool, i: nat, id: int)
    ensures InPool(After(p, OpenStream(i, id))) + DoneBy(p, OpenStream(i, id)) == InPool(p)
  {
    if i < |p.granted| && id !in p.active {
      RemovedOne(p.granted, i);
      ReleaseKeepsRequests(p.(granted := Remove(p.granted, i)));
    }
  }

  lemma StepKeepsRequests(p: Pool, s: Step)
    ensures InPool(After(p, s)) + DoneBy(p, s) == InPool(p) + EnteredBy(p, s)
  {
    match s
    case Start(request) => LookKeepsRequests(p, request);
    case Resume(i) => ResumeKeepsRequests(p, i);
    case OpenStream(i, id) => OpenKeepsRequests(p, i, id);
    case StreamGone(id) => ReleaseKeepsRequests(p.(active := p.active - {id}));
    case _ =>
  }

  lemma Balance(pool: multiset<nat>, done: multiset<nat>, all: multiset<nat>, next: multiset<nat>,
                leaves: multiset<nat>,
                comes: multiset<nat>)
    requires pool + done == all && next + leaves == pool + comes
    ensures next + (done + leaves) == all + comes
  {
    forall x: nat
      ensures (next + (done + leaves))[x] == (all + comes)[x]
    {
      assert (next + leaves)[x] == (pool + comes)[x] && (pool + done)[x] == all[x];
    }
  }

  /**
   * No request is lost or doubled: those that entered are waiting, woken, granted or done, each as
   * often as it entered.
   */
  lemma {:induction false} RequestsAreKept(steps: seq<Step>)
    ensures InPool(Run(steps)) + AllDone(steps) == AllEntered(steps)
  {
    if steps == [] {
      assert InPool(Run(steps)) == multiset{};
    } else {
      var front, s := steps[..|steps| - 1], steps[|steps| - 1];
      var p := Run(front);
      RequestsAreKept(front);
      StepKeepsRequests(p, s);
      Balance(InPool(p), AllDone(front), AllEntered(front), InPool(After(p, s)), DoneBy(p, s), EnteredBy(p, s));
    }
  }

  // ----- is every slot used while somebody waits? -----

  /** A raised limit wakes nobody: it leaves slots unused exactly when somebody waits and it is more than are in use. */
  lemma UsedExactly(p: Pool, s: Step)
    requires Used(p, p.limit)
    ensures Used(After(p, s), After(p, s).limit) <==> !(s.NewLimit? && p.waiters != [] && InUse(p) < s.limit)
  {
    match s
    case NewLimit(_) =>
    case _ => StaysUsed(p, s, p.limit);
  }

  predicate RaisesUnheard(p: Pool, s: Step) {
    s.NewLimit? && p.waiters != [] && InUse(p) < s.limit
  }

  ghost predicate AlwaysUsed(steps: seq<Step>) {
    Used(Run(steps), Run(steps).limit) && (steps == [] || AlwaysUsed(steps[..|steps| - 1]))
  }

  ghost predicate NeverRaisesUnheard(steps: seq<Step>) {
    steps == [] ||
    (NeverRaisesUnheard(steps[..|steps| - 1]) && !RaisesUnheard(Run(steps[..|steps| - 1]), steps[|steps| - 1]))
  }

  lemma UsedNow(steps: seq<Step>)
    requires AlwaysUsed(steps)
    ensures Used(Run(steps), Run(steps).limit)
  {
  }

  /**
   * Over a whole run, every slot is in use whenever somebody waits, exactly if no limit is raised over
   * those who wait.
   */
  lemma {:induction false} AlwaysUsedExactly(steps: seq<Step>)
    ensures AlwaysUsed(steps) <==> NeverRaisesUnheard(steps)
  {
    if steps == [] {
      assert Used(Run(steps), Run(steps).limit);
    } else {
      var front, s := steps[..|steps| - 1], steps[|steps| - 1];
      AlwaysUsedExactly(front);
      if AlwaysUsed(front) {
        UsedNow(front);
        UsedExactly(Run(front), s);
      }
    }
  }

  lemma RunMore(steps: seq<Step>, s: Step)
    ensures Run(steps + [s]) == After(Run(steps), s)
  {
    assert (steps + [s])[..|steps|] == steps;
  }

  /** A run in which a request waits though there is room. */
  lemma WaitsDespiteRoom()
    ensures var p := Run([NewLimit(1), Start(0), OpenStream(0, 1), Start(1), NewLimit(2)]);
            p.waiters == [1] && p.woken == [] && p.granted == [] && |p.active| < p.limit
  {
    var a: seq<Step> := [NewLimit(1)];
    var b := a + [Start(0)];
    var c := b + [OpenStream(0, 1)];
    var d := c + [Start(1)];
    var e := d + [NewLimit(2)];
    assert e == [NewLimit(1), Start(0), OpenStream(0, 1), Start(1), NewLimit(2)];
    RunMore([], NewLimit(1));
    RunMore(a, Start(0));
    RunMore(b, OpenStream(0, 1));
    RunMore(c, Start(1));
    RunMore(d, NewLimit(2));
  }

  // ----- is the limit kept? -----

  predicate IsDue(p: Pool, s: Step) {
    match s
    case Resume(i) => i < |p.woken|
    case OpenStream(i, id) => i < |p.granted| && id !in p.active
    case _ => false
  }

  /**
   * The limit is passed exactly by a stream that opens when all slots are taken, or by a limit below
   * the open streams.
   */
  lemma LimitPassedExactly(p: Pool, s: Step)
    requires |p.active| <= p.limit
    ensures |After(p, s).active| <= After(p, s).limit <==>
            !(s.OpenStream? && IsDue(p, s) && !p.closing && !p.closed && |p.active| == p.limit) &&
            !(s.NewLimit? && s.limit < |p.active|)
  {
    if s.StreamGone? && s.id in p.active {
      RemoveOne(p.active, s.id);
    }
  }

  /** Open streams and requests that were promised one are within the limit. */
  predicate Reserved(p: Pool) {
    |p.active| + |p.granted| <= p.limit
  }

  /**
   * A request looks for a slot while all that are left are promised, and finds one all the same,
   * because only open streams are counted; or the limit drops below what is taken and promised.
   */
  predicate Overcommits(p: Pool, s: Step) {
    var taken := |p.active| + |p.granted|;
    match s
    case Start(_) => !p.closing && !p.closed && !MustPark(p) && taken == p.limit
    case Resume(i) => i < |p.woken| && !MustPark(p) && taken == p.limit
    case NewLimit(limit) => limit < taken
    case _ => false
  }

  lemma ReservedExactly(p: Pool, s: Step)
    requires Reserved(p)
    ensures Reserved(After(p, s)) <==> !Overcommits(p, s)
  {
    if s.StreamGone? && s.id in p.active {
      RemoveOne(p.active, s.id);
    }
  }

  ghost predicate AlwaysReserved(steps: seq<Step>) {
    Reserved(Run(steps)) && (steps == [] || AlwaysReserved(steps[..|steps| - 1]))
  }

  ghost predicate NeverOvercommits(steps: seq<Step>) {
    steps == [] ||
    (NeverOvercommits(steps[..|steps| - 1]) && !Overcommits(Run(steps[..|steps| - 1]), steps[|steps| - 1]))
  }

  lemma ReservedNow(steps: seq<Step>)
    requires AlwaysReserved(steps)
    ensures Reserved(Run(steps)) && |Run(steps).active| <= Run(steps).limit
  {
  }

  /** Over a whole run the slots taken and promised stay within the limit exactly if no step overcommits. */
  lemma {:induction false} AlwaysReservedExactly(steps: seq<Step>)
    ensures AlwaysReserved(steps) <==> NeverOvercommits(steps)
    ensures NeverOvercommits(steps) ==> |Run(steps).active| <= Run(steps).limit
  {
    if steps == [] {
      assert Reserved(Run(steps));
    } else {
      var front, s := steps[..|steps| - 1], steps[|steps| - 1];
      AlwaysReservedExactly(front);
      if AlwaysReserved(front) {
        ReservedNow(front);
        ReservedExactly(Run(front), s);
      }
    }
  }

  /** A run in which two requests both find the last slot. */
  lemma LimitCanBePassed()
    ensures var p := Run([NewLimit(1), Start(0), Start(1), OpenStream(0, 1), OpenStream(0, 3)]);
            |p.active| > p.limit
  {
    var a: seq<Step> := [NewLimit(1)];
    var b := a + [Start(0)];
    var c := b + [Start(1)];
    var d := c + [OpenStream(0, 1)];
    var e := d + [OpenStream(0, 3)];
    assert e == [NewLimit(1), Start(0), Start(1), OpenStream(0, 1), OpenStream(0, 3)];
    RunMore([], NewLimit(1));
    RunMore(a, Start(0));
    RunMore(b, Start(1));
    RunMore(c, OpenStream(0, 1));
    RunMore(d, OpenStream(0, 3));
    assert Run(e).active == {1, 3};
  }

  // ----- closing -----

  /** How far the requests that have no stream yet are from being done. */
  function Outstanding(p: Pool): nat {
    3 * |p.waiters| + 2 * |p.woken| + |p.granted|
  }

  /** Once closing, always closing; no request parks, and every step of a request brings them nearer to being done. */
  lemma ClosingDrains(p: Pool, s: Step)
    requires p.closing
    ensures var r := After(p, s);
            && r.closing && |r.waiters| <= |p.waiters| && Outstanding(r) <= Outstanding(p)
            && (IsDue(p, s) ==> Outstanding(r) < Outstanding(p))
  {
  }

  function RunFrom(p: Pool, steps: seq<Step>): Pool
    decreases |steps|
  {
    if steps == [] then p else RunFrom(After(p, steps[0]), steps[1..])
  }

  /** How many of the steps are due when their turn comes. */
  function CountDue(p: Pool, steps: seq<Step>): nat
    decreases |steps|
  {
    if steps == [] then 0 else (if IsDue(p, steps[0]) then 1 else 0) + CountDue(After(p, steps[0]), steps[1..])
  }

  /** Outstanding bounds the number of steps that the requests of a closing connection still make. */
  lemma {:induction false} ClosingEnds(p: Pool, steps: seq<Step>)
    requires p.closing
    ensures RunFrom(p, steps).closing && CountDue(p, steps) + Outstanding(RunFrom(p, steps)) <= Outstanding(p)
    decreases |steps|
  {
    if steps == [] {
      assert RunFrom(p, steps) == p;
    } else {
      ClosingDrains(p, steps[0]);
      ClosingEnds(After(p, steps[0]), steps[1..]);
    }
  }

  ghost predicate NothingDue(p: Pool) {
    forall s :: !IsDue(p, s)
  }

  lemma FirstIsDue(p: Pool)
    ensures p.woken != [] ==> IsDue(p, Resume(0))
    ensures p.granted != [] && p.active == {} ==> IsDue(p, Step.OpenStream(0, 1))
  {
  }

  lemma NothingDueIsEmpty(p: Pool)
    requires NothingDue(p)
    ensures p.woken == [] && (p.active == {} ==> p.granted == [])
  {
    FirstIsDue(p);
  }

  /** So a closing connection whose limit was never below one and whose streams are gone ends with nobody left. */
  lemma NobodyLeft(steps: seq<Step>, more: seq<Step>)
    requires Run(steps).closing && LowestLimit(steps + more) >= 1
    requires var p := Run(steps + more); p.active == {} && NothingDue(p)
    ensures Outstanding(Run(steps + more)) == 0 && CountDue(Run(steps), more) <= Outstanding(Run(steps))
  {
    NoLostWakeup(steps + more);
    NothingDueIsEmpty(Run(steps + more));
    ClosingEnds(Run(steps), more);
  }

  /** Once shut down, nobody is parked, and nobody parks again. */
  lemma {:induction false} NobodyParkedWhenClosed(steps: seq<Step>)
    ensures Run(steps).closed ==> Run(steps).waiters == []
  {
    if steps == [] {
    } else {
      NobodyParkedWhenClosed(steps[..|steps| - 1]);
    }
  }
}
