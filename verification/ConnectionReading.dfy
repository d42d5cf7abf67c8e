/** What the read loop makes of a byte stream (src/connection.ts:461-485), while other calls come between the frames. */
module ConnectionReading {
  import opened Bits
  import opened Results
  import opened PrefixInteger
  import opened Frames
  import opened FrameCodec
  import opened FrameReader
  import opened StreamTypes
  import opened ConnectionSteps

  /** The steps that come while the loop waits for its next frame. */
  function Meanwhile(between: seq<seq<Step>>): seq<Step> {
    if between == [] then [] else between[0]
  }

  function Later(between: seq<seq<Step>>): seq<seq<Step>> {
    if between == [] then [] else between[1..]
  }

  /** A frame is dispatched; that there is none, or that it does not parse, is fatal. */
  function TakenIn(decode: Decoder, w: World, r: ReadResult): World {
    match r
    case Ended => Next(decode, w, Fail(TransportFailed))
    case Got(Err(e)) => Next(decode, w, Fail(UnreadableFrame(e)))
    case Got(Ok(f)) => Next(decode, w, Receive(f))
  }

  function FirstOf(frames: seq<Parsed>): ReadResult {
    if frames == [] then Ended else Got(frames[0])
  }

  /**
   * What becomes of the connection when these frames arrive and then the transport ends. The loop
   * looks whether the connection is closed before it waits, not after.
   */
  function Handled(decode: Decoder, w: World, frames: seq<Parsed>, between: seq<seq<Step>>): World
    decreases |frames|
  {
    if w.pool.closed then w
    else
      var v := TakenIn(decode, RunOn(decode, w, Meanwhile(between)), FirstOf(frames));
      if frames == [] then v else Handled(decode, v, frames[1..], Later(between))
  }

  lemma FailingCloses(decode: Decoder, w: World, r: ReadResult)
    requires r.Ended? || r.frame.Err?
    ensures TakenIn(decode, w, r).pool.closed
  {
  }

  /** What the read gives of a byte stream, and what is left of it. */
  function ReadOf(s: Bytes): ReadResult {
    match SplitFirst(s)
    case Incomplete => Ended
    case First(octets, _) => Got(Parse(octets))
  }

  function RestOf(s: Bytes): Bytes {
    match SplitFirst(s)
    case Incomplete => s
    case First(_, rest) => rest
  }

  /** One turn of the loop. */
  lemma NextHandled(decode: Decoder, w: World, s: Bytes, between: seq<seq<Step>>)
    requires !w.pool.closed
    ensures Handled(decode, w, FramesOf(s), between) ==
            Handled(decode, TakenIn(decode, RunOn(decode, w, Meanwhile(between)), ReadOf(s)), FramesOf(RestOf(s)),
                    Later(between))
    ensures ReadOf(s).Got? ==> |RestOf(s)| < |s|
    ensures ReadOf(s).Ended? || ReadOf(s).frame.Err? ==>
              TakenIn(decode, RunOn(decode, w, Meanwhile(between)), ReadOf(s)).pool.closed
  {
    var v := TakenIn(decode, RunOn(decode, w, Meanwhile(between)), ReadOf(s));
    if SplitFirst(s).First? {
      NextFrame(s, SplitFirst(s).octets, RestOf(s), Parse(SplitFirst(s).octets));
      assert FirstOf(FramesOf(s)) == ReadOf(s);
    } else {
      assert FramesOf(s) == [];
    }
    if ReadOf(s).Ended? || ReadOf(s).frame.Err? {
      FailingCloses(decode, RunOn(decode, w, Meanwhile(between)), ReadOf(s));
      assert Handled(decode, v, FramesOf(RestOf(s)), Later(between)) == v;
    }
  }

  /** The read loop only ends when the connection is closed. */
  lemma {:induction false} HandledCloses(decode: Decoder, w: World, frames: seq<Parsed>, between: seq<seq<Step>>)
    ensures Handled(decode, w, frames, between).pool.closed
    decreases |frames|
  {
    var v := TakenIn(decode, RunOn(decode, w, Meanwhile(between)), FirstOf(frames));
    if w.pool.closed {
    } else if frames == [] {
      FailingCloses(decode, RunOn(decode, w, Meanwhile(between)), Ended);
    } else {
      HandledCloses(decode, v, frames[1..], Later(between));
    }
  }

  function StepFor(r: ReadResult): Step {
    match r
    case Ended => Fail(TransportFailed)
    case Got(Err(e)) => Fail(UnreadableFrame(e))
    case Got(Ok(f)) => Receive(f)
  }

  /** The steps that the read loop and the calls between its frames make together. */
  function StepsFor(decode: Decoder, w: World, frames: seq<Parsed>, between: seq<seq<Step>>): seq<Step>
    decreases |frames|
  {
    if w.pool.closed then []
    else
      var v := TakenIn(decode, RunOn(decode, w, Meanwhile(between)), FirstOf(frames));
      Meanwhile(between) + ([StepFor(FirstOf(frames))] +
                            if frames == [] then [] else StepsFor(decode, v, frames[1..], Later(between)))
  }

  lemma {:induction false} OnInTwo(decode: Decoder, w: World, a: seq<Step>, b: seq<Step>)
    ensures RunOn(decode, w, a + b) == RunOn(decode, RunOn(decode, w, a), b)
    decreases |a|
  {
    if a == [] {
      assert a + b == b;
    } else {
      assert (a + b)[1..] == a[1..] + b;
      OnInTwo(decode, Next(decode, w, a[0]), a[1..], b);
    }
  }

  lemma OnFirst(decode: Decoder, w: World, s: Step, rest: seq<Step>)
    ensures RunOn(decode, w, [s] + rest) == RunOn(decode, Next(decode, w, s), rest)
  {
    assert ([s] + rest)[1..] == rest;
  }

  lemma {:induction false} HandledIsRunOn(decode: Decoder, w: World, frames: seq<Parsed>, between: seq<seq<Step>>)
    ensures Handled(decode, w, frames, between) == RunOn(decode, w, StepsFor(decode, w, frames, between))
    decreases |frames|
  {
    if w.pool.closed {
    } else {
      var first, s := Meanwhile(between), StepFor(FirstOf(frames));
      var v := TakenIn(decode, RunOn(decode, w, first), FirstOf(frames));
      var rest := if frames == [] then [] else StepsFor(decode, v, frames[1..], Later(between));
      OnInTwo(decode, w, first, [s] + rest);
      OnFirst(decode, RunOn(decode, w, first), s, rest);
      if frames != [] {
        HandledIsRunOn(decode, v, frames[1..], Later(between));
      }
    }
  }

  /** So everything shown of runs holds of what it reads. */
  lemma HandledIsRun(decode: Decoder, steps: seq<Step>, frames: seq<Parsed>, between: seq<seq<Step>>)
    ensures var w := Run(decode, steps);
            Handled(decode, w, frames, between) == Run(decode, steps + StepsFor(decode, w, frames, between))
  {
    var w := Run(decode, steps);
    var more := StepsFor(decode, w, frames, between);
    HandledIsRunOn(decode, w, frames, between);
    RunOnIsRun(decode, steps, w, more, steps + more);
  }

  /** Canonical frames that a peer wrote are the frames handled, however the transport cuts them. */
  lemma WrittenIsHandled(decode: Decoder, w: World, frames: seq<Frame>, greaseIds: seq<nat>, between: seq<seq<Step>>)
    requires |frames| == |greaseIds| && forall i :: 0 <= i < |frames| ==> Canonical(frames[i])
    ensures Handled(decode, w, FramesOf(Written(frames, greaseIds)), between) ==
            Handled(decode, w, seq(|frames|, i requires 0 <= i < |frames| => Ok(frames[i])), between)
  {
    CanonicalReadsBack(frames, greaseIds);
  }
}
