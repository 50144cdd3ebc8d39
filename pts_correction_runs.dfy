/** A stream as a sequence of frames fed, one call per frame and in order, to
    the correction, and what can be said about a whole run. */
module PtsCorrectionRuns {
  import opened Timestamps
  import opened PtsCorrection

  /** The two timestamps a decoded frame carries. */
  datatype Frame = Frame(reorderedPts: int64, dts: int64)

  /** The context after a run and the guess made for each frame. */
  datatype Trace = Trace(final: Snapshot, guesses: seq<int64>)

  /** Feeds `frames` to the correction in order, starting from `s`. */
  function Run(s: Snapshot, frames: seq<Frame>): (t: Trace)
    ensures |t.guesses| == |frames|
    ensures forall i :: 0 <= i < |frames| ==>
              t.guesses[i] == frames[i].reorderedPts || t.guesses[i] == frames[i].dts
    ensures s.pts.faults <= t.final.pts.faults <= s.pts.faults + |frames|
    ensures s.dts.faults <= t.final.dts.faults <= s.dts.faults + |frames|
    decreases |frames|
  {
    if frames == [] then
      Trace(s, [])
    else
      var o := Correct(s, frames[0].reorderedPts, frames[0].dts);
      var rest := Run(o.next, frames[1..]);
      Trace(rest.final, [o.guess] + rest.guesses)
  }

  /** The reordered PTS of every frame. */
  function PtsOf(frames: seq<Frame>): (ts: seq<int64>)
    ensures |ts| == |frames| && forall i :: 0 <= i < |frames| ==> ts[i] == frames[i].reorderedPts
  {
    seq(|frames|, i requires 0 <= i < |frames| => frames[i].reorderedPts)
  }

  /** The DTS of every frame. */
  function DtsOf(frames: seq<Frame>): (ts: seq<int64>)
    ensures |ts| == |frames| && forall i :: 0 <= i < |frames| ==> ts[i] == frames[i].dts
  {
    seq(|frames|, i requires 0 <= i < |frames| => frames[i].dts)
  }

  /** A channel after observing `ts` one by one. */
  function ObserveAll(c: Channel, ts: seq<int64>): (r: Channel)
    ensures c.faults <= r.faults <= c.faults + |ts|
    decreases |ts|
  {
    if ts == [] then c else ObserveAll(Observe(c, ts[0]), ts[1..])
  }

  /** The present timestamps of `ts`, in order. */
  function Present(ts: seq<int64>): (p: seq<int64>)
    ensures |p| <= |ts|
    ensures forall i :: 0 <= i < |p| ==> IsPresent(p[i]) && p[i] in ts
    decreases |ts|
  {
    if ts == [] then []
    else if IsPresent(ts[0]) then [ts[0]] + Present(ts[1..])
    else Present(ts[1..])
  }

  /** How many entries of `ts` are not strictly above the entry before them,
      the first entry being compared with `last`. */
  function Drops(last: int64, ts: seq<int64>): (n: nat)
    ensures n <= |ts|
    decreases |ts|
  {
    if ts == [] then 0
    else (if ts[0] <= last then 1 else 0) + Drops(ts[0], ts[1..])
  }

  /** `ts` is strictly increasing and starts above `last`. */
  predicate IncreasingFrom(last: int64, ts: seq<int64>) {
    (|ts| > 0 ==> last < ts[0]) &&
    forall i :: 0 < i < |ts| ==> ts[i - 1] < ts[i]
  }

  /** The two channels evolve independently: over a run, each channel sees
      exactly its own timestamps of the frames, in order, and nothing else. */
  lemma {:induction false} RunSplitsChannels(s: Snapshot, frames: seq<Frame>)
    ensures Run(s, frames).final == Snapshot(ObserveAll(s.pts, PtsOf(frames)), ObserveAll(s.dts, DtsOf(frames)))
    decreases |frames|
  {
    if frames != [] {
      var o := Correct(s, frames[0].reorderedPts, frames[0].dts);
      RunSplitsChannels(o.next, frames[1..]);
      assert PtsOf(frames)[1..] == PtsOf(frames[1..]);
      assert DtsOf(frames)[1..] == DtsOf(frames[1..]);
    }
  }

  /** A channel's fault count grows by exactly the number of its present
      observations that are not strictly above the present observation before
      them (the first compared with the starting last value); absent
      observations are skipped and do not count. */
  lemma {:induction false} ObserveAllCountsDrops(c: Channel, ts: seq<int64>)
    ensures ObserveAll(c, ts).faults == c.faults + Drops(c.last, Present(ts))
    ensures ObserveAll(c, ts).last == if Present(ts) == [] then c.last else Present(ts)[|Present(ts)| - 1]
    decreases |ts|
  {
    if ts != [] {
      var c' := Observe(c, ts[0]);
      ObserveAllCountsDrops(c', ts[1..]);
      if IsPresent(ts[0]) {
        var p := Present(ts[1..]);
        assert Present(ts) == [ts[0]] + p;
        assert ([ts[0]] + p)[1..] == p;
      }
    }
  }

  /** A strictly increasing sequence has no drops. */
  lemma {:induction false} IncreasingHasNoDrops(last: int64, ts: seq<int64>)
    requires IncreasingFrom(last, ts)
    ensures Drops(last, ts) == 0
    decreases |ts|
  {
    if ts != [] {
      IncreasingHasNoDrops(ts[0], ts[1..]);
    }
  }

  /** Filtering out absent timestamps keeps a sequence strictly increasing. */
  lemma {:induction false} PresentKeepsIncreasing(last: int64, ts: seq<int64>)
    requires IncreasingFrom(last, ts)
    ensures IncreasingFrom(last, Present(ts))
    decreases |ts|
  {
    if ts != [] {
      PresentKeepsIncreasing(ts[0], ts[1..]);
    }
  }

  /** With the reordered PTS absent throughout, every guess is that frame's
      DTS, and the PTS channel is never touched. */
  lemma {:induction false} DtsOnlyRunGuessesDts(s: Snapshot, frames: seq<Frame>)
    requires forall i :: 0 <= i < |frames| ==> !IsPresent(frames[i].reorderedPts)
    ensures Run(s, frames).guesses == DtsOf(frames)
    ensures Run(s, frames).final.pts == s.pts
    decreases |frames|
  {
    if frames != [] {
      var o := Correct(s, frames[0].reorderedPts, frames[0].dts);
      DtsOnlyRunGuessesDts(o.next, frames[1..]);
      assert DtsOf(frames) == [frames[0].dts] + DtsOf(frames[1..]);
    }
  }

  /** With the DTS absent throughout, every guess is that frame's reordered
      PTS, and the DTS channel is never touched. */
  lemma {:induction false} PtsOnlyRunGuessesPts(s: Snapshot, frames: seq<Frame>)
    requires forall i :: 0 <= i < |frames| ==> !IsPresent(frames[i].dts)
    ensures Run(s, frames).guesses == PtsOf(frames)
    ensures Run(s, frames).final.dts == s.dts
    decreases |frames|
  {
    if frames != [] {
      var o := Correct(s, frames[0].reorderedPts, frames[0].dts);
      PtsOnlyRunGuessesPts(o.next, frames[1..]);
      assert PtsOf(frames) == [frames[0].reorderedPts] + PtsOf(frames[1..]);
    }
  }

  /** Starting from initialisation, with the reordered PTS absent and the DTS
      present and strictly increasing, the DTS is never counted as faulty and
      every guess is that frame's DTS. */
  lemma {:induction false} MonotoneDtsRun(frames: seq<Frame>)
    requires forall i :: 0 <= i < |frames| ==> !IsPresent(frames[i].reorderedPts) && IsPresent(frames[i].dts)
    requires forall i :: 0 < i < |frames| ==> frames[i - 1].dts < frames[i].dts
    ensures Run(Initial(), frames).final.dts.faults == 0
    ensures Run(Initial(), frames).guesses == DtsOf(frames)
  {
    var ds := DtsOf(frames);
    assert IncreasingFrom(INT64_MIN, ds) by {
      if |frames| > 0 {
        PresentAboveSentinel(frames[0].dts);
      }
    }
    PresentKeepsIncreasing(INT64_MIN, ds);
    IncreasingHasNoDrops(INT64_MIN, Present(ds));
    RunSplitsChannels(Initial(), frames);
    ObserveAllCountsDrops(Initial().dts, ds);
    assert Run(Initial(), frames).final.dts.faults == 0;
    DtsOnlyRunGuessesDts(Initial(), frames);
  }

  /** Starting from initialisation, with the DTS absent and the reordered PTS
      present and strictly increasing, the PTS is never counted as faulty and
      every guess is that frame's reordered PTS. */
  lemma {:induction false} MonotonePtsRun(frames: seq<Frame>)
    requires forall i :: 0 <= i < |frames| ==> IsPresent(frames[i].reorderedPts) && !IsPresent(frames[i].dts)
    requires forall i :: 0 < i < |frames| ==> frames[i - 1].reorderedPts < frames[i].reorderedPts
    ensures Run(Initial(), frames).final.pts.faults == 0
    ensures Run(Initial(), frames).guesses == PtsOf(frames)
  {
    var ps := PtsOf(frames);
    assert IncreasingFrom(INT64_MIN, ps) by {
      if |frames| > 0 {
        PresentAboveSentinel(frames[0].reorderedPts);
      }
    }
    PresentKeepsIncreasing(INT64_MIN, ps);
    IncreasingHasNoDrops(INT64_MIN, Present(ps));
    RunSplitsChannels(Initial(), frames);
    ObserveAllCountsDrops(Initial().pts, ps);
    assert Run(Initial(), frames).final.pts.faults == 0;
    PtsOnlyRunGuessesPts(Initial(), frames);
  }

  /** The three-frame stream (100, 50), (90, 60), (95, 70) from initialisation:
      the PTS going back from 100 to 90 is one fault, after which the DTS is
      preferred for the rest of the run. */
  lemma ThreeFrameRun()
    ensures Run(Initial(), [Frame(100, 50), Frame(90, 60), Frame(95, 70)])
         == Trace(Snapshot(Channel(1, 95), Channel(0, 70)), [100, 60, 70])
  {
  }

  /** A repeated DTS is a fault: a DTS sequence that is only non-decreasing
      does not keep the fault count at zero, because the comparison is `<=`. */
  lemma RepeatedDtsIsFault(d: int64)
    requires IsPresent(d)
    ensures Run(Initial(), [Frame(NOPTS, d), Frame(NOPTS, d)]).final.dts.faults == 1
  {
    PresentAboveSentinel(d);
  }

  /** A caller feeding a stream to a context: one GuessCorrectPts call per
      frame, in order. The context ends in the final state of the run and the
      returned guesses are the run's, so every lemma about Run applies to a
      caller of the class. */
  method FeedFrames(ctx: PtsCorrectionContext, frames: seq<Frame>) returns (guesses: seq<int64>)
    modifies ctx
    ensures Trace(ctx.State(), guesses) == Run(old(ctx.State()), frames)
  {
    guesses := [];
    var i := 0;
    while i < |frames|
      invariant 0 <= i <= |frames|
      invariant Run(old(ctx.State()), frames)
             == Trace(Run(ctx.State(), frames[i..]).final, guesses + Run(ctx.State(), frames[i..]).guesses)
    {
      ghost var before := ctx.State();
      assert frames[i..][1..] == frames[i + 1..];
      var g := ctx.GuessCorrectPts(frames[i].reorderedPts, frames[i].dts);
      assert guesses + ([g] + Run(ctx.State(), frames[i + 1..]).guesses)
          == (guesses + [g]) + Run(ctx.State(), frames[i + 1..]).guesses;
      guesses := guesses + [g];
      i := i + 1;
    }
    assert frames[i..] == [];
    assert guesses + [] == guesses;
  }
}
