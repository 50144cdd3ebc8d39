/** The presentation-timestamp correction heuristic: a per-stream context of two
    fault counters and the last observed PTS and DTS, and the per-frame guess of
    the best timestamp from a (reordered PTS, DTS) pair. */
module PtsCorrection {
  import opened Timestamps

  /** One timestamp channel (PTS or DTS): how many of its observations were not
      strictly above the observation before them, and the last observation. */
  datatype Channel = Channel(faults: nat, last: int64)

  /** The whole correction context, channel by channel. */
  datatype Snapshot = Snapshot(pts: Channel, dts: Channel)

  /** What one frame does: the context afterwards and the guessed timestamp. */
  datatype Outcome = Outcome(next: Snapshot, guess: int64)

  /** The context as init_pts_correction leaves it. */
  function Initial(): (s: Snapshot)
    ensures s.pts == s.dts
    ensures s.pts.faults == 0 && s.pts.last == INT64_MIN
  {
    Snapshot(Channel(0, INT64_MIN), Channel(0, INT64_MIN))
  }

  /** Records one observation `t` on a channel. An absent `t` changes nothing;
      a present one becomes the last observation and counts as a fault exactly
      when it is not strictly above the previous one. */
  function Observe(c: Channel, t: int64): (r: Channel)
    ensures !IsPresent(t) ==> r == c
    ensures IsPresent(t) ==> r.last == t
    ensures c.faults <= r.faults <= c.faults + 1
    ensures r.faults == c.faults + 1 <==> IsPresent(t) && t <= c.last
  {
    if IsPresent(t) then
      Channel(if t <= c.last then c.faults + 1 else c.faults, t)
    else
      c
  }

  /** Whether the reordered PTS is to be trusted: it is present and either the
      DTS is absent or the PTS has had no more faults than the DTS (so ties
      favour the PTS). */
  predicate TrustsPts(s: Snapshot, reorderedPts: int64, dts: int64) {
    IsPresent(reorderedPts) && (!IsPresent(dts) || s.pts.faults <= s.dts.faults)
  }

  /** The choice between the two inputs once both channels have been updated:
      the reordered PTS when it is trusted, the DTS otherwise. */
  function Choose(s: Snapshot, reorderedPts: int64, dts: int64): (r: int64)
    ensures r == reorderedPts || r == dts
    ensures TrustsPts(s, reorderedPts, dts) ==> r == reorderedPts
    ensures !TrustsPts(s, reorderedPts, dts) ==> r == dts
    ensures IsPresent(r) <==> IsPresent(reorderedPts) || IsPresent(dts)
  {
    if (s.pts.faults <= s.dts.faults || !IsPresent(dts)) && IsPresent(reorderedPts) then
      reorderedPts
    else
      dts
  }

  /** One call of the correction: the DTS channel observes `dts`, the PTS
      channel observes `reorderedPts`, and the guess is chosen from the updated
      counters. */
  function Correct(s: Snapshot, reorderedPts: int64, dts: int64): (o: Outcome)
    ensures o.next.dts == Observe(s.dts, dts)
    ensures o.next.pts == Observe(s.pts, reorderedPts)
    ensures o.guess == reorderedPts || o.guess == dts
    ensures !IsPresent(reorderedPts) && !IsPresent(dts) ==> o == Outcome(s, NOPTS)
    ensures IsPresent(reorderedPts) && !IsPresent(dts) ==> o.guess == reorderedPts
    ensures o.guess == if TrustsPts(o.next, reorderedPts, dts) then reorderedPts else dts
  {
    var next := Snapshot(Observe(s.pts, reorderedPts), Observe(s.dts, dts));
    Outcome(next, Choose(next, reorderedPts, dts))
  }

  /** On the first call after initialisation no observation is a fault,
      whatever the inputs, because every present timestamp lies above the
      INT64_MIN the last values start from. */
  lemma FirstCallHasNoFaults(reorderedPts: int64, dts: int64)
    ensures Correct(Initial(), reorderedPts, dts).next.pts.faults == 0
    ensures Correct(Initial(), reorderedPts, dts).next.dts.faults == 0
  {
    PresentAboveSentinel(reorderedPts);
    PresentAboveSentinel(dts);
  }

  /** The context of one stream, with the four fields of the C struct. The
      counters are unbounded here (see the README on overflow). */
  class PtsCorrectionContext {
    var numFaultyPts: nat
    var numFaultyDts: nat
    var lastPts: int64
    var lastDts: int64

    /** The fields read as a specification value. */
    function State(): Snapshot
      reads this
    {
      Snapshot(Channel(numFaultyPts, lastPts), Channel(numFaultyDts, lastDts))
    }

    /** A context holding arbitrary last values and arbitrary non-negative
        fault counts, as a C struct may before it is initialised. */
    constructor (s: Snapshot)
      ensures State() == s
    {
      numFaultyPts, lastPts := s.pts.faults, s.pts.last;
      numFaultyDts, lastDts := s.dts.faults, s.dts.last;
    }

    /** init_pts_correction: whatever the context held before, it now holds
        the initial state (so initialising twice is the same as once). */
    method Init()
      modifies this
      ensures State() == Initial()
    {
      numFaultyPts, numFaultyDts := 0, 0;
      lastPts, lastDts := INT64_MIN, INT64_MIN;
    }

    /** guess_correct_pts: updates the DTS fields, then the PTS fields, then
        picks the returned timestamp from the updated counters. */
    method GuessCorrectPts(reorderedPts: int64, dts: int64) returns (pts: int64)
      modifies this
      ensures Outcome(State(), pts) == Correct(old(State()), reorderedPts, dts)
    {
      pts := NOPTS;
      if dts != NOPTS {
        numFaultyDts := numFaultyDts + if dts <= lastDts then 1 else 0;
        lastDts := dts;
      }
      if reorderedPts != NOPTS {
        numFaultyPts := numFaultyPts + if reorderedPts <= lastPts then 1 else 0;
        lastPts := reorderedPts;
      }
      if (numFaultyPts <= numFaultyDts || dts == NOPTS) && reorderedPts != NOPTS {
        pts := reorderedPts;
      } else {
        pts := dts;
      }
    }
  }

  /** A caller's view: from any prior contents, initialising and feeding the
      frames (100, 50), (90, 60), (95, 70) yields 100, then 60 once the PTS
      has gone backwards, then 70 while the PTS stays the less reliable one. */
  method ThreeFrameScenario(prior: Snapshot) returns (guesses: seq<int64>, after: Snapshot)
    ensures guesses == [100, 60, 70]
    ensures after == Snapshot(Channel(1, 95), Channel(0, 70))
  {
    var ctx := new PtsCorrectionContext(prior);
    ctx.Init();
    var g1 := ctx.GuessCorrectPts(100, 50);
    var g2 := ctx.GuessCorrectPts(90, 60);
    var g3 := ctx.GuessCorrectPts(95, 70);
    guesses, after := [g1, g2, g3], ctx.State();
  }
}
