/** The same heuristic written over explicit optional timestamps: an absent
    timestamp is `None`, the context starts with no last value, and an absent
    last value never makes an observation faulty. The lemmas show that the
    sentinel encoding (AV_NOPTS_VALUE == INT64_MIN) computes exactly this. */
module PtsCorrectionOptional {
  import opened Timestamps
  import opened PtsCorrection
  import opened PtsCorrectionRuns

  datatype OptChannel = OptChannel(faults: nat, last: Option<int64>)

  datatype OptSnapshot = OptSnapshot(pts: OptChannel, dts: OptChannel)

  datatype OptOutcome = OptOutcome(next: OptSnapshot, guess: Option<int64>)

  datatype OptTrace = OptTrace(final: OptSnapshot, guesses: seq<Option<int64>>)

  function OptInitial(): OptSnapshot {
    OptSnapshot(OptChannel(0, None), OptChannel(0, None))
  }

  /** An observation is faulty when there is a previous one and it is not
      strictly below the new one. */
  function OptObserve(c: OptChannel, t: Option<int64>): OptChannel {
    match t
    case None => c
    case Some(v) =>
      var faulty := c.last.Some? && v <= c.last.value;
      OptChannel(if faulty then c.faults + 1 else c.faults, Some(v))
  }

  function OptCorrect(s: OptSnapshot, reorderedPts: Option<int64>, dts: Option<int64>): OptOutcome {
    var next := OptSnapshot(OptObserve(s.pts, reorderedPts), OptObserve(s.dts, dts));
    var usePts := reorderedPts.Some? && (dts.None? || next.pts.faults <= next.dts.faults);
    OptOutcome(next, if usePts then reorderedPts else dts)
  }

  function OptRun(s: OptSnapshot, frames: seq<Frame>): OptTrace
    decreases |frames|
  {
    if frames == [] then
      OptTrace(s, [])
    else
      var o := OptCorrect(s, ToOption(frames[0].reorderedPts), ToOption(frames[0].dts));
      var rest := OptRun(o.next, frames[1..]);
      OptTrace(rest.final, [o.guess] + rest.guesses)
  }

  function DecodeChannel(c: Channel): OptChannel {
    OptChannel(c.faults, ToOption(c.last))
  }

  function DecodeSnapshot(s: Snapshot): OptSnapshot {
    OptSnapshot(DecodeChannel(s.pts), DecodeChannel(s.dts))
  }

  function DecodeGuesses(ts: seq<int64>): (os: seq<Option<int64>>)
    ensures |os| == |ts| && forall i :: 0 <= i < |ts| ==> os[i] == ToOption(ts[i])
  {
    seq(|ts|, i requires 0 <= i < |ts| => ToOption(ts[i]))
  }

  /** The initial context has both last values absent. */
  lemma InitialAgrees()
    ensures DecodeSnapshot(Initial()) == OptInitial()
  {
  }

  /** One call agrees with the optional formulation, from any context. */
  lemma CorrectAgrees(s: Snapshot, reorderedPts: int64, dts: int64)
    ensures DecodeSnapshot(Correct(s, reorderedPts, dts).next)
         == OptCorrect(DecodeSnapshot(s), ToOption(reorderedPts), ToOption(dts)).next
    ensures ToOption(Correct(s, reorderedPts, dts).guess)
         == OptCorrect(DecodeSnapshot(s), ToOption(reorderedPts), ToOption(dts)).guess
  {
    PresentAboveSentinel(reorderedPts);
    PresentAboveSentinel(dts);
  }

  /** Whole runs agree with the optional formulation: the same final context
      and, frame by frame, the same guesses. */
  lemma {:induction false} RunAgrees(s: Snapshot, frames: seq<Frame>)
    ensures DecodeSnapshot(Run(s, frames).final) == OptRun(DecodeSnapshot(s), frames).final
    ensures DecodeGuesses(Run(s, frames).guesses) == OptRun(DecodeSnapshot(s), frames).guesses
    decreases |frames|
  {
    if frames != [] {
      var o := Correct(s, frames[0].reorderedPts, frames[0].dts);
      var oo := OptCorrect(DecodeSnapshot(s), ToOption(frames[0].reorderedPts), ToOption(frames[0].dts));
      CorrectAgrees(s, frames[0].reorderedPts, frames[0].dts);
      assert DecodeSnapshot(o.next) == oo.next && ToOption(o.guess) == oo.guess;
      RunAgrees(o.next, frames[1..]);
      var rest := Run(o.next, frames[1..]);
      var optRest := OptRun(oo.next, frames[1..]);
      assert Run(s, frames) == Trace(rest.final, [o.guess] + rest.guesses);
      assert OptRun(DecodeSnapshot(s), frames) == OptTrace(optRest.final, [oo.guess] + optRest.guesses);
      assert DecodeGuesses([o.guess] + rest.guesses) == [ToOption(o.guess)] + DecodeGuesses(rest.guesses);
    }
  }
}
