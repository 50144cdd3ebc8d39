# Presentation-timestamp correction of av-streamer, in Dafny

av-streamer wraps libav to re-encode and stream media. Its one piece of real logic is
the timestamp correction borrowed from libav's cmdutils. A `PtsCorrectionContext` is kept
per stream. For each decoded frame, `guess_correct_pts` takes the frame's reordered PTS
and its DTS, then returns the timestamp to use.

The context holds two fault counters and the last PTS and DTS observed. A present
timestamp counts as a fault when it is `<=` the previous observation on its channel. It
then becomes the new last observation. The PTS is returned when it is present and either
the DTS is absent or the PTS has had no more faults than the DTS. Otherwise the DTS is
returned. `init_pts_correction` resets the counters to 0 and both last values to
`INT64_MIN`.

Files:

- `timestamps.dfy` (module `Timestamps`): the `int64` type and the "no timestamp" value
  `NOPTS`. It also gives the conversion to and from an explicit `Option`.
- `pts_correction.dfy` (module `PtsCorrection`): the specification functions `Observe`,
  `Choose` and `Correct` over a `Snapshot` of two `Channel`s. It also holds the class
  `PtsCorrectionContext` with the four fields of the C struct. Its methods `Init` and
  `GuessCorrectPts` do what the C functions do, and they are proved against `Initial` and
  `Correct`.
- `pts_correction_runs.dfy` (module `PtsCorrectionRuns`): a stream as a sequence of
  frames, fed one call per frame by `Run`. It holds lemmas about whole runs: the channels
  evolve independently, fault counts equal the number of drops, and monotone input from
  initialisation gives no faults. `FeedFrames` ties these to a caller that feeds frames to a
  `PtsCorrectionContext`.
- `pts_correction_optional.dfy` (module `PtsCorrectionOptional`): the same heuristic
  written over `Option` timestamps, with no sentinel. It is proved to agree with the
  sentinel version on every call and every run.

Assumptions:

- `AV_NOPTS_VALUE` is defined in libavutil, which is not part of this model. It is taken
  to equal `INT64_MIN`, the value the context is initialised with. Under this
  assumption, a present timestamp is never `<=` the initial last value, so the first call
  never counts a fault.
- Timestamps are `int64`. A legitimate timestamp equal to `INT64_MIN` is
  indistinguishable from "no timestamp", exactly as in the C code.
- A DTS sequence that only never decreases does not keep the DTS fault count at zero.
  The comparison at StreamerUtils.c:59 is `<=`, so a repeated DTS counts as a fault
  (`RepeatedDtsIsFault`). The monotone-run lemmas therefore require strictly increasing
  input.

## Model

| member | source | states |
|---|---|---|
| Timestamps.OptionRoundTrip | StreamerUtils.c:56-67 | the sentinel encoding of "no timestamp" and the explicit optional encoding convert into each other without loss |
| Timestamps.PresentAboveSentinel | StreamerUtils.c:51 | with the sentinel equal to INT64_MIN, a timestamp is present exactly when it is strictly above INT64_MIN |
| PtsCorrection.Initial | StreamerUtils.c:48-52 | after initialisation both channels have 0 faults and INT64_MIN as their last value |
| PtsCorrection.Observe | StreamerUtils.c:58-65 | an absent timestamp leaves the channel unchanged; a present one becomes the last value; the fault count never decreases, rises by at most 1, and rises exactly when the timestamp is present and `<=` the previous last value |
| PtsCorrection.Choose | StreamerUtils.c:66-70 | the result is always one of the two inputs; it is the reordered PTS when that is present and the DTS is absent or the PTS faults do not exceed the DTS faults (ties favour the PTS), and the DTS otherwise; it is absent exactly when both inputs are absent |
| PtsCorrection.Correct | StreamerUtils.c:54-73 | the DTS step touches only the DTS channel and the PTS step only the PTS channel; the guess is one of the inputs; if both inputs are absent the state is unchanged and the guess is absent; a present PTS with an absent DTS is always returned; otherwise the guess is the reordered PTS exactly when it is present and its updated fault count does not exceed the DTS's, and the DTS in every other case |
| PtsCorrection.FirstCallHasNoFaults | StreamerUtils.c:51-63 | the first call after initialisation counts no fault on either channel, whatever the inputs |
| PtsCorrection.PtsCorrectionContext.constructor | Streamer.h:23-28 | a context can start from any last values and any non-negative fault counts, standing for the struct's contents before initialisation (negative counters are left out, see below) |
| PtsCorrection.PtsCorrectionContext.Init | StreamerUtils.c:48-52 | from any prior contents the context ends in the initial state, so initialising is idempotent |
| PtsCorrection.PtsCorrectionContext.GuessCorrectPts | StreamerUtils.c:54-73 | the new field values and the returned timestamp are exactly the outcome of `Correct` on the old field values |
| PtsCorrection.ThreeFrameScenario | StreamerUtils.c:48-73 | a caller that initialises a context and feeds the frames (100, 50), (90, 60), (95, 70) gets 100, 60, 70, with one PTS fault and no DTS fault |
| PtsCorrectionRuns.Run | StreamerUtils.c:54-73 | a run makes one guess per frame, each one of that frame's two timestamps, and each fault count grows by at most the number of frames |
| PtsCorrectionRuns.ObserveAll | StreamerUtils.c:58-65 | a channel fed a sequence of timestamps gains at most one fault per timestamp and never loses one |
| PtsCorrectionRuns.RunSplitsChannels | StreamerUtils.c:58-65 | over a run, the final PTS channel depends only on the frames' PTS values and the final DTS channel only on their DTS values |
| PtsCorrectionRuns.ObserveAllCountsDrops | StreamerUtils.c:58-65 | a channel's fault count grows by exactly the number of present timestamps not strictly above the present timestamp before them; its last value is the last present timestamp, or is unchanged if there is none |
| PtsCorrectionRuns.DtsOnlyRunGuessesDts | StreamerUtils.c:58-70 | with the PTS absent on every frame, every guess is that frame's DTS and the PTS channel is untouched |
| PtsCorrectionRuns.PtsOnlyRunGuessesPts | StreamerUtils.c:58-70 | with the DTS absent on every frame, every guess is that frame's PTS and the DTS channel is untouched |
| PtsCorrectionRuns.MonotoneDtsRun | StreamerUtils.c:48-70 | from initialisation, with the PTS absent and the DTS present and strictly increasing, the DTS fault count stays 0 and every guess is that frame's DTS |
| PtsCorrectionRuns.MonotonePtsRun | StreamerUtils.c:48-70 | from initialisation, with the DTS absent and the PTS present and strictly increasing, the PTS fault count stays 0 and every guess is that frame's PTS |
| PtsCorrectionRuns.FeedFrames | StreamerUtils.c:54-73 | calling `GuessCorrectPts` once per frame, in order, leaves the context in the final state of `Run` from its old state and returns the guesses of that run, so every lemma about runs holds for a caller of the class |
| PtsCorrectionRuns.ThreeFrameRun | StreamerUtils.c:54-73 | the run (100, 50), (90, 60), (95, 70) from initialisation guesses 100, 60, 70 and ends with one PTS fault, no DTS fault, last PTS 95 and last DTS 70 |
| PtsCorrectionRuns.RepeatedDtsIsFault | StreamerUtils.c:59 | a DTS equal to the previous DTS counts as a fault |
| PtsCorrectionOptional.InitialAgrees | StreamerUtils.c:48-52 | the INT64_MIN initial last values read as "no previous timestamp" |
| PtsCorrectionOptional.CorrectAgrees | StreamerUtils.c:54-73 | one call in the sentinel encoding gives the same new state and guess as the optional formulation, in which an absent previous value never makes an observation faulty |
| PtsCorrectionOptional.RunAgrees | StreamerUtils.c:54-73 | whole runs in the sentinel encoding give the same final state and the same guesses, frame by frame, as the optional formulation |

## Left out

- `_avs_find_encoder` (StreamerUtils.c:3-35): an encoder lookup through libavcodec, which is not part of this model, plus diagnostics printed to stdout and stderr.
- `_avs_create_output_stream` (StreamerUtils.c:37-46): a wrapper over libavformat's `avformat_new_stream`, which is not part of this model.
- StreamerUtils.h: a second declaration of the same struct and prototypes under the same include guard as Streamer.h. Its `AVS_PTS` is a `double` that nothing in the correction uses.
- The `CodecID`, `AVSFrameBuffer` and `bool_t` typedefs and all libav types: declarations only.
- PtsCorrection.PtsCorrectionContext.constructor: the counters are `nat`, so a context cannot start from the negative counter values that an uninitialised `int64_t` field could hold. No state reachable from `init_pts_correction` has negative counters, since they start at 0 and only grow.
- PtsCorrection.PtsCorrectionContext.GuessCorrectPts: the counters are `int64_t` in C and `nat` here. Wrap-around at INT64_MAX is not modelled, because the counters grow by at most one per frame and cannot reach it in practice.
- Concurrent use of one context from several threads is not modelled. The code does not synchronise, and each stream is meant to own its context.
