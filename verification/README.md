# Face-authentication daemon: verified model

A Dafny model of the deterministic core of a privileged face-authentication daemon, with devices, neural
models, sockets and D-Bus replaced by arbitrary answers. It covers five groups of the daemon's logic:

- the single-capacity biometric workers (`Resource`, `EngineProtocol`, `EngineProgress`) and the shutdown token
  (`Shutdown`), as step systems over every interleaving;
- the evidence state machines: the randomized challenge (`Liveness`), the capture loop (`CaptureLoop` is its
  specification as a step function, `CaptureLaws` and `RepeatedFrames` what holds of it, `Observation` the loop
  itself), the enrollment session (`Vectors`, `Aggregation`, `Simplex`, `Enrollment`, `Finishing`) and its runs over
  the loop (`EnrollmentAccumulators`, `EnrollmentRuns`, `EnrollmentWitness`), the transaction slot (`Sessions`), the
  decision on some evidence (`Authentication`) and the connection coordinator (`Coordinator`);
- frame pairing (`Pairing`);
- image and geometry arithmetic: similarity alignment (`Similarity`), sampling and tensors (`Sampling`,
  `TensorLayouts`, `Preprocess`), overlap suppression (`Suppression`), quality scans and aggregation
  (`ImageStatistics`, `Histogram`, `Laplacian`, `QualityAssessment`);
- the sealed-key blob codec (`TpmBlob`).

`Wrappers`, `Arithmetic`, `Cancellation`, `Protocol` and `ObservationTypes` hold what these share.

Objects that the program updates in place are classes whose methods are proved against step functions or
invariants; loops are loops with invariants; pure arithmetic is functions and lemmas. `CancelProbe`,
`FrameSource`, `PeerStream`, `Clock`, `EngineHandle` and the fields of `ObservationLoop` stand for the outside
world: each call is answered by an arbitrary function of the call's number. Floating-point numbers are reals;
integers carry their machine width as subset types, so every addition and multiplication has an overflow
obligation.

## What the proofs found

- A `Started` or progress response that cannot be written returns an error with the transaction slot still
  occupied, and nothing else does: a client that takes every write leaves the slot free on every return
  (`Coordinator.CoordinateConnection`). The coordinator would also keep the slot for evidence bound to another
  transaction, but the worker turns such evidence into a failure before it sends it
  (`Coordinator.BoundIffFromTheWorker`). `crates/faceauth-daemon/src/lib.rs` never calls `SessionManager::expire`.
- The capture loop announces at least 2n+2 times for n consumed observations, and the engines admit 32
  announcements, of which enrollment has spent one: it sees at most 14 observations, not the 32 the loop allows. A
  valid enrollment can finish if and only if it asks for at most 14 samples and its window holds the quickest
  challenge and the sample intervals (`EnrollmentWitness.CanFinishIffFeasible`), although validation accepts 15 and
  16 (`EnrollmentWitness.SomeValidEnrollmentNeverFinishes`) and intervals that do not fit the window
  (`EnrollmentWitness.SomeValidEnrollmentHasNoTime`). Authentication stops at its first observation and is not
  affected.
- `ChallengeConfig::validate` accepts configurations no trace can pass; the exact condition is
  `Liveness.PassableIffTimeIsLeft`.
- Enrollment samples can cancel exactly when the similarity floor is at most
  (n - 2) / (2 * (n - 1)) for n samples, which is 7/15 for 16 (`Simplex.NeverCancelsIffFloorSuffices`). Validation
  admits such floors; the exact condition on the similarity and quality floors under which every ready session
  aggregates, with the code's epsilon, is `Finishing.ReadySessionsFinishIffRobust`.
- The challenge's repeated-frame error is reachable from the capture loop, which compares sequence numbers with the
  previous captured pair while the challenge compares with the previous accepted one; it takes a skipped pair
  between the two (`RepeatedFrames.RepeatedFrameIsReachable`, `RepeatedFrames.RepeatedFrameIffAFrameRepeats`).

## Model

| member | source | states |
|---|---|---|
| Resource.BiometricResourceArbiter.TryAcquire | crates/faceauth-daemon/src/resource.rs:48-62 | One critical section: occupied or exhausted arbiters refuse and stay as they are; otherwise the next generation becomes the active one (`Resource.Acquire`) |
| Resource.BiometricResourceArbiter.DropLease | crates/faceauth-daemon/src/resource.rs:92-100 | Dropping a lease frees the slot only when its generation is the active one (`Resource.Release`) |
| EngineProtocol.AtMostOneJob | crates/faceauth-daemon/src/engine.rs:741-798 | In every interleaving of any number of submitters, both workers and all receivers at most one engine job runs, so the pipeline lock is free whenever a job asks for it |
| EngineProtocol.ArbiterMatchesTheLiveLease | crates/faceauth-daemon/src/resource.rs:48-100 | In every interleaving the arbiter is occupied exactly while some place holds a lease, there is one such place, its generation is the active one, and dropping it frees the arbiter |
| EngineProtocol.SubmissionNeverQueues | crates/faceauth-daemon/src/engine.rs:639-666 | A submitter that won the flag finds both one-slot queues empty; its send, or the flag, can be refused only by a worker that has stopped serving |
| EngineProtocol.UpdatesNeverBlock | crates/faceauth-daemon/src/engine.rs:44-46 | Within the 32-update budget a progress update always fits, the terminal send is always enabled, and no update queue exceeds 33 (authentication) or 34 (enrollment) entries |
| EngineProtocol.UpdateStreamsAreBound | crates/faceauth-daemon/src/engine.rs:757-798 | Any job's receiver reads at most 32 progress updates and then at most one terminal update as the last, all bound to that job; no later lease reuses the channel |
| EngineProtocol.ResultPrecedesCapacity | crates/faceauth-daemon/src/engine.rs:794-798 | After the terminal send and until the lease drop every acquisition is refused and changes nothing: a received result does not mean capacity is free |
| EngineProtocol.StepKeepsSingleLease | crates/faceauth-daemon/src/enrollment_engine.rs:382-409 | Every step of every thread keeps exactly one live lease and the arbiter entry equal to it |
| EngineProtocol.StepKeepsFlags | crates/faceauth-daemon/src/enrollment_engine.rs:645-705 | Every step keeps a set flag owned by a job in flight while its worker serves |
| EngineProtocol.StepKeepsLogs | crates/faceauth-daemon/src/enrollment_engine.rs:660-705 | Every step keeps each job's update log bounded, terminal-last and bound to its owner |
| EngineProtocol.RunKeepsInv | crates/faceauth-daemon/src/engine.rs:639-798 | The whole invariant holds along every interleaving |
| EngineProgress.NoLeaseIsStranded | crates/faceauth-daemon/src/engine.rs:639-798 | In every reachable state with a held lease the holder has an enabled step, and at most nine steps of its holders free the arbiter: no interleaving strands the capacity |
| Shutdown.NoWakeupIsLost | crates/faceauth-daemon/src/supervision.rs:46-101 | Once the first requester has finished draining, every future whose last poll returned pending has had the waker of that very poll woken, in every interleaving including re-polls that skip registration |
| Shutdown.PendingPrecedesEveryWake | crates/faceauth-daemon/src/supervision.rs:81-101 | A poll decides pending only before any wake-up and with its waker registered, and ready only after a request |
| Shutdown.ExactlyOneFirstRequest | crates/faceauth-daemon/src/supervision.rs:46-54 | However many threads request shutdown exactly one changes the flag, and only that one wakes anybody |
| Liveness.PassedIffTracePasses | crates/faceauth-liveness/src/lib.rs:298-323 | After any admissible trace the machine is in its passed phase if and only if the trace holds a neutral baseline, then a contiguous long-enough action run, then a contiguous neutral recovery run |
| Liveness.SessionPassedIffTracePasses | crates/faceauth-liveness/src/lib.rs:222-323 | The same for the session object: its phase and its reported progress say passed exactly when its accepted trace passes |
| Liveness.ChallengeSession.Begin | crates/faceauth-liveness/src/lib.rs:192-218 | A session starts exactly for an available random action, a valid configuration and a representable deadline |
| Liveness.ChallengeSession.ObserveCancellable | crates/faceauth-liveness/src/lib.rs:253-296 | Accepted exactly when live, open, well measured, fresh and within budget; anything else changes at most the budget counter; accepted times strictly increase inside the window |
| Liveness.ChallengeSession.ObserveAction | crates/faceauth-liveness/src/lib.rs:298-312 | The action phase advances its streak as one step of the machine |
| Liveness.ChallengeSession.ObserveRecovery | crates/faceauth-liveness/src/lib.rs:314-323 | The recovery phase advances its streak as one step of the machine |
| Liveness.ObservationsAreJudged | crates/faceauth-liveness/src/lib.rs:253-296 | The challenge counts exactly the usable pairs of one face, in the window, later than all it counted, sharing no frame with the last, while it is open and has budget; it then remembers that pair, and no face is at once neutral and the action |
| Liveness.RefusalsAreDeserved | crates/faceauth-liveness/src/lib.rs:128-190 | Whatever error an observation is refused with, the fault it names is there |
| Liveness.PassableIffTimeIsLeft | crates/faceauth-liveness/src/lib.rs:71-99 | A valid configuration can be passed by some trace if and only if the minimum action time and the remaining samples fit strictly inside the duration |
| Liveness.SomeValidChallengeCannotBePassed | crates/faceauth-liveness/src/lib.rs:71-99 | There is a configuration that validation accepts and no trace can pass |
| Pairing.CapturePairCancellable | crates/faceauth-capture/src/lib.rs:361-397 | Over nondecreasing streams, success exactly when the least usable pair costs at most the replacement budget; it returns that pair after exactly that many replacements; an exhausted budget has used them all and reports the skew of the last two frames; cancelled exactly when a poll asked for it |
| Pairing.Align | crates/faceauth-capture/src/lib.rs:375-396 | The replacement loop never skips a usable pair |
| Pairing.OlderFrameIsUseless | crates/faceauth-capture/src/lib.rs:361-397 | When the current frames do not align, the older of the two belongs to no usable pair that is still ahead |
| Pairing.AlignedMeet | crates/faceauth-capture/src/lib.rs:361-397 | Usable pairs are closed under taking the earlier frame of each stream |
| Pairing.LeastAlignedExists | crates/faceauth-capture/src/lib.rs:361-397 | Whenever any usable pair exists there is a componentwise least one |
| Similarity.FitIsTheUniqueOptimum | crates/faceauth-inference/src/lib.rs:1507-1565 | A fitted transform has a strictly smaller total squared landmark error than every other rotation, scale and translation, and its residual is within the limit |
| Similarity.FitSucceedsIffSomeTransformFits | crates/faceauth-inference/src/lib.rs:1507-1565 | For non-degenerate landmarks fitting succeeds if and only if some similarity transform at all meets the residual limit |
| Similarity.FitRecoversTheTransform | crates/faceauth-inference/src/lib.rs:1507-1565 | Landmarks that are the exact image of the reference under a transform are fitted by that transform |
| Similarity.ExcessIsTheGap | crates/faceauth-inference/src/lib.rs:1507-1565 | How much worse any transform is than the fitted one, as an explicit sum of squares |
| Similarity.ForwardThenInverse | crates/faceauth-inference/src/lib.rs:1567-1590 | Mapping a point forward and back gives the point |
| Similarity.InverseThenForward | crates/faceauth-inference/src/lib.rs:1567-1590 | Mapping a point back and forward gives the point |
| Similarity.ResidualIsTheRootMeanSquare | crates/faceauth-inference/src/lib.rs:1557-1562 | The residual test compares the root mean square error over the five landmarks with the limit |
| Sampling.InterpolationAxisIsExact | crates/faceauth-inference/src/lib.rs:1695-1712 | The integer axis stands for exactly the clamped half-pixel coordinate, with a weight in 0..1, for every admitted extent: no narrowing conversion falls back |
| Sampling.FloatingAxisDenotes | crates/faceauth-inference/src/lib.rs:1671-1689 | The floating axis stands for the clamped coordinate and stays inside the image |
| Sampling.DenotationIsUnique | crates/faceauth-inference/src/lib.rs:1671-1712 | Two axes for the same coordinate have the same lower neighbour and weight |
| Sampling.SourceChannelIsInRange | crates/faceauth-inference/src/lib.rs:1714-1751 | For every packed image of the four formats no byte outside the buffer is asked for |
| Sampling.YuyvIsTightlyPacked | crates/faceauth-inference/src/lib.rs:1753-1772 | Each YUYV pixel reads the luma byte at twice its row-major index and the chroma bytes of its pair |
| Sampling.ChannelOrder | crates/faceauth-inference/src/lib.rs:1714-1751 | RGB and BGR storage give the same channels in the order the model asks for, and the two target orders are each other's reverse |
| Sampling.NeutralChromaIsGray | crates/faceauth-inference/src/lib.rs:1753-1772 | A YUYV pixel without chroma is gray: black exactly up to luma 16, white exactly from 235, never darker for more luma |
| Sampling.YuyvReads | crates/faceauth-inference/src/lib.rs:1753-1772 | Every channel of a YUYV pixel is computed from three bytes alone: the byte at twice the row-major index, and the second and fourth byte of its pair |
| Sampling.YuyvIsBt601 | crates/faceauth-inference/src/lib.rs:1753-1776 | Every channel of every YUYV pixel is within one level of the clamped value of the real BT.601 matrix for that channel |
| Sampling.YuyvChannelsAreMonotone | crates/faceauth-inference/src/lib.rs:1753-1776 | Red never falls with luma or the red difference and ignores the blue one, blue likewise, and green never rises with either difference |
| Sampling.YuyvPrimaries | crates/faceauth-inference/src/lib.rs:1753-1772 | The BT.601 codes of the three primaries give the saturated colours in red, green, blue order |
| Sampling.BilinearIsConvex | crates/faceauth-inference/src/lib.rs:1646-1664 | Every sample lies between the smallest and the largest of its four source samples |
| Sampling.BilinearDependsOnCoordinates | crates/faceauth-inference/src/lib.rs:1646-1712 | Samples taken through either kind of axis agree whenever the axes stand for the same coordinates |
| TensorLayouts.TensorIndexInRange | crates/faceauth-inference/src/lib.rs:1463-1496 | Every cell of a validated contract has a slot inside the buffer, and all index arithmetic fits 32 bits |
| TensorLayouts.TensorIndexInjective | crates/faceauth-inference/src/lib.rs:1463-1496 | No two cells share a slot |
| TensorLayouts.TensorIndexSurjective | crates/faceauth-inference/src/lib.rs:1463-1496 | Every slot belongs to a cell, so filling all cells writes every slot exactly once |
| TensorLayouts.TensorIndexIsRowMajor | crates/faceauth-inference/src/lib.rs:1463-1496 | The slot of a cell is its row-major place under the tensor's four declared dimensions, in either layout, and those dimensions bound exactly its cells |
| Preprocess.PreprocessImage | crates/faceauth-inference/src/lib.rs:1336-1370 | The whole-image loops return the one tensor whose every cell is the normalized image value at its centre, poll once per row, and fail only for an unpacked image or cancellation |
| Preprocess.PreprocessRegion | crates/faceauth-inference/src/lib.rs:1414-1461 | The same for a face region; exactly the empty or overhanging regions are refused |
| Preprocess.PreprocessAligned | crates/faceauth-inference/src/lib.rs:1593-1644 | The same through the fitted transform; `OutsideImage` exactly when some cell's preimage leaves the unit square |
| Preprocess.FitLandmarks | crates/faceauth-inference/src/lib.rs:1601-1615 | Which failure or transform the digest check, the landmark selection and the fit come to |
| Preprocess.WriteTensorValue | crates/faceauth-inference/src/lib.rs:1463-1496 | One write changes exactly its cell's slot |
| Preprocess.ValidationAdmitsPackedImages | crates/faceauth-inference/src/lib.rs:1372-1412 | Input validation admits exactly the bounded, tightly packed images of a matching colour kind |
| Preprocess.TensorIsDetermined | crates/faceauth-inference/src/lib.rs:1336-1370 | A tensor is determined by where its cells look: equal placements give equal tensors |
| Preprocess.LayoutsAreTransposes | crates/faceauth-inference/src/lib.rs:1463-1496 | The planar and the interleaved tensor of the same image are transposes of each other |
| Preprocess.ImageValueInRange | crates/faceauth-inference/src/lib.rs:1646-1664 | Every value before normalization lies in 0..255 |
| Preprocess.WholeCellSample | crates/faceauth-inference/src/lib.rs:1336-1370 | The integer whole-image axes sample the same value as the floating axes at the cell's centre |
| Preprocess.FullRegionIsWhole | crates/faceauth-inference/src/lib.rs:1414-1461 | Region preprocessing over the full box gives the whole-image tensor |
| Preprocess.UnmovedLandmarksAreWhole | crates/faceauth-inference/src/lib.rs:1593-1644 | Aligned preprocessing of landmarks that sit on the reference points stays inside the image and gives the whole-image tensor |
| Preprocess.ReferencesFitThemselves | crates/faceauth-inference/src/lib.rs:1601-1615 | Reference points of a validated alignment are fitted by the identity |
| Preprocess.FittingIsExplained | crates/faceauth-inference/src/lib.rs:1601-1615 | Unless landmarks or fit are degenerate, a face is fitted exactly when some similarity transform carries its selected landmarks within the residual limit; otherwise the residual error says so |
| Preprocess.PixelsCanBeReadBack | crates/faceauth-inference/src/lib.rs:1463-1496 | Undoing scale and bias on a cell of the tensor gives the image value sampled for it |
| Preprocess.RegionCellsDivideTheBox | crates/faceauth-inference/src/lib.rs:1414-1461 | The cells of a region divide its box evenly, each centre half a cell in and inside the box |
| Preprocess.CropsCompose | crates/faceauth-inference/src/lib.rs:1414-1461 | A box of a box samples where the composed box samples |
| Suppression.SuppressOverlaps | crates/faceauth-inference/src/lib.rs:291-326 | On success the faces come in falling confidence, equal ones in input order, and every missing face overlaps a returned face of at least its confidence by more than the threshold; the limit error exactly when the uncapped kernel is larger than the limit |
| Suppression.KernelIsUnique | crates/faceauth-inference/src/lib.rs:291-326 | There is exactly one set of faces that is closed under keep-unless-covered-by-a-better-kept-face |
| Suppression.GreedyIsKernel | crates/faceauth-inference/src/lib.rs:303-323 | What the loop keeps is that kernel |
| Suppression.KernelSeparatesAndCovers | crates/faceauth-inference/src/lib.rs:310-323 | Retained faces overlap pairwise at most by the threshold; every dropped face exceeds it with a better retained one |
| Suppression.KernelIsBestFirst | crates/faceauth-inference/src/lib.rs:291-326 | The kernel's faces are in falling confidence, and in input order among equals |
| Suppression.KernelKeepsTheMostConfident | crates/faceauth-inference/src/lib.rs:291-326 | In terms of confidences and overlaps alone: kept faces overlap at most by the threshold, and every dropped face exceeds it with a kept one that is more confident, or as confident and earlier |
| Suppression.SuppressionIsIdempotent | crates/faceauth-inference/src/lib.rs:291-326 | Suppressing the result again changes nothing |
| Suppression.OverlapIsSymmetric | crates/faceauth-inference/src/lib.rs:343-351 | Overlap does not depend on the order of the boxes |
| Suppression.OverlapIsARatio | crates/faceauth-inference/src/lib.rs:343-351 | Overlap of decoded boxes lies in 0..1 and is 1 exactly for equal boxes |
| Suppression.OverlapIsOfSharedPoints | crates/faceauth-inference/src/lib.rs:342-351 | The overlap is the share of the union's area that the box of exactly the common points covers |
| ImageStatistics.NewView | crates/faceauth-quality/src/lib.rs:946-975 | A view exists exactly for bounded, tightly packed buffers, and a refusal names the measurement that is off |
| ImageStatistics.ValidGeometryHasARegion | crates/faceauth-quality/src/lib.rs:786-805 | Every validated face box names a nonempty pixel region inside the image, and each of its four edges is the outermost pixel the box touches |
| ImageStatistics.SpanCovers | crates/faceauth-quality/src/lib.rs:786-805 | The pixel span is the smallest one that covers the face box |
| ImageStatistics.RgbLumaIsAMean | crates/faceauth-quality/src/lib.rs:175-194 | The luma of an RGB pixel lies between its darkest and its brightest channel |
| ImageStatistics.RgbLumaIsBt601 | crates/faceauth-quality/src/lib.rs:175-194 | The integer luma of an RGB pixel is within one level of 0.299 red + 0.587 green + 0.114 blue |
| ImageStatistics.LumaIsTheFirstByte | crates/faceauth-quality/src/lib.rs:175-194 | The luma of a gray or YUYV pixel is its own first byte |
| ImageStatistics.ScanLuma | crates/faceauth-quality/src/lib.rs:822-844 | The histogram, the sum and the count are those of exactly the region's pixels, without 32-bit overflow, with one cancellation poll per 4096 pixels |
| Histogram.HistogramPercentile | crates/faceauth-quality/src/lib.rs:890-900 | The percentile is element floor((n-1)*p/100) of the sorted pixels, so at most that share of the others is darker and more is not brighter; the rank product fits 32 bits |
| Histogram.HistogramCountInclusive | crates/faceauth-quality/src/lib.rs:902-904 | The sum of bins is the number of pixels with those levels |
| Histogram.FirstLevelPastRank | crates/faceauth-quality/src/lib.rs:890-900 | The first level whose cumulative count passes a rank is the sorted value of that rank |
| Histogram.PercentilesAreOrdered | crates/faceauth-quality/src/lib.rs:706-719 | A higher percentile is never darker, so the dynamic range does not saturate |
| Laplacian.ScanLaplacian | crates/faceauth-quality/src/lib.rs:846-888 | The one-pass loop returns the two-pass population variance of the interior Laplacians; only a region without interior is too small |
| Laplacian.RunningIsTwoPass | crates/faceauth-quality/src/lib.rs:870-882 | The accumulated deviation equals the sum of squared deviations from the mean |
| Laplacian.RunningStep | crates/faceauth-quality/src/lib.rs:870-873 | One update of count, mean and deviation adds exactly one value |
| Laplacian.VarianceIsBounded | crates/faceauth-quality/src/lib.rs:556-556 | The variance of Laplacian values is nonnegative and at most 1020 squared, so the normalized value is at most the configured ceiling of 16 |
| Laplacian.TheCeilingIsTight | crates/faceauth-quality/src/lib.rs:556-556 | A checkerboard reaches 16 exactly |
| Laplacian.LaplacianOfASpot | crates/faceauth-quality/src/lib.rs:846-888 | Even shade has no Laplacian, and a spot answers four times its height at itself and minus its height at its four neighbours: this fixes the kernel |
| QualityAssessment.BandScoreLaws | crates/faceauth-quality/src/lib.rs:307-317 | A band scores in 0..1, zero exactly outside its outer limits and one exactly inside its ideal range |
| QualityAssessment.LowerBoundScoreLaws | crates/faceauth-quality/src/lib.rs:337-340 | A lower-bound score lies in 0..1, never falls with the value, and meets its end points exactly |
| QualityAssessment.DeviationScoreLaws | crates/faceauth-quality/src/lib.rs:361-365 | A deviation score lies in 0..1, never rises with the deviation, and meets its end points exactly |
| QualityAssessment.AggregateIsConservative | crates/faceauth-quality/src/lib.rs:906-928 | The aggregate lies between the weakest component and min(1, weakest + headroom), and is zero exactly when a component is |
| QualityAssessment.AggregateIsMonotone | crates/faceauth-quality/src/lib.rs:906-928 | Improving any components never lowers the aggregate |
| QualityAssessment.ConservativeAggregate | crates/faceauth-quality/src/lib.rs:906-928 | The loops compute the capped weighted harmonic mean |
| QualityAssessment.Assess | crates/faceauth-quality/src/lib.rs:673-775 | After the admission checks only cancellation can prevent a report; the measurements, components and aggregate are those of the region's pixels, and all of them are in range |
| QualityAssessment.MeasurementsAreInRange | crates/faceauth-quality/src/lib.rs:706-721 | Every measurement lies in the range its calibration is validated against |
| QualityAssessment.ComponentsAreScores | crates/faceauth-quality/src/lib.rs:723-745 | All eight components lie in 0..1 |
| QualityAssessment.ReportIsInRange | crates/faceauth-quality/src/lib.rs:673-775 | In every report on a region of a packed view the normalized variance lies in 0..16, the other measurements in their ranges, all components and the aggregate in 0..1 |
| QualityAssessment.AggregateIsZeroIffRejected | crates/faceauth-quality/src/lib.rs:673-775 | A face scores zero if and only if some measurement reaches its rejection limit, offsets and angles counted by magnitude, and one when all are ideal |
| QualityAssessment.WorseViewsScoreNoMore | crates/faceauth-quality/src/lib.rs:673-775 | A view that is off centre, turned, clipped, flat, blurred, hidden or uncertain at least as much as another never scores more; mirrored poses score alike |
| Sessions.RunsAreWellFormed | crates/faceauth-session/src/lib.rs:123-220 | Every run of the manager hands out transactions one at a time: start, progress, one terminal response |
| Sessions.NothingAfterTheTerminal | crates/faceauth-session/src/lib.rs:284-288 | After a terminal response nothing is handed out until another transaction starts |
| Sessions.EveryResponseHasAStart | crates/faceauth-session/src/lib.rs:123-220 | Every response answers the last start before it, with no terminal response in between |
| Sessions.TimedOutExactlyFromTheDeadline | crates/faceauth-session/src/lib.rs:152-220 | In every run a response within a transaction is `TimedOut` if and only if the deadline has been reached |
| Sessions.TerminalsAnswerTheirOperations | crates/faceauth-session/src/lib.rs:152-220 | In every run a terminal response is Cancelled if and only if a bound cancellation before the deadline emitted it, and carries an unreserved decision if and only if a bound completion asked with that decision before the deadline did: accepted is handed out only to a completion that asked for it |
| Sessions.OthersAnswerTheirOperations | crates/faceauth-session/src/lib.rs:123-220 | Every start and progress response was emitted by an operation that asked for exactly it |
| Sessions.SlotIsItsStart | crates/faceauth-session/src/lib.rs:123-220 | The occupied slot is that of the last accepted start: its transaction, user, connection and deadline |
| Sessions.RefusalsAreExplained | crates/faceauth-session/src/lib.rs:123-220 | Which operations are refused and why: busy, reserved, no transaction, wrong connection or wrong transaction |
| Sessions.DeadlineEndsTheTransaction | crates/faceauth-session/src/lib.rs:152-220 | From the deadline on every correctly bound operation ends the transaction with `TimedOut` |
| Sessions.RefusalChangesNothing | crates/faceauth-session/src/lib.rs:262-275 | A refused operation hands out nothing and changes nothing |
| Sessions.SessionManager.Start | crates/faceauth-session/src/lib.rs:123-143 | One step of the run; a fresh, uncancelled token for the new transaction |
| Sessions.SessionManager.Report | crates/faceauth-session/src/lib.rs:152-164 | One step of the run; every token but the active one stays cancelled |
| Sessions.SessionManager.Complete | crates/faceauth-session/src/lib.rs:174-189 | One step of the run; reserved decisions are refused before anything else |
| Sessions.SessionManager.Cancel | crates/faceauth-session/src/lib.rs:198-212 | One step of the run, so the answer is Cancelled before the deadline and TimedOut from it on; the token is cancelled with the transaction |
| Sessions.SessionManager.Expire | crates/faceauth-session/src/lib.rs:216-220 | One step of the run |
| Authentication.DecidedIffWarranted | crates/faceauth-daemon/src/lib.rs:555-589 | Every decision is given if and only if it is warranted: accepted exactly for well-formed evidence whose quality, presentation-attack scores, challenge and similarity to the user's template all suffice; otherwise the first of these to fall short; an internal error exactly for a missing template or evidence that cannot be judged |
| Authentication.TheFirstShortfallIsNamed | crates/faceauth-core/src/policy.rs:144-172 | The policy names the first requirement to fall short in the order camera, camera, quality, passive liveness, challenge, similarity, and accepts exactly when none does |
| Authentication.PadVerdictMeans | crates/faceauth-daemon/src/lib.rs:203-303 | There is a verdict exactly when each configured role has exactly one score, of its own model; it is positive exactly when each reaches its minimum and no fusion score comes unasked |
| Authentication.EnrolledSamplesAuthenticate | crates/faceauth-daemon/src/lib.rs:158-290 | Round trip: after an enrollment over unit samples, good evidence with the embedding of any of those samples is accepted if the policy asks for no more similarity than the enrollment did |
| Coordinator.AnswerWhileActive | crates/faceauth-daemon/src/lib.rs:614-673 | While a transaction is active no request starts another; only its own bound cancellation ends it |
| Coordinator.AnswersMean | crates/faceauth-daemon/src/lib.rs:614-673 | What each request is answered with, in terms of the occupant, the connection and the authorization: a start begins exactly when authorized and free, a cancellation ends exactly the connection's own transaction |
| Coordinator.BoundaryService.HandleOne | crates/faceauth-daemon/src/lib.rs:614-673 | One request is answered by one response or one rejection, delivered or reported as a write failure |
| Coordinator.BoundaryService.SendProgress | crates/faceauth-daemon/src/lib.rs:702-713 | The session step is taken before the write: a failed write leaves its effect in place |
| Coordinator.BoundaryService.SendDerivedCompletion | crates/faceauth-daemon/src/lib.rs:741-762 | Completes the transaction the evidence is bound to at the evidence's own time, with the decision warranted by the evidence and the template of the slot's user; misbound evidence changes nothing |
| Coordinator.BoundaryService.SendEngineFailure | crates/faceauth-daemon/src/lib.rs:770-785 | Ends the transaction with an internal failure, or `TimedOut` from its deadline on |
| Coordinator.DrainCancelledEngine | crates/faceauth-daemon/src/lib.rs:930-942 | Succeeds exactly when the terminal update arrives within 400 polls and before the engine disconnects, and stops at it |
| Coordinator.HandleUpdate | crates/faceauth-daemon/src/lib.rs:856-903 | What each kind of engine update comes to, including the deadline check against the evidence's time and the progress write that leaves the slot occupied |
| Coordinator.CoordinateStarted | crates/faceauth-daemon/src/lib.rs:836-928 | For any number of rounds: an `Ok` return wrote open responses and then exactly one terminal response last, with the slot free; an error leaves the slot occupied exactly for an undelivered progress response or misbound evidence; if the first progress write fails it is occupied; every response answers an outcome or request seen: a decision other than a time-out, cancellation or failure answers evidence bound to the transaction, completed in time, that warrants it |
| Coordinator.BoundIffFromTheWorker | crates/faceauth-daemon/src/engine.rs:786-791 | Terminal updates whose successful evidence carries the update's transaction are exactly those the worker's screening can send |
| Coordinator.CoordinateConnection | crates/faceauth-daemon/src/lib.rs:806-833 | A whole connection: every attempted write but the last was taken; to a free slot an `Ok` return wrote its one terminal response last, and behind a worker that screens its evidence any return leaves the slot occupied if and only if the start or a progress response was attempted and refused, so never when every write is taken; an occupied slot is freed by its own cancellation alone; a transaction starts only for an authorized request of this connection, and accepted is written only for in-time evidence of that transaction that warrants it |
| Coordinator.TakenMeansFree | crates/faceauth-daemon/src/lib.rs:806-833 | A stream that takes every write has refused neither the start nor a progress response |
| Coordinator.StartedSettles | crates/faceauth-daemon/src/lib.rs:806-833 | From `Started` on, how the rest of the connection settles determines how the whole is served |
| Aggregation.CentroidNormBounds | crates/faceauth-enrollment/src/lib.rs:199-245 | Bounds on the pairwise dot products of unit samples bound the squared norm of their weighted sum from both sides, as the squared weights plus the bound times the cross terms |
| Aggregation.CentroidIsLong | crates/faceauth-enrollment/src/lib.rs:199-245 | For n unit samples with dot products at least c the squared norm is at least the squared weights times 1 + (n - 1) * c for negative c, and at least the squared weights for c of zero or more |
| Aggregation.CombinedDotBounds | crates/faceauth-enrollment/src/lib.rs:199-245 | The weighted sum's dot product with any vector lies between the weighted bounds of the samples' (so the centroid agrees with every sample) |
| Aggregation.TemplateMatchesEverySample | crates/faceauth-enrollment/src/lib.rs:199-245 | The normalized template of unit samples meets the same similarity floor (at least one half) against every sample |
| Simplex.NeverCancelsIffFloorSuffices | crates/faceauth-enrollment/src/lib.rs:199-245 | Up to 16 unit samples above a similarity floor, weighted not all by zero, can never add up to nothing if and only if 2 * (n - 1) * floor exceeds n - 2 |
| Simplex.VertexDots | crates/faceauth-enrollment/src/lib.rs:199-245 | Up to 16 unit vectors with one prescribed common dot product, without taking a root of n |
| Simplex.SimplexCancels | crates/faceauth-enrollment/src/lib.rs:199-245 | Below the floor an admitted set of samples of equal quality adds up to nothing |
| Vectors.DividedIsUnit | crates/faceauth-enrollment/src/lib.rs:305-321 | Dividing by the root of the squared norm leaves a vector of norm one |
| Enrollment.RunKeepsInv | crates/faceauth-enrollment/src/lib.rs:147-191 | Every reachable session keeps parallel vectors within capacity, one digest and dimension, all pairs above the similarity floor, and times spaced by the interval inside the window |
| Enrollment.FailureIsAbsorbing | crates/faceauth-enrollment/src/lib.rs:147-159 | A failed session never changes again and refuses everything |
| Enrollment.EnrollmentSession.Start | crates/faceauth-enrollment/src/lib.rs:94-116 | A session starts exactly for a valid configuration and a representable deadline |
| Enrollment.EnrollmentSession.Observe | crates/faceauth-enrollment/src/lib.rs:147-191 | One observation is one step of the run; every refusal but low quality is final |
| Enrollment.EnrollmentSession.Finish | crates/faceauth-enrollment/src/lib.rs:199-245 | Which of the failures or which template a finished session gives, in the order they are checked |
| Enrollment.EnrollmentSession.Aggregate | crates/faceauth-enrollment/src/lib.rs:219-243 | The in-place sums and division compute the normalized weighted centroid |
| Enrollment.RetainedAreShown | crates/faceauth-enrollment/src/lib.rs:161-191 | The retained samples, qualities, yaws and times are those of exactly the accepted observations, in the order they were shown |
| Enrollment.InvIsReachable | crates/faceauth-enrollment/src/lib.rs:147-191 | Every unfailed state the invariant allows is reached by showing its retained samples to a new session: the invariant is exact |
| Enrollment.ObservationsAreJudged | crates/faceauth-enrollment/src/lib.rs:147-191 | An open session accepts exactly the timely, sharp and genuine observations, leaves itself unchanged exactly at timely blurred ones, and fails at every other |
| Enrollment.RunFailsIffSpoiled | crates/faceauth-enrollment/src/lib.rs:147-159 | A run has failed if and only if some observation was untimely, or sharp and not genuine, for the session the ones before it left |
| Enrollment.RefusalsAreDeserved | crates/faceauth-enrollment/src/lib.rs:161-191 | Whatever error an observation is refused with, the fault it names is there |
| Finishing.ReadyMeansFinishable | crates/faceauth-enrollment/src/lib.rs:199-245 | A ready session of n unit samples cannot fail in aggregation if its configuration is robust: n times the quality floor, and the square root of n * quality^2 * (1 + (n - 1) * (2 * similarity - 1)), both exceed the epsilon of the code |
| Finishing.ReadySessionsFinishIffRobust | crates/faceauth-enrollment/src/lib.rs:199-245 | Whether all reachable ready sessions of n unit samples aggregate is decided exactly by that condition on the configuration; where it fails, a reachable ready session of n samples is refused |
| Finishing.CancellingIsReady | crates/faceauth-enrollment/src/lib.rs:129-191 | The session that is refused meets the whole invariant and is ready |
| Finishing.HalfFloorIsRobust | crates/faceauth-enrollment/src/lib.rs:199-245 | A similarity floor of one half and a non-negligible quality floor are enough for any number of samples |
| Enrollment.TemplateIsValid | crates/faceauth-storage/src/lib.rs:241-260 | A normalized aggregate passes record validation exactly when its digest is well formed |
| Enrollment.RecordTolerance | crates/faceauth-storage/src/lib.rs:241-260 | Record validation admits exactly 1 to 4096 components within a thousandth of unit length under 64 lower-case hexadecimal digits |
| Enrollment.FinishedTemplateMatches | crates/faceauth-enrollment/src/lib.rs:199-245 | A finished template meets the session's similarity floor against every sample |
| EnrollmentAccumulators.EnrollmentAccumulator.Observe | crates/faceauth-daemon/src/enrollment_engine.rs:180-222 | An observation without a positive presentation-attack verdict adds no sample and completes nothing; as long as the loop continues the accumulator's clock is the session's; internal errors are unreachable |
| EnrollmentAccumulators.ReachableRefusals | crates/faceauth-daemon/src/enrollment_engine.rs:180-222 | In the capture loop the capacity and failed-session errors are unreachable and a stale observation is one outside the window |
| EnrollmentAccumulators.AttacksAreNotEnrolled | crates/faceauth-daemon/src/enrollment_engine.rs:180-222 | Only an observation with a positive presentation-attack verdict can add a sample or complete a template |
| EnrollmentAccumulators.AcceptedIsLive | crates/faceauth-daemon/src/enrollment_engine.rs:180-222 | When an observation adds a sample, its verdict was positive, its quality sufficed, and the sample, quality, yaw and time added are its own |
| EnrollmentAccumulators.SkippingIsExact | crates/faceauth-daemon/src/enrollment_engine.rs:180-222 | Inside the window the accumulator skips exactly the observations the session would find stale and fail on |
| EnrollmentAccumulators.DecisionsMean | crates/faceauth-daemon/src/enrollment_engine.rs:180-222 | Which observations continue, complete, exhaust or invalidate an enrollment, in terms of the session they leave; a completion carries that session's template |
| CaptureLaws.SessionsKeepTheFacts | crates/faceauth-daemon/src/observation.rs:128-237 | However a session ends: at most 2*max_observations+32 captured pairs and 32 consumed observations, strictly later one after the other, only after a trace that passes the challenge, each announced twice; six of the challenge's errors are unreachable, and a repeated frame is refused only after a skipped pair; it succeeds on its consumer's word alone |
| CaptureLaws.RoundKeeps | crates/faceauth-daemon/src/observation.rs:168-234 | One round keeps the loop invariant, or ends the session with the facts |
| CaptureLaws.CaptureKeeps | crates/faceauth-daemon/src/observation.rs:170-181 | A captured pair is later than everything the challenge accepted or the consumer was given, and shares no frame with the last accepted pair unless a pair was skipped since |
| CaptureLaws.RefusalsAreReachable | crates/faceauth-daemon/src/observation.rs:240-270 | The challenge is never shown a time it has already passed, so the order, issue-time and completion errors cannot occur |
| CaptureLaws.ProgressBudgetLimitsObservations | crates/faceauth-daemon/src/observation.rs:128-237 | Under a callback that admits n announcements the consumer sees at most (n - 2) / 2 observations |
| CaptureLaws.LimitsAreEarned | crates/faceauth-daemon/src/observation.rs:128-237 | The loop gives up for want of attempts only after 2*max_observations+32 captures or 32 derived observations |
| CaptureLaws.AnnouncementsTellTheTruth | crates/faceauth-daemon/src/observation.rs:240-270 | In every running state the last announced code names what the challenge counts next: a pair counts if and only if its face obeys the code, left being negative yaw |
| CaptureLaws.ObedienceMovesOn | crates/faceauth-daemon/src/observation.rs:240-270 | A face that obeys the announced code in an accepted pair moves the challenge on |
| Observation.ObservationLoop.RunSession | crates/faceauth-daemon/src/observation.rs:128-237 | The loop computes its specification, with the facts about every session |
| Observation.ObservationLoop.Iterate | crates/faceauth-daemon/src/observation.rs:168-234 | One round of the loop is one step of its specification |
| RepeatedFrames.RepeatedFrameIffAFrameRepeats | crates/faceauth-daemon/src/observation.rs:280-297 | A round ends in the challenge's repeated-frame error if and only if the pair is fresh, shows a face, is usable and in the window, and shares a sequence number with the last accepted pair; then a pair without one usable face lies between |
| RepeatedFrames.RepeatedFrameIsReachable | crates/faceauth-daemon/src/observation.rs:280-297 | A whole session of a valid challenge, its pairs each fresh after the one before, that ends in that error |
| EnrollmentRuns.SamplesWereObserved | crates/faceauth-daemon/src/enrollment_engine.rs:180-222 | Every sample of an enrollment fed by the loop is a consumed observation with a positive presentation-attack verdict: its embedding, quality, yaw and time; so there are no more samples than observations |
| EnrollmentRuns.FinishingIsFeasible | crates/faceauth-daemon/src/enrollment_engine.rs:660-705 | An enrollment that ends in a template asked for at most 14 samples and had the time for the challenge and the intervals |
| EnrollmentWitness.CanFinishIffFeasible | crates/faceauth-daemon/src/enrollment_engine.rs:660-705 | Over the capture loop and the 32-update callback a valid enrollment behind a valid challenge can end in a template if and only if it asks for at most 14 samples and there is time for the quickest challenge and the sample intervals |
| EnrollmentWitness.PlanFinishes | crates/faceauth-daemon/src/observation.rs:128-237 | For every feasible policy, a world in which the loop runs from the first pair to the template |
| EnrollmentWitness.SomeValidEnrollmentNeverFinishes | crates/faceauth-enrollment/src/lib.rs:39-53 | A configuration with 15 samples that validation accepts and no world finishes |
| EnrollmentWitness.SomeValidEnrollmentHasNoTime | crates/faceauth-enrollment/src/lib.rs:39-53 | A configuration with three samples that validation accepts and no world finishes, for lack of time |
| Liveness.PassingTakesTime | crates/faceauth-liveness/src/lib.rs:298-323 | No admissible trace passes before one microsecond, the minimum action time and one microsecond per recovery sample have gone by |
| TpmBlob.EncodeBlob | crates/faceauth-storage/src/tpm.rs:217-235 | Encoding succeeds exactly within the 64 KiB bound and lays the parts out as the format says |
| TpmBlob.ReadBlob | crates/faceauth-storage/src/tpm.rs:237-273 | Parsing succeeds exactly on the encodings and returns the encoded parts: a two-way inverse |
| TpmBlob.U32RoundTrip | crates/faceauth-storage/src/tpm.rs:217-273 | Four little-endian bytes and a 32-bit length are the same thing, both ways |
| TpmBlob.BlobIsInjective | crates/faceauth-storage/src/tpm.rs:217-273 | No byte string encodes two different pairs |

## Left out

- Floating-point rounding, overflow to infinity, NaN and the finiteness checks: all numbers are exact reals, so the errors that only those checks raise do not occur.
- Square roots: the fit residual and the record norm are compared squared, and enrollment's normalization receives the root as a parameter that squares to the norm.
- Mutex poisoning, panics, thread spawning, and memory orderings weaker than one global order of steps.
- V4L2 streaming, ONNX sessions and their output decoding, TPM calls, sockets, D-Bus, PolicyKit, files, hashing and JSON: arbitrary answers or absent.
- Random identifiers and the random challenge action: parameters.
- The supervisor's event loop, its wall-clock grace period and its error reporting (`run_until`).
- `Manager1`, the enrollment controller bridge and its relay, and `ManagementCoordinator`, which repeats the transaction manager.
- Production readiness gates and configuration files: only the validated bounds are used, as preconditions.
- User interface, authorization rules, camera discovery, presence and core types: small lookups and filters; the authorization verdict and the loading of a template are arbitrary answers.
- Zeroization of images, tensors and embeddings.
- `process_pair` and `derive_observation` inside the capture loop: their results are arbitrary answers; the operations they call are modelled on their own.
- The detector's and landmark model's output extraction and the derivation of the landmark region.
- Coordinator.CoordinateStarted: does not claim that the loop ends, because that rests on the engine's own progress; it is stated for every number of rounds.
- Suppression.SortCandidates: an insertion sort that stands for the library's stable sort, with the comparator of the source.
- Preprocess.PreprocessImage: the manifest's own validation is a precondition, and the only resize filter is the half-pixel bilinear one.
- Enrollment.EnrollmentSession.Finish: the consumed session object is simply not used again.
- Observation.ObservationLoop.RunSession: the consumer is a function of the observations it has been given, and the pipeline's policy validations other than the challenge's are not repeated.
- Finishing.ReadySessionsFinishIffRobust: the existence of the square root that puts the witness on the unit sphere is its parameter `alpha`.
- EnrollmentWitness.CanFinishIffFeasible: cancellation can end an enrollment at any time; the worker's final look at the cancellation flag, the record check and the storage of the template come after it.
- EngineProtocol.UpdatesNeverBlock: covers the update queue, not the request queue's disconnected state, which `EngineProtocol.SubmissionNeverQueues` covers.
