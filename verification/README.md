# Verified model of the interview platform's deterministic core

A Dafny model of five parts of the repository, with proofs of what they promise. `dafny verify dfyconfig.toml`
checks everything.

| part | files here | source |
|---|---|---|
| Role calibration: how reviewers' corrections become one bounded, evidenced and fair level adjustment | `Thresholds`, `ReviewerWeights`, `CapSettling`, `RowCap`, `WeightedMedian`, `Binomial`, `MedianInterval`, `Aggregate`, `Activation`, `GateLaws` | `server/src/domain/calibration.ts` and the services that call it |
| Speech levelling: gated loudness, phrase corrections, look-ahead limiter, on arrays | `Loudness`, `Shaping`, `ShapingLaws`, `Limiter`, `Levelling`, `LevellingLaws` | `web/src/voiceLevelling.ts` |
| The offline seed run: lanes with queues and pacing, concurrent workers over shared state, the question pipeline | `Scheduler`, `SchedulerLaws`, `LaneProtocol`, `LaneLaws`, `SeedRun`, `SeedRunSafety`, `SeedRunResults`, `SeedRunOutcomes`, `SeedRunTurns`, `SeedRunStandards`, `SeedRunBudget`, `Pipeline`, `PoolLaws` | `server/scripts/library-seed/*` |
| Scanners, editors and indexes | `Json`, `Peers`, `JdSection`, `JdLaws`, `JdText`, `JdBytes`, `CatalogMatch`, `CatalogPlan`, `CatalogLaws` | `server/sim/peers.ts`, `server/src/domain/*` |
| Capture protocols, over every interleaving of their events | `ObserverCapture`, `CaptureLaws`, `Words`, `Recognizer` | `web/src/observerCapture.ts`, `web/src/speech.ts` |

`Numbers`, `RealArith` and `Sorting` hold what these share.

The pattern is the same throughout. Code that loops, fills arrays and maps or updates fields is a method or a class
with the same loops and branches, proved equal to a specification function or a step of a transition system. What the
code promises is then proved about that specification: over every input, or over every run. Numbers are exact reals,
with the source's own slack constants (1e-12 and 1e-9) kept. Awaited calls are events of a transition system that may
happen in any order the promises allow; each event is one stretch of code between two awaits.

## Where the code does less than it says

The model follows the code. In these places the code's comments or settings promise more. For each, the exact condition
under which the promise holds is proved, and an input outside it is given.

- A configured `maxAbsDelta` can be exceeded, because the result is rounded to hundredths after it is clamped. It is
  exactly when it is not below the smallest step and rounds up: 0.994 holds, 0.996 lets an adjustment of 1 through
  (`Activation.TighterBoundHoldsIff`, `Activation.TighterBoundCanBeExceeded`).
- Capping reviewers' weights is said to be applied until it settles; it is applied twelve times. That brings everyone
  under the share, on all rows on which it can be done, exactly for a share of half or more
  (`CapSettling.TwelvePassesSufficeIff`; failing rows for every other share in `CapSettling.TwelvePassesFallShort`). The
  rows counted are capped by number before that, and for them the share does hold
  (`Activation.ActivatedSampleIsBalanced`).
- The limiter's gain is said to be at most what every peak in the look-ahead needs. It is for the sample itself and the
  next one (up to the whole look-ahead at the start of a clip), and for no other (`Limiter.CoversExactlyItsReach`; a
  failing clip in `Limiter.GainAheadOfPeak`). Nothing clips all the same (`Limiter.NothingClips`).
- A call queued on a lane that gets parked is said to fail fast. Every later caller does, but not the one next in line,
  which is released before the failed call parks the lane (`LaneProtocol.ParkedLaneFailsFast`; a run in
  `LaneProtocol.NextInLineSlipsThrough`).
- The runner takes a standard for present when the file has one, the pipeline only when it has two anchors; and a worker
  clears the mark of its pool's standard whether or not it set it. Two workers can therefore create one standard at once.
  They cannot exactly when, for each standard, at most one of its pools may have to create it or none has it in the file
  (`SeedRunStandards.OneCreatorExactly`; failing files in `ThinStandardsHaveTwoCreators` and `MixedFileHasTwoCreators`).
- A fenced reply is cut at the first fence inside its block, also when that stands in a string of the value. Behind a
  preamble without a fence, a value whose strings hold none is given back (`Peers.FencedReplyIsRecovered`); behind one
  without a bracket, any value is exactly when no fenced block holds another one first (`Peers.ReplyIsRecoveredIff`; a
  failing reply in `Peers.FencedReplyCutShort`).
- Syncing a job description twice is not syncing it once when its section has the list on the heading's own line and
  bullets right under it: the second sync takes those bullets out (`JdSection.SyncingTwice`, `JdText.SyncingTextTwice`;
  a failing input in `JdSection.InlineOverBulletsExample`).
- An edited job description keeps everything outside the edit byte for byte exactly when no newline out there stands
  alone in a text that has a pair of carriage return and newline (`JdBytes.BytesOutsideSurviveExactly`; a failing input
  in `JdBytes.MixedEndingsExample`).
- Withdrawing consent, or the server's refusal, does not cut short a flush that is already under way: its last chunk is
  still sent (`ObserverCapture.WithdrawalEndsUploads`; runs in `FlushOutlivesStop` and `FlushOutlivesRefusal`).
- A stop releases the microphone exactly when it was not still being opened: one that is opens afterwards and is never
  closed, although nothing it hears is sent (`ObserverCapture.MicrophoneIsKeptIff`; a run in
  `MicrophoneOpensAfterTheEnd`).

As its documentation says, levelling returns a silent clip as it came; the peak ceiling then holds only if the clip kept
to it already (`Levelling.CeilingHoldsIff`), and a click after the last whole block does not make a clip less silent
(`Levelling.TrailingClickEscapes`). The one caller, `web/src/levelSpeechClip.ts`, keeps the original of such a clip and
never levels it.

## Model

| member | source | states |
|---|---|---|
| `Thresholds.ResolveIsSane` | server/src/domain/calibration.ts:153-177 | Any patch, with missing, non-finite or out-of-range values, resolves to thresholds that satisfy every bound at once, and the share never falls below one over the minimum number of reviewers |
| `Thresholds.ResolveFixesExactlyTheSane` | server/src/domain/calibration.ts:153-177 | Resolving leaves thresholds alone if and only if they already satisfy the bounds |
| `Thresholds.DefaultsAre` | server/src/domain/calibration.ts:153-177 | What is not set to a finite number takes its default: 15 rows, 3 reviewers, two thirds agreement, and so on |
| `ReviewerWeights.SumWeights` | server/src/domain/calibration.ts:204-210 | The loop computes the total weight |
| `ReviewerWeights.SumByReviewer` | server/src/domain/calibration.ts:211-213 | The loop gives each reviewer present, once, the sum of its own rows |
| `ReviewerWeights.ScaleDown` | server/src/domain/calibration.ts:214-224 | One pass in place of rows equals the specified capping pass; an unchanged pass returns the same rows |
| `ReviewerWeights.CapReviewerWeights` | server/src/domain/calibration.ts:204-228 | The loops, with the early exit, equal the specification of repeated passes |
| `ReviewerWeights.PassOf` | server/src/domain/calibration.ts:214-224 | One pass takes a reviewer over the share to share/(1-share) times the weight of the others, which is strictly lower, and leaves every other reviewer where it was |
| `ReviewerWeights.PassIsProduct` | server/src/domain/calibration.ts:218-224 | A pass multiplies all of one reviewer's weight by one factor |
| `ReviewerWeights.PassesScaleEachReviewer` | server/src/domain/calibration.ts:204-228 | After any number of passes each reviewer's rows are the original ones times one factor between 0 and 1: no weight rises and ratios within a reviewer survive |
| `ReviewerWeights.PassesStayAbove` | server/src/domain/calibration.ts:204-228 | No number of passes pushes anyone below any weighting that starts at or under the rows and satisfies the cap |
| `ReviewerWeights.UnchangedIffWithin` | server/src/domain/calibration.ts:214-226 | A pass changes nothing if and only if every reviewer is within the share of the total |
| `ReviewerWeights.LightestIsAFloor` | server/src/domain/calibration.ts:204-228 | With enough reviewers for the share, capping never takes anyone below the weight of the lightest |
| `CapSettling.OnePassIsEnough` | server/src/domain/calibration.ts:195-228 | With a share of half or more one pass brings every reviewer under it, whatever the rows |
| `CapSettling.StaysOver` | server/src/domain/calibration.ts:204-228 | With a smaller share, beside little enough other weight, one of two loud reviewers is over it after any number of passes |
| `CapSettling.TwelvePassesFallShort` | server/src/domain/calibration.ts:195-228 | For every share under half there are rows, with enough reviewers of positive weight, that the capping leaves with a reviewer over the share |
| `CapSettling.TwelvePassesSufficeIff` | server/src/domain/calibration.ts:195-228 | The capping brings every reviewer under the share, on all rows with enough reviewers, if and only if the share is half or more, up to the tolerance |
| `CapSettling.OneThirdCloser` | server/src/domain/calibration.ts:214-224 | Beside one row of weight 1 and under a share of 0.4, a pass takes two equally loud reviewers a third of the way to the weight they settle at |
| `CapSettling.TwelvePassesAreMade` | server/src/domain/calibration.ts:204-228 | The capping makes exactly twelve passes: of that way, two thirds to the twelfth are left |
| `RowCap.CountKept` | server/src/domain/calibration.ts:245-255 | The counting loop gives the rows kept under a cap |
| `RowCap.ComputeRowCap` | server/src/domain/calibration.ts:245-255 | The scan, stopping at its first failure, equals its specification |
| `RowCap.KeptIsConcave` | server/src/domain/calibration.ts:245-255 | The rows kept under a cap grow by ever less as the cap rises |
| `RowCap.RoomFallsAfterFailure` | server/src/domain/calibration.ts:245-255 | Once a cap fails the share test every larger cap fails it too, by ever more |
| `RowCap.ScanFindsLargestFeasible` | server/src/domain/calibration.ts:245-255 | A cap is feasible if and only if it is at most the one the scan returns |
| `RowCap.EnoughReviewersGiveACap` | server/src/domain/calibration.ts:245-255 | With at least 1/share reviewers the scan finds a cap of at least one |
| `RowCap.CappedCountsAreWithinShare` | server/src/domain/calibration.ts:245-255 | Under the returned cap every reviewer's rows are within the share of the rows kept |
| `WeightedMedian.ComputeMedian` | server/src/domain/calibration.ts:258-275 | Filter, sort and running sum equal the specification |
| `WeightedMedian.ScanSplits` | server/src/domain/calibration.ts:265-275 | The scan's result lies between the ends and leaves at most half the weight on each side |
| `WeightedMedian.MedianSplitsTheWeight` | server/src/domain/calibration.ts:258-275 | There is a median exactly when a row is usable; it lies between usable values and at most half the weight is strictly on either side |
| `WeightedMedian.MedianIsAtHalf` | server/src/domain/calibration.ts:258-275 | The median is the value of the row at which half the weight is passed or, where that row makes up exactly half, midway between it and the next |
| `WeightedMedian.MedianMinimisesDeviation` | server/src/domain/calibration.ts:258-275 | No other value has a smaller weighted absolute deviation, within the slack of the half-way test |
| `Binomial.Neighbours` | server/src/domain/calibration.ts:282-293 | Neighbouring binomial coefficients are related as the recurrence uses |
| `Binomial.MassStep` | server/src/domain/calibration.ts:285-292 | Multiplying one point mass by (n-i+1)/i gives the next exactly |
| `Binomial.SumMasses` | server/src/domain/calibration.ts:282-293 | The recurrence adds up to the exact cumulative probability: the sum of C(n,i) over 2 to the n |
| `Binomial.TailsBalance` | server/src/domain/calibration.ts:282-293 | The lower and the upper tail together make all 2 to the n patterns |
| `Binomial.CdfIsMonotone` | server/src/domain/calibration.ts:282-293 | The cumulative probability never falls as the count rises |
| `Binomial.CdfIsProbability` | server/src/domain/calibration.ts:282-293 | It lies between 0 and 1, with both ends exact |
| `Binomial.EveryPatternOnce` | server/src/domain/calibration.ts:282-293 | The list of patterns that coverage is counted over holds each pattern exactly once |
| `Binomial.PatternsAtMost` | server/src/domain/calibration.ts:282-293 | The patterns with at most k values below number the sum of the coefficients up to k |
| `Binomial.PatternsBetween` | server/src/domain/calibration.ts:332-345 | The patterns with between k and n-k values below number all of them less two tails |
| `MedianInterval.ComputeCdfHalf` | server/src/domain/calibration.ts:282-293 | For up to 1000 values the function returns the exact cumulative probability |
| `MedianInterval.ComputeInterval` | server/src/domain/calibration.ts:332-345 | The early-breaking search and the sorted pick equal the specification |
| `MedianInterval.RankIsLargestAllowed` | server/src/domain/calibration.ts:332-345 | A rank is allowed by the confidence if and only if it is at most the one the search stops at |
| `MedianInterval.CoversIffPatternBetween` | server/src/domain/calibration.ts:332-345 | A value not among the observations is inside the interval if and only if between k and n-k of them are below it |
| `MedianInterval.CoverageIsExact` | server/src/domain/calibration.ts:332-345 | The share of equally likely patterns that cover is exactly 1-2*cdf(k-1), and at least the confidence asked for |
| `MedianInterval.IntervalContainsPlainMedian` | server/src/domain/calibration.ts:332-345 | The interval contains the plain median |
| `MedianInterval.PlainMedianIsMidway` | server/src/domain/calibration.ts:520-527 | The plain median is midway between the lower and the upper middle value, which are one for an odd number of values |
| `MedianInterval.IntervalShowsMajority` | server/src/domain/calibration.ts:332-345 | An interval wholly on one side of zero means strictly more than half of the values are on that side |
| `Aggregate.GroupByReviewer` | server/src/domain/calibration.ts:496-504 | The grouping loop files each reviewer's rows, in order, under it alone |
| `Aggregate.BalanceSample` | server/src/domain/calibration.ts:496-518 | The per-reviewer cut of the newest rows equals its specification |
| `Aggregate.BalancedCounts` | server/src/domain/calibration.ts:496-518 | Each reviewer keeps exactly the smaller of its count and the cap, and these add up |
| `Aggregate.WithoutACapOneRowEach` | server/src/domain/calibration.ts:496-518 | Each reviewer keeps as many rows as the cap allows, and exactly one where no cap is feasible |
| `Aggregate.KeepsTheNewest` | server/src/domain/calibration.ts:511-517 | What a reviewer keeps and what is dropped make up its rows, and nothing dropped is newer than anything kept |
| `Aggregate.BalancedAreEligible` | server/src/domain/calibration.ts:417-430 | Every counted observation is paired, not held out, and not older than the window |
| `Aggregate.WindowHolds` | server/src/domain/calibration.ts:420-424 | The rows in the window are exactly those observations, all of them |
| `Aggregate.BalancedInOrder` | server/src/domain/calibration.ts:496-518 | The counted rows are in order of time |
| `Aggregate.NobodyDominatesTheSample` | server/src/domain/calibration.ts:496-518 | With enough reviewers no one supplies more than the share of the counted rows |
| `Aggregate.BalancingKeepsEveryReviewer` | server/src/domain/calibration.ts:496-518 | Balancing leaves every reviewer with something |
| `Aggregate.CollectByReviewer` | server/src/domain/calibration.ts:440-455 | The map filled by the loop gives each reviewer its own capped rows |
| `Aggregate.ComputeAggregate` | server/src/domain/calibration.ts:417-494 | The whole aggregate, its loops included, equals its specification |
| `GateLaws.AgreementIsTheShareOfVotes` | server/src/domain/calibration.ts:456-463 | Agreement times the reviewers whose own median points somewhere is the number of those pointing the way of the median |
| `GateLaws.ContributionsAre` | server/src/domain/calibration.ts:440-455 | There is one contribution for each reviewer, the busiest first: how many rows, their plain median, and the share of the capped weight |
| `GateLaws.CountsAre` | server/src/domain/calibration.ts:464-486 | Seen, in the window, counted, and the reviewers among them: each is the number it says |
| `Activation.BoundDeltaIsBounded` | server/src/domain/calibration.ts:536-544 | The adjustment is at most one level and never against the median |
| `Activation.BoundDeltaIsMonotone` | server/src/domain/calibration.ts:536-544 | A larger median never gives a smaller adjustment |
| `GateLaws.SnappedIsNearest` | server/src/domain/calibration.ts:536-544 | Snapping gives a whole number of steps at most half a step away, ties going up |
| `GateLaws.AdjustmentIs` | server/src/domain/calibration.ts:536-544 | The adjustment is zero exactly when the snapped, clamped median is under the smallest allowed, and otherwise within half a hundredth of it |
| `Activation.TighterBoundHoldsIff` | server/src/domain/calibration.ts:536-544 | The configured maximum bounds every adjustment if and only if it is below the minimum (so all are zero) or survives rounding to hundredths |
| `Activation.TighterBoundCanBeExceeded` | server/src/domain/calibration.ts:536-544 | A configured maximum of 0.996 lets an adjustment of 1 through |
| `Activation.ApplyCalibrationIsMonotone` | server/src/domain/calibration.ts:546-549 | A larger adjustment never gives a lower level, and levels stay within 1 and 5 |
| `GateLaws.MovedLevelIs` | server/src/domain/calibration.ts:546-549 | A moved level is the sum of level and adjustment to the nearest hundredth, held between 1 and 5 |
| `GateLaws.OverallIsTheMean` | server/src/domain/calibration.ts:578-605 | The replayed overall is twenty times the weighted mean of the graded levels, that of the competency moved by the adjustment; there is none exactly when nothing is graded |
| `GateLaws.PassesExactly` | server/src/domain/calibration.ts:607-630 | A snapshot passes exactly when the rounded overall reaches its pass mark |
| `GateLaws.ProjectionCounts` | server/src/domain/calibration.ts:607-636 | The projection counts exactly the snapshots that hold the competency, and those of them that pass before and after |
| `Activation.ProjectPassRate` | server/src/domain/calibration.ts:607-630 | The replay loop equals its specification |
| `Activation.PassesIsMonotone` | server/src/domain/calibration.ts:578-605 | With non-negative weights, who passes under an adjustment passes under any larger one |
| `Activation.ProjectionFollowsDirection` | server/src/domain/calibration.ts:607-636 | The projected movement of the pass rate is never opposite to the adjustment and within rounding of the exact one |
| `Activation.FairnessFailsClosed` | server/src/domain/calibration.ts:658-736 | The fairness check clears exactly when the movement is within its limit and, where statistics are required, they are there and can be read |
| `Activation.OnlyActivationsCarryADelta` | server/src/domain/calibration.ts:782-865 | An adjustment is non-zero if and only if the outcome is activation, and then it is the bounded median, enabled and unflagged |
| `GateLaws.ActivatesIff` | server/src/domain/calibration.ts:782-865 | The gate activates if and only if it is enabled, rows and reviewers suffice, the interval lies wholly on one side of zero and the median not on the other, reviewers agree enough (equality included), the bounded median is not zero, and fairness is not flagged |
| `GateLaws.HoldsBecause` | server/src/domain/calibration.ts:800-865 | Each reason to hold is given exactly when its own condition fails and those asked before it hold |
| `GateLaws.GroupActivatesIff` | server/src/services/calibrationActivation.ts:91-119 | A group activates if and only if its own rows, thresholds and replayed movement meet those conditions |
| `GateLaws.UnanimousGroupIsAdjusted` | server/src/services/calibrationActivation.ts:91-119 | Enough reviewers who all correct by one gap that is not under the smallest step move the level by it, on either side of zero, unless the replay forbids it |
| `GateLaws.BothSidesActivate` | server/src/domain/calibration.ts:782-865 | With the default thresholds fifteen rows of three reviewers activate on each side of zero |
| `Activation.ActivationSides` | server/src/domain/calibration.ts:800-865 | An activation has the sign of the median and an interval wholly on that side of zero |
| `Activation.ActivationIsBoundedEvidencedAndFair` | server/src/services/calibrationActivation.ts:91-119 | Whatever activates is non-zero, at most one level, on enough rows and reviewers, in the direction of strictly more than half of the counted rows, with no dominating reviewer, enough agreement, and a replayed movement within its limit and never opposite |
| `Activation.ActivatedSampleIsBalanced` | server/src/domain/calibration.ts:417-430 | With resolved thresholds and enough reviewers every reviewer is within the share of the counted rows |
| `Activation.ActivationIsConfident` | server/src/domain/calibration.ts:332-345 | Whatever activates on at most 1000 rows rests on an interval whose exact coverage is at least the confidence |
| `Loudness.PrefixSums` | web/src/voiceLevelling.ts:70-71 | The running sums are the sums of squares |
| `Loudness.BlockPowers` | web/src/voiceLevelling.ts:66-81 | Block powers by difference of prefix sums equal the direct mean squares, every index in bounds |
| `Loudness.BlockFits` | web/src/voiceLevelling.ts:72-79 | Every block counted lies inside the clip |
| `Loudness.ComputeGatedLoudness` | web/src/voiceLevelling.ts:83-94 | The two gating loops equal the specification, and never divide by zero |
| `Loudness.GateUnderTheMean` | web/src/voiceLevelling.ts:89-93 | A second gate under the mean of what passed the first keeps something, and never lowers the mean |
| `Loudness.RelativeGateKeepsABlock` | web/src/voiceLevelling.ts:89-93 | The relative gate always keeps a block |
| `Loudness.RelativeGateNeverLowers` | web/src/voiceLevelling.ts:89-93 | The relative gate never lowers the reading |
| `Loudness.SilentIffNoBlockIsLoud` | web/src/voiceLevelling.ts:84-88 | A clip counts as silent exactly when no block is over the absolute gate |
| `LevellingLaws.ReadingIs` | web/src/voiceLevelling.ts:83-94 | The reading is the mean of the blocks that clear both gates, the second 10 dB under the mean of those that clear the first |
| `LevellingLaws.SilenceDoesNotCount` | web/src/voiceLevelling.ts:83-88 | A further block at -50 dB or under leaves the reading as it is |
| `LevellingLaws.SecondsAre` | web/src/voiceLevelling.ts:66-79 | Blocks of 0.4 seconds every 0.1 seconds and a look-ahead of 5 milliseconds, in samples |
| `Shaping.PhraseCorrections` | web/src/voiceLevelling.ts:105-119 | The raw loop and the two in-place smoothing passes equal the specification |
| `Shaping.SmoothForward` | web/src/voiceLevelling.ts:116 | The forward pass, in place, equals the recursive smoothing |
| `Shaping.SmoothBackward` | web/src/voiceLevelling.ts:117 | The backward pass, in place, equals the recursive smoothing |
| `Shaping.CorrectionsAreBounded` | web/src/voiceLevelling.ts:105-119 | Corrections stay within 6 dB through both passes |
| `Shaping.PausesAreHeld` | web/src/voiceLevelling.ts:108-114 | A pause keeps the correction of the block before it |
| `ShapingLaws.ForwardIsMean` | web/src/voiceLevelling.ts:115-116 | The forward pass gives each block the mean of the raw corrections up to it, older ones by geometrically falling shares |
| `ShapingLaws.SharesMakeAWhole` | web/src/voiceLevelling.ts:115-117 | Those shares make up a whole: equal values are left as they are |
| `ShapingLaws.BackwardMirrors` | web/src/voiceLevelling.ts:117 | The backward pass is the forward pass on the clip turned round |
| `ShapingLaws.CorrectionsAreMeans` | web/src/voiceLevelling.ts:105-119 | The corrections are such means from the back of such means from the front of the raw ones, in that order |
| `LevellingLaws.PhraseMovesHalfway` | web/src/voiceLevelling.ts:108-113 | A block that is no pause is taken half the way to the clip's level and at most 6 dB: never up when it is louder, never down when it is quieter |
| `LevellingLaws.PauseKeepsCorrection` | web/src/voiceLevelling.ts:105-114 | A pause keeps the correction before it, and starts from none |
| `Shaping.KnotIsUnique` | web/src/voiceLevelling.ts:125-127 | The walking pointer names the one block whose centre is the last at or before the sample |
| `Shaping.InterpolateStaysWithin` | web/src/voiceLevelling.ts:128-132 | Interpolation stays within the bound of the corrections it joins |
| `Shaping.InterpolateHitsKnots` | web/src/voiceLevelling.ts:128-132 | At a block's centre the correction is exactly the block's |
| `ShapingLaws.BetweenKnotsIsStraight` | web/src/voiceLevelling.ts:126-132 | Between two block centres the correction is on the straight line through theirs; before the first and after the last it is theirs |
| `Shaping.ApplyCorrections` | web/src/voiceLevelling.ts:122-136 | The pointer walk equals the search for each sample on its own |
| `Shaping.CentresIncrease` | web/src/voiceLevelling.ts:75-79 | Block centres increase strictly |
| `Limiter.PopLarger` | web/src/voiceLevelling.ts:161-162 | Popping from the back keeps the queue monotonic with the new index last |
| `Limiter.EvictOld` | web/src/voiceLevelling.ts:163-164 | Dropping from the front leaves the index of the true minimum of the window at the head |
| `Limiter.HeadIsWindowMin` | web/src/voiceLevelling.ts:155-165 | The head of a monotonic queue that covers a window is its minimum |
| `Limiter.SlidingMinimum` | web/src/voiceLevelling.ts:155-165 | The array the deque fills holds the true minimum over each look-ahead window |
| `Limiter.RampIsAtMostNeeded` | web/src/voiceLevelling.ts:166-175 | The moving average of the minima is at most what the sample itself needs, and at most what every sample within reach needs: the next one, or up to the look-ahead at the start of the clip |
| `Limiter.CoversExactlyItsReach` | web/src/voiceLevelling.ts:138-175 | Of the samples in the look-ahead, the average is at most what sample u needs in every clip if and only if u is within that reach |
| `Limiter.GainAheadOfPeak` | web/src/voiceLevelling.ts:138-175 | A clip, for every look-ahead of two or more, in which the gain is more than a peak in the look-ahead needs |
| `Limiter.GainIsSafe` | web/src/voiceLevelling.ts:171-176 | The gain is positive and at most 1, at most what the sample needs, and at most what every sample within reach needs |
| `Limiter.GainIsGreatest` | web/src/voiceLevelling.ts:168-176 | The gain is the greatest that is at most the ramp at each sample and comes back from the sample before no faster than the release |
| `Limiter.NothingClips` | web/src/voiceLevelling.ts:177-180 | The final clamp changes nothing: no sample exceeds the ceiling, grows, or changes sign |
| `Limiter.NoPeakNoChange` | web/src/voiceLevelling.ts:147-153 | A clip without peaks passes the limiter unchanged |
| `Limiter.NeededGains` | web/src/voiceLevelling.ts:146-152 | The loop finds what each sample needs and whether any exceeds the ceiling |
| `Limiter.ApplyGain` | web/src/voiceLevelling.ts:168-180 | The running sum and gain equal their specification sample by sample |
| `Limiter.LimitPeaks` | web/src/voiceLevelling.ts:143-182 | The whole limiter, with its early return, equals its specification |
| `Levelling.MeasureLoudness` | web/src/voiceLevelling.ts:100-102 | Measuring a clip equals gating its block powers |
| `Levelling.LevelSpeech` | web/src/voiceLevelling.ts:189-209 | The whole levelling, into a new array, equals its specification; the input is left alone |
| `Levelling.TrimKeepsTheCaps` | web/src/voiceLevelling.ts:194-205 | The trim's bounds are never inverted, and clip gain plus trim stays within 12 dB |
| `Levelling.CorrectionIsBounded` | web/src/voiceLevelling.ts:195-196 | The correction each sample gets is within 6 dB |
| `Levelling.LevelledSample` | web/src/voiceLevelling.ts:189-209 | Each sample is the original under one phrase correction, the clip gain and the trim that take the measured readings to -20 dB or as far as their bounds let them, and a limiter gain, and is under the ceiling |
| `Levelling.ClipGainLands` | web/src/voiceLevelling.ts:194 | The clip gain lands a clip on -20 dB when it is within 12 dB of it, and otherwise takes it exactly 12 dB closer |
| `Levelling.TrimLands` | web/src/voiceLevelling.ts:198-205 | The trim does the same for the shaped clip, 3 dB at most and within what the clip gain left |
| `LevellingLaws.SteadyClipReads` | web/src/voiceLevelling.ts:83-102 | A steady clip reads as its own level, and as silent exactly from -50 dB down |
| `LevellingLaws.SteadyClipLandsOnTarget` | web/src/voiceLevelling.ts:189-209 | A steady clip leaves at -20 dB, or 12 dB closer to it from further away, sample for sample |
| `LevellingLaws.CorrectionRaises` | web/src/voiceLevelling.ts:133 | A correction above 0 dB raises a sample and one below lowers it, and none changes its sign |
| `Levelling.CeilingHoldsIff` | web/src/voiceLevelling.ts:191-192 | The ceiling holds over the whole output if and only if the clip is not silent or had no sample over the ceiling |
| `Levelling.TrailingClickEscapes` | web/src/voiceLevelling.ts:191-192 | At every rate with a hop of two samples or more, a click over the ceiling after one block of silence comes back as loud as it went in |
| `Scheduler.BackoffGrows` | server/scripts/library-seed/scheduler.ts:46-48 | The wait never shrinks with repeated failures and stays between a minute and half an hour |
| `Scheduler.AssignIsNoneIff` | server/scripts/library-seed/scheduler.ts:93-102 | There is no assignment if and only if no allowed writer is usable or fewer than two lanes are |
| `Scheduler.AssignedLanesAreDistinctAndUsable` | server/scripts/library-seed/scheduler.ts:93-102 | Assigned lanes are pairwise distinct and usable, and the writer is allowed to write |
| `Scheduler.AssignmentsRotateEvenly` | server/scripts/library-seed/scheduler.ts:93-102 | While the lanes stay as they are, over any whole number of rounds of pools each usable writer is assigned once a round |
| `Scheduler.NextWakeIsEarliest` | server/scripts/library-seed/scheduler.ts:105-108 | The wake-up time is the earliest end of a cool-down still ahead on a lane not spent |
| `SchedulerLaws.BackoffIsWait` | server/scripts/library-seed/scheduler.ts:46-48 | The wait is a minute, doubled with each failure in a row, and at most half an hour |
| `SchedulerLaws.AssignmentIs` | server/scripts/library-seed/scheduler.ts:93-102 | The writer is the index-th of the free writers, round and round; critic and tie-break are the first and second free lanes that are not the writer in the order starting at the index; nobody else is passed over |
| `SchedulerLaws.StandsAlone` | server/scripts/library-seed/scheduler.ts:93-102 | Only one lane stands in each such place, so there is no other assignment |
| `LaneProtocol.LaneRecord.constructor` | server/scripts/library-seed/scheduler.ts:63-69 | A lane starts from its saved record with an empty queue |
| `LaneProtocol.LaneRecord.Enqueue` | server/scripts/library-seed/scheduler.ts:111-116 | A caller joins the queue behind whoever is last |
| `LaneProtocol.LaneRecord.Proceed` | server/scripts/library-seed/scheduler.ts:116-121 | A released caller fails fast on a parked lane, sleeps out the pacing gap, or starts its call |
| `LaneProtocol.LaneRecord.WakeUp` | server/scripts/library-seed/scheduler.ts:121-123 | A caller that has slept starts its call and is counted |
| `LaneProtocol.LaneRecord.CallSettled` | server/scripts/library-seed/scheduler.ts:123-127 | A call that settles sets the pacing time and releases the next caller |
| `LaneProtocol.LaneRecord.Release` | server/scripts/library-seed/scheduler.ts:124-127 | Release, on success and failure alike, ends the caller's turn |
| `LaneProtocol.LaneRecord.Limit` | server/scripts/library-seed/scheduler.ts:134-136 | A usage limit parks the lane until its time |
| `LaneProtocol.LaneRecord.Fail` | server/scripts/library-seed/scheduler.ts:138-142 | A failure counts and parks the lane for the back-off |
| `LaneProtocol.LaneRecord.Succeed` | server/scripts/library-seed/scheduler.ts:130-132 | A success clears the failures |
| `LaneProtocol.OnlyTheCurrentMoves` | server/scripts/library-seed/scheduler.ts:111-127 | Only the caller at the head of the queue can move |
| `LaneProtocol.EveryRunIsOrdered` | server/scripts/library-seed/scheduler.ts:111-142 | Every interleaving keeps the queue chained, paced and counted |
| `LaneProtocol.CallsNeverOverlap` | server/scripts/library-seed/scheduler.ts:110-128 | Calls on one lane never overlap, run in arrival order, start at least the gap after the one before ended, and number at most the callers |
| `LaneLaws.EveryRunRemembers` | server/scripts/library-seed/scheduler.ts:110-142 | Over every run the failures, the parking and the pacing of a lane are those its events say: failures since the last success, until when the last limit or failure parks it, the gap after the last turn |
| `LaneLaws.TurnsComeTo` | server/scripts/library-seed/scheduler.ts:116-123 | A caller whose turn comes ends without a call exactly while the lane is parked, else sleeps exactly until the gap is over, else calls at once |
| `LaneProtocol.ParkedLaneFailsFast` | server/scripts/library-seed/scheduler.ts:111-128 | From any ordered state of a parked lane, over every interleaving until it comes back or is parked anew, at most one more call starts, by a caller let through before; every later caller ends its turn without one |
| `LaneProtocol.NextInLineSlipsThrough` | server/scripts/library-seed/scheduler.ts:116-141 | For every gap, a run in which the caller next in line calls a lane that the failed call ahead of it has parked |
| `SeedRun.AddPools` | server/scripts/library-seed/checkpoint.ts:44-48 | The loop over the file equals the specified merge |
| `SeedRun.Runner.constructor` | server/scripts/library-seed/run.ts:43-47 | A run starts with nothing in flight |
| `SeedRun.Runner.NextPool` | server/scripts/library-seed/run.ts:55-64 | The first pool that is pending, not in flight and not waiting for a standard another worker is making |
| `SeedRun.Runner.CountCalls` | server/scripts/library-seed/run.ts:39-41 | The calls of all lanes |
| `SeedRun.Runner.Turn` | server/scripts/library-seed/run.ts:66-96 | One turn of a worker up to its first await equals the step of the transition system |
| `SeedRun.Runner.BeginCall` | server/scripts/library-seed/pipeline.ts:77-82 | A call begun is counted on its lane |
| `SeedRun.Runner.Finish` | server/scripts/library-seed/run.ts:104-118 | A finished pool is written, its standard stored only if none is, and its marks cleared |
| `SeedRun.Runner.FailStage` | server/scripts/library-seed/run.ts:109-118 | A stage error counts an attempt unless a lane was limited, and fails the pool at its last one |
| `SeedRun.Runner.SettleLane` | server/scripts/library-seed/scheduler.ts:130-142 | A call that succeeds clears its lane's failures, a usage limit parks the lane until its time, and a failed call counts a failure and parks it for the back-off |
| `SeedRun.Runner.SkipCall` | server/scripts/library-seed/pipeline.ts:84-89 | A call given up on a parked lane leaves the lane parked until the time it was refused for, is not counted, and ends the attempt without counting it |
| `SeedRun.Runner.TakeReply` | server/scripts/library-seed/pipeline.ts:77-122 | A call's end is told to its lane first, then it moves the worker to its next stage or ends the attempt |
| `SeedRunSafety.StepKeepsExclusion` | server/scripts/library-seed/run.ts:66-118 | Every step keeps a pool in flight in at most one worker, working from its current progress |
| `SeedRunSafety.StepKeepsSafe` | server/scripts/library-seed/run.ts:66-121 | Every step keeps that, and that workers leave normally only when nothing is pending |
| `SeedRunResults.WithPoolsAddsAndKeeps` | server/scripts/library-seed/checkpoint.ts:43-48 | Every pool of the file is known afterwards, known ones are untouched, new ones start pending |
| `SeedRunResults.EveryRunIsAccounted` | server/scripts/library-seed/run.ts:49-53 | Over every run the state is the replay of its updates, finished pools never reopen, standards are never overwritten, and attempts never pass the maximum |
| `SeedRunOutcomes.EveryRunGrows` | server/scripts/library-seed/run.ts:97-118 | Over every run a pool's accepted and rejected items are its own at the start followed by those of its finished attempts, its errors grow by the reason of each failed one, its attempts by those that no lane limit ended, and its status follows from the last of them |
| `SeedRunOutcomes.StepGrows` | server/scripts/library-seed/run.ts:104-113 | One event adds to each pool exactly what it says and nothing to any other |
| `SeedRunOutcomes.SettledGainsNothing` | server/scripts/library-seed/run.ts:55-57 | A pool that is done or failed gains nothing |
| `SeedRunOutcomes.StepKeepsCreated` | server/scripts/library-seed/pipeline.ts:106-122 | A worker carries a standard exactly if it asked for one and was answered, and it is that answer |
| `SeedRunOutcomes.StepStores` | server/scripts/library-seed/run.ts:49-53 | Stored standards change only when a worker that carries one finishes its pool, under the pool's key and only if none is there |
| `SeedRunTurns.StoppedOrSpent` | server/scripts/library-seed/run.ts:66-71 | A worker goes home when told to stop, or when the calls made reach the maximum |
| `SeedRunTurns.NothingToTake` | server/scripts/library-seed/run.ts:72-77 | Without a pool to take it goes home if none is in flight and comes back later otherwise |
| `SeedRunTurns.TakesTheFirst` | server/scripts/library-seed/run.ts:78-95 | With one, it takes the first with the lanes assigned to it, or waits, or gives up exactly when no lane comes back in time |
| `SeedRunTurns.RepliesLeadOn` | server/scripts/library-seed/pipeline.ts:180-260 | What each kind of reply leads to at each stage: the next one, or the end of the attempt |
| `SeedRunTurns.SkippedLeadsOn` | server/scripts/library-seed/pipeline.ts:84-89 | A refused call ends the attempt, but in the tie-break, which goes on without it |
| `SeedRunTurns.FailuresPark` | server/scripts/library-seed/scheduler.ts:138-142 | Failures in a row are counted and park the lane for a minute, two, four, up to half an hour from the last |
| `SeedRunTurns.LanesAreTold` | server/scripts/library-seed/pipeline.ts:77-96 | The lane asked is told how its call ended, and no other lane is |
| `SeedRunStandards.OneCreatorExactly` | server/scripts/library-seed/run.ts:55-118 | For a file of distinct pools: no run, from any saved progress, stored standards, lanes and options, has two workers creating one standard if and only if, for each standard, at most one of its pools has a missing or too thin one in the file, or none of its pools has any |
| `SeedRunStandards.ConsistentFileHasOneCreator` | server/scripts/library-seed/run.ts:55-118 | The protecting half, for any file: over every run at most one worker is creating the standard of any key |
| `SeedRunStandards.InconsistentFileHasTwoCreators` | server/scripts/library-seed/run.ts:58-60 | The failing half: every other file of distinct pools has a run that reaches two creators, by a thin standard that neither marks its key nor minds the mark, or by a pool that gives up a key it never took |
| `SeedRunStandards.ThinStandardsHaveTwoCreators` | server/scripts/library-seed/pipeline.ts:107 | Two pools that both have a standard of one anchor in the file: the runner takes it for one that is there, the pipeline for one to create |
| `SeedRunStandards.MixedFileHasTwoCreators` | server/scripts/library-seed/run.ts:115-118 | Two pools without a standard and one with it, under one key, reach two creators |
| `SeedRunStandards.DisagreeingFileCanBeSafe` | server/scripts/library-seed/run.ts:58-60 | One pool without a standard and one with it never do, although they disagree |
| `SeedRunResults.CompleteMeansNothingPending` | server/scripts/library-seed/run.ts:123-125 | A run that ends "complete" leaves every pool done or failed |
| `SeedRunResults.ResumeIsSafe` | server/scripts/library-seed/checkpoint.ts:43-55 | Resuming from the state of any run, with any file, starts accounted for and keeps every pool's progress |
| `SeedRunBudget.EveryRunKeepsBudget` | server/scripts/library-seed/run.ts:66-119 | Calls made plus calls still allowed for never pass the bound |
| `SeedRunBudget.EveryRunKeepsLaneBudget` | server/scripts/library-seed/run.ts:66-119 | The same for one lane |
| `SeedRunBudget.CallsAreBounded` | server/scripts/library-seed/run.ts:66-119 | With C workers, all calls stay within the larger of their start and maxCalls-1+4C, and one lane's within the larger of its start and maxCallsPerLane-1+2C |
| `Pipeline.ParseVerdicts` | server/scripts/library-seed/pipeline.ts:148-161 | The map filled by the loop gives each question the first well-formed verdict carrying its number |
| `Pipeline.VerdictIsItsOwn` | server/scripts/library-seed/pipeline.ts:147-161 | A question has a verdict exactly when the reply carries one under its number, and it is one of those |
| `Pipeline.OrderDoesNotMatter` | server/scripts/library-seed/pipeline.ts:147-161 | Verdicts listed in another order mean the same |
| `Pipeline.ParseQuestions` | server/scripts/library-seed/pipeline.ts:125-143 | Each item becomes a question or a rejection, once; a reply with no array is one rejection |
| `Pipeline.LocalChecks` | server/scripts/library-seed/pipeline.ts:196-215 | Each question becomes a candidate or a rejection at the first check that stops it, once |
| `Pipeline.SortByCritic` | server/scripts/library-seed/pipeline.ts:217-227 | Each candidate is passed, disputed or rejected on its own verdict, once |
| `Pipeline.BreakTies` | server/scripts/library-seed/pipeline.ts:229-243 | Each dispute is saved exactly when the second lane's own verdict does not fail it, also when that lane does not answer |
| `Pipeline.Assemble` | server/scripts/library-seed/pipeline.ts:245-258 | Each passed judgement becomes a record or a format rejection, once |
| `Pipeline.RunPool` | server/scripts/library-seed/pipeline.ts:180-260 | The pool fails exactly on the first failing call before the tie-break; otherwise every record earned its place, every rejection is the item's fate, and the items of the reply are conserved |
| `Pipeline.PoolIsAccounted` | server/scripts/library-seed/pipeline.ts:180-260 | What the stages hand on adds up: nothing lost, nothing doubled, every item where its fate puts it |
| `Pipeline.EachItemEndsOnce` | server/scripts/library-seed/pipeline.ts:192-259 | In a completed pool each item is recorded or rejected exactly once, and recorded if and only if its fate is to be kept |
| `Pipeline.KeptIsEarned` | server/scripts/library-seed/pipeline.ts:194-258 | A kept item passed lint and both duplicate checks, and a judge approved it under its own number: the critic, or, where the critic alone failed it, the tie-break |
| `PoolLaws.JudgesAreNotTheWriter` | server/scripts/library-seed/pipeline.ts:180-260 | On lanes the scheduler assigned, each record's verdicts stand in the replies of a critic and, where there is a second one, of a third lane that are not the lane whose reply holds its question |
| `PoolLaws.RecordIsAttested` | server/scripts/library-seed/pipeline.ts:217-258 | A record's critic verdict stands in the critic lane's reply under the record's own number, and its second verdict, if any, in the tie-break lane's |
| `PoolLaws.FateIsRuled` | server/scripts/library-seed/pipeline.ts:192-259 | Each item's fate follows from the item, the local checks and what those replies say under its own numbers, without the stages |
| `PoolLaws.RulingIsUnique` | server/scripts/library-seed/pipeline.ts:192-259 | There is one such ruling on each item |
| `PoolLaws.PoolIsRuled` | server/scripts/library-seed/pipeline.ts:180-260 | A completed pool records exactly the items ruled to be kept and rejects every other by its own reason |
| `PoolLaws.OnlyAssignedLanesMatter` | server/scripts/library-seed/pipeline.ts:180-260 | Replies that agree on the assigned lanes and stages give the same result: nothing another lane says matters |
| `PoolLaws.PoolFailsIff` | server/scripts/library-seed/pipeline.ts:77-122 | The pool fails exactly on an unusable or missing answer before the tie-break, and counts as limited exactly when that call was |
| `PoolLaws.AnchorsAre` | server/scripts/library-seed/pipeline.ts:106-122 | The anchors are the file's if it has two, else the stored ones, else those the writer wrote |
| `PoolLaws.WrittenStandardIsHandedBack` | server/scripts/library-seed/pipeline.ts:106-122 | A standard is handed back exactly if it had to be written, and it is the one written |
| `Pipeline.FateIgnoresOrder` | server/scripts/library-seed/pipeline.ts:147-161 | Reordering the judges' replies changes no item's fate |
| `Peers.MatchingClose` | server/sim/peers.ts:216-238 | Returns the place where the bracket is closed, or nothing when no place closes it |
| `Peers.ClosedOnce` | server/sim/peers.ts:216-238 | A bracket is closed in one place at most |
| `Peers.MatchIsBalanced` | server/sim/peers.ts:216-238 | Between the brackets of a match the depth stays positive outside strings, and is back to zero after it |
| `Peers.ValuePasses` | server/sim/peers.ts:216-238 | Every value of the RFC 8259 grammar is read through at any depth without closing anything |
| `Peers.ContainerClosesAtItsEnd` | server/sim/peers.ts:216-238 | Scanning from the first bracket of any object or array text returns exactly its last character, whatever comes before and after |
| `Peers.FirstBalancedValue` | server/sim/peers.ts:200-213 | Returns the value that starts first, or nothing when none starts anywhere |
| `Peers.FirstValueIsUnique` | server/sim/peers.ts:200-213 | There is one first value at most |
| `Peers.ValueIsFirst` | server/sim/peers.ts:200-213 | After a preamble without brackets the value is the first one, whatever follows it |
| `Peers.FencedBlocks` | server/sim/peers.ts:191-197 | The matching loop collects the bodies of the fenced blocks |
| `Peers.BodyStartsAt` | server/sim/peers.ts:193 | A block's body starts right after its language name and white space |
| `Peers.ExtractJson` | server/sim/peers.ts:180-189 | The value of the first fenced block holding one, or of the whole text when none does; nothing for an empty reply |
| `Peers.PlainReplyIsRecovered` | server/sim/peers.ts:167-189 | A fence-free reply with a bracket-free preamble gives back its value, whatever follows |
| `Peers.FencedReplyIsRecovered` | server/sim/peers.ts:167-189 | A fenced value none of whose strings holds three backticks is given back exactly, whatever brackets the preamble holds and whatever follows it in the block and after it, if the preamble neither holds a fence nor ends in a backtick |
| `Peers.ReplyIsRecoveredIff` | server/sim/peers.ts:167-213 | After a preamble without brackets, fenced or not, a value is given back if and only if no fenced block of the reply holds a value or the first that does holds this one first |
| `Peers.FencedQuoteIsCutShort` | server/sim/peers.ts:191-213 | A fenced object with three backticks in a string after a container: the container is given back for the object |
| `Peers.FencedReplyCutShort` | server/sim/peers.ts:191-213 | A reply whose object has [1] and three backticks, and from which [1] is read |
| `JdSection.FindTechStackSection` | server/src/domain/jdTechStackSection.ts:29-46 | The loops find exactly the specified section |
| `JdSection.SectionIsUnique` | server/src/domain/jdTechStackSection.ts:29-46 | The first opening line and the extent under it determine the section |
| `JdLaws.SectionIs` | server/src/domain/jdTechStackSection.ts:29-46 | The section starts at the first line that is a heading with a colon, one with its list on it, or a bare one over a bullet; it ends with the unbroken bullets under it, or with the line itself |
| `JdLaws.HeadingsExample` | server/src/domain/jdTechStackSection.ts:29-46 | Five texts and their sections: a sentence about the stack and a bare heading over none are no section |
| `JdSection.SyncJdTechStack` | server/src/domain/jdTechStackSection.ts:71-99 | The loop and the reassigned tail equal the specified rewrite |
| `JdSection.OutsideSurvives` | server/src/domain/jdTechStackSection.ts:71-99 | An edit replaces one stretch: the section, trailing blank lines on insertion, or the section with one blank line on removal; every other line comes through in order |
| `JdLaws.KindIs` | server/src/domain/jdTechStackSection.ts:71-99 | A section is inserted exactly if there is none and the stack is not empty, removed exactly if there is one and it is, replaced exactly if it does not read as the stack |
| `JdLaws.InsertedBelowTheText` | server/src/domain/jdTechStackSection.ts:77-84 | A new section stands one blank line under the last line with text, and ends the document |
| `JdLaws.RemovedWithItsBlank` | server/src/domain/jdTechStackSection.ts:87-92 | A removed section takes the blank line under it along exactly if another stands above it |
| `JdLaws.WordingExample` | server/src/domain/jdTechStackSection.ts:48-54 | The lines written for a stack of two: heading, name, phrase and need |
| `JdSection.WrittenSection` | server/src/domain/jdTechStackSection.ts:29-46 | The section written is found again where it was written, with any bullets right under it |
| `JdSection.InlineIsReplacedAgain` | server/src/domain/jdTechStackSection.ts:37-43 | After an inline section over bullets a second sync takes out the bullets left behind |
| `JdSection.InlineOverBulletsExample` | server/src/domain/jdTechStackSection.ts:37-43 | Two lines and a reader for which this happens |
| `JdSection.SyncingTwice` | server/src/domain/jdTechStackSection.ts:71-99 | With a non-empty stack a second sync changes nothing if and only if the section replaced was not inline over bullets |
| `JdSection.SyncingSettles` | server/src/domain/jdTechStackSection.ts:71-99 | Two syncs always settle the document |
| `JdSection.SyncedShowsTheStack` | server/src/domain/jdTechStackSection.ts:71-99 | After a sync the section reads as the stack, unless bullets were left under an inline one |
| `JdBytes.BytesOutsideSurviveExactly` | server/src/domain/jdTechStackSection.ts:9-13 | The edited text is the bytes before the edit, the new text and the bytes after it if and only if no newline outside the edit stands alone in a text that has a pair; a text left unchanged comes through as it is |
| `JdBytes.MixedEndingsExample` | server/src/domain/jdTechStackSection.ts:72-80 | A text whose first newline, outside the edit, is rewritten |
| `JdText.JoinByPairs` | server/src/domain/jdTechStackSection.ts:72-73 | Joining by pairs adds exactly one character for each newline standing alone |
| `JdText.JoinByNewlines` | server/src/domain/jdTechStackSection.ts:72-73 | Joining by newlines drops exactly one character for each pair |
| `JdText.SplitOfJoin` | server/src/domain/jdTechStackSection.ts:73 | Lines come back from the text they make, but that a newline takes a carriage return before it for its own |
| `JdText.SyncingTextTwice` | server/src/domain/jdTechStackSection.ts:71-99 | Syncing the text again leaves it as it is if and only if the section was not inline over bullets |
| `CatalogMatch.Add` | server/src/domain/catalogMatch.ts:49-53 | A role joins the list of a key once, other keys are untouched, and the empty key is ignored |
| `CatalogMatch.BuildCatalogIndex` | server/src/domain/catalogMatch.ts:47-59 | The loops give each key exactly the roles that carry it, and know exactly the keys some role carries |
| `CatalogMatch.CarriersAre` | server/src/domain/catalogMatch.ts:34-37 | The roles listed for a key carry it, and every role that carries it is listed by id |
| `CatalogMatch.DistinctRoles` | server/src/domain/catalogMatch.ts:61-65 | Every role of the lists, once by id |
| `CatalogMatch.TargetRole` | server/src/domain/catalogMatch.ts:74-77 | The role returned is the only one named by the deciding hits, those of the title or, without any, of the alternates; none is returned exactly when they name nobody or several |
| `CatalogMatch.MatchOccupation` | server/src/domain/catalogMatch.ts:98-106 | Matching by the index equals a direct scan: unmatched with no owner, the one owner, or ambiguous with several |
| `CatalogMatch.UnknownTitles` | server/src/domain/catalogMatch.ts:79-91 | The loop with its early exit returns the capped list of new titles |
| `CatalogMatch.FreshAreNewAndDistinct` | server/src/domain/catalogMatch.ts:79-91 | New titles are unknown and distinct by key, and every title is empty, known or covered |
| `CatalogMatch.OffersAreNewAndWithinCap` | server/src/domain/catalogMatch.ts:79-91 | The titles offered are new, distinct and within a cap of at least one, and only the cap leaves any out |
| `CatalogPlan.ConfidenceFallsWithRank` | server/src/domain/catalogProposalPlan.ts:36-40 | An alias never ranks above an earlier one, and confidences stay within their bounds |
| `CatalogLaws.ConfidenceIs` | server/src/domain/catalogProposalPlan.ts:36-42 | 0.85 less two hundredths a rank, and 0.6 from the thirteenth on; web titles have 0.6 |
| `CatalogLaws.DomainIs` | server/src/domain/catalogProposalPlan.ts:81-88 | The domain of an alias is that of the first role with the matched id, and none without one |
| `CatalogPlan.DraftsForCandidate` | server/src/domain/catalogProposalPlan.ts:77-101 | Aliases of the role the direct scan gives, one new role, or nothing |
| `CatalogPlan.AcceptDrafts` | server/src/domain/catalogProposalPlan.ts:120-129 | The loop accepts the first acceptable draft of each key and counts the rest |
| `CatalogPlan.AcceptedAreDistinctAndNew` | server/src/domain/catalogProposalPlan.ts:111-129 | Accepted drafts are distinct by key and neither known nor blocked, and no acceptable title goes unproposed |
| `CatalogLaws.AcceptedExactly` | server/src/domain/catalogProposalPlan.ts:106-129 | A draft is accepted if and only if its words are good, unknown and unblocked, it has a role, or a domain and enough confidence, and no such draft before it has its key |
| `CatalogPlan.OfferedAliasesAreAccepted` | server/src/domain/catalogProposalPlan.ts:77-129 | Aliases that are new, distinct, unblocked and well worded are all accepted |
| `CatalogPlan.NewAliasBelongsToItsRoleAlone` | server/src/domain/catalogMatch.ts:47-59 | Adding a title no role carried gives it to its role alone and moves no other title |
| `CatalogPlan.QueueHoldsItsBest` | server/src/domain/catalogProposalPlan.ts:138-148 | The rows split into at most the cap kept and the rest removed, and nothing kept ranks after anything removed |
| `CatalogLaws.KeptAreWorthMore` | server/src/domain/catalogProposalPlan.ts:138-148 | What is kept ranks no lower: aliases before roles, then the surer, then the older |
| `ObserverCapture.Capture.constructor` | web/src/observerCapture.ts:66-74 | The loop starts listening for nothing but its device |
| `ObserverCapture.Capture.Halt` | web/src/observerCapture.ts:78-85 | The first halt stops the loop and its timer; a later one does nothing |
| `ObserverCapture.Capture.MicrophoneOpened` | web/src/observerCapture.ts:114-119 | The microphone opens, or is reported missing |
| `ObserverCapture.Capture.GiveUp` | web/src/observerCapture.ts:92-96 | A missing device is reported, then the loop halts |
| `ObserverCapture.Capture.ServerTick` | web/src/observerCapture.ts:104-107 | A tick asks for the next chunk from where this one began |
| `ObserverCapture.Capture.AfterNext` | web/src/observerCapture.ts:107-112 | A chunk returned moves the start and, unless stopped, is sent for exactly its window |
| `ObserverCapture.Capture.Settle` | web/src/observerCapture.ts:87-90 | A refusal halts the loop |
| `ObserverCapture.Capture.BrowserTick` | web/src/observerCapture.ts:149-153 | A tick stops the recogniser and is scheduled again, unless stopped |
| `ObserverCapture.Capture.OnFinal` | web/src/observerCapture.ts:123-134 | Recognised text moves the start and is sent for its window unless stopped without flush; the recogniser restarts unless stopped |
| `ObserverCapture.Capture.StopNow` | web/src/observerCapture.ts:168-187 | A stop halts, or begins a flush; once stopped it does nothing |
| `ObserverCapture.Capture.AfterFinish` | web/src/observerCapture.ts:174-179 | The last chunk is sent for exactly its window |
| `ObserverCapture.Capture.AfterFlush` | web/src/observerCapture.ts:188-189 | The end of a flush is reported |
| `ObserverCapture.EveryRunKeepsInvariant` | web/src/observerCapture.ts:66-192 | Every interleaving keeps uploads ordered, times consistent and endings counted |
| `ObserverCapture.UploadsNeverOverlap` | web/src/observerCapture.ts:66-192 | Uploaded windows are pairwise disjoint and in time order over every run |
| `CaptureLaws.RunningLoopSendsEveryChunk` | web/src/observerCapture.ts:66-192 | Over every run, until it stops the loop has sent exactly the chunks that held anything, each from the end of the one before to its own, whichever way it listens |
| `CaptureLaws.StepSends` | web/src/observerCapture.ts:66-192 | What one event sends, from where, also while a flush is under way |
| `CaptureLaws.EveryRunKeepsTicking` | web/src/observerCapture.ts:98-155 | Until it stops, a loop with a microphone has either its timer set or a chunk asked for, and one with a recogniser its timer |
| `CaptureLaws.EveryRunHasItsDevice` | web/src/observerCapture.ts:92-166 | Until it stops, the loop is opening its device, has it, or is about to report that it cannot, and one of these at a time |
| `CaptureLaws.DevicesAre` | web/src/observerCapture.ts:92-119 | A microphone that opens is there and one that does not is given up; nothing else changes the devices |
| `CaptureLaws.StopIsReportedAs` | web/src/observerCapture.ts:78-96 | The loop is stopped by a stop, a refusal or a missing device, and that is the reason it reports |
| `CaptureLaws.EveryRunReportsWhy` | web/src/observerCapture.ts:66-192 | Over every run: what is reported, once, is why the loop was stopped, and nothing is reported before that |
| `CaptureLaws.StopTakesTheLastWords` | web/src/observerCapture.ts:168-191 | A stop cancels the timer; a flush asks for the chunk being recorded, or waits for the recogniser's last words, and nothing else flushes |
| `CaptureLaws.StaysStopped` | web/src/observerCapture.ts:66-192 | Nothing starts a stopped loop again |
| `ObserverCapture.EndIsReportedOnce` | web/src/observerCapture.ts:66-192 | "stopped" is reported at most once, and exactly once when the loop has come to rest |
| `ObserverCapture.NothingAfterTheEnd` | web/src/observerCapture.ts:66-192 | Once stopped with nothing more to take no upload ever begins |
| `ObserverCapture.WithdrawalEndsUploads` | web/src/observerCapture.ts:9-13 | After a stop without flush, or a refusal, an upload can still begin if and only if a flush was under way with its last words still to take |
| `ObserverCapture.RestReleasesMicrophone` | web/src/observerCapture.ts:78-119 | However the loop was stopped, once it is at rest it holds the microphone if and only if that was being opened at the stop and has opened since |
| `ObserverCapture.MicrophoneIsKeptIff` | web/src/observerCapture.ts:78-119 | A stop can leave the microphone open for good if and only if it was being opened then |
| `ObserverCapture.MicrophoneOpensAfterTheEnd` | web/src/observerCapture.ts:78-119 | A run whose end is reported before the microphone opens, and stays open |
| `ObserverCapture.FlushOutlivesStop` | web/src/observerCapture.ts:168-179 | A run in which a chunk is uploaded after a stop without flush |
| `ObserverCapture.FlushOutlivesRefusal` | web/src/observerCapture.ts:78-90 | A run in which a chunk is uploaded after a refusal |
| `Words.WordsApart` | web/src/speech.ts:175 | Words on either side of a space are the words of the whole |
| `Words.WordsOfJoin` | web/src/speech.ts:175 | Joining and trimming keeps the words of the parts, in order, and adds none |
| `Recognizer.SpeechRecognizer.constructor` | web/src/speech.ts:154-173 | A recogniser starts with nothing heard |
| `Recognizer.SpeechRecognizer.OnResult` | web/src/speech.ts:178-189 | Finalised transcripts are appended, interim ones replaced, and the restart count cleared |
| `Recognizer.SpeechRecognizer.OnError` | web/src/speech.ts:191-205 | A fault marks capture dead; silence and our own abort do not |
| `Recognizer.SpeechRecognizer.OnEnd` | web/src/speech.ts:207-243 | A session end restarts, asks about the silence, reports capture dead, or closes the turn |
| `Recognizer.SpeechRecognizer.Start` | web/src/speech.ts:246-250 | A new turn starts from nothing |
| `Recognizer.SpeechRecognizer.Stop` | web/src/speech.ts:251-252 | A stop marks the turn as finishing |
| `Recognizer.TextIsEverythingHeard` | web/src/speech.ts:175-176 | The text on show at any moment of any run is everything said since the turn began, and what the session has not finalised |
| `Recognizer.EveryRunHoldsWhatWasSaid` | web/src/speech.ts:154-189 | Over every run the buffers hold the words said since the turn began, across restarts |
| `Recognizer.FinalIsEverythingSaid` | web/src/speech.ts:233-242 | The text handed over when a turn closes is everything said since it began, and what the last session had not finalised |
| `Recognizer.FinalisedIsSaid` | web/src/speech.ts:154-189 | Every finalised transcript is in what was said, once and in order, and nothing else is unless a session ended with something not finalised |
| `Recognizer.OnlyStopOrFaultCloses` | web/src/speech.ts:207-243 | An end hands text over if and only if a stop was asked for since the last end and start, or since the start there was a fault: an error other than "no-speech" and "aborted", or twenty restarts used up. Never because of silence |
| `Recognizer.EveryRunRemembers` | web/src/speech.ts:154-252 | Over every run the flags and counts are those the events say: a stop, a fault, the time of the last words, the restarts since |
| `Recognizer.FaultStandsIff` | web/src/speech.ts:191-228 | A fault stands exactly when one came since the turn was started |
| `Recognizer.EndOfOpenTurn` | web/src/speech.ts:207-231 | Without stop or fault an end less than 60 seconds after the last words, with fewer than 20 restarts, restarts and says nothing; any other asks about the silence or reports the fault, and the words are kept |
| `Recognizer.EndOfClosedTurn` | web/src/speech.ts:233-242 | With one it hands over the text, ends, and starts from nothing |
| `Recognizer.OtherCalls` | web/src/speech.ts:178-205 | A result shows the text, a fault is passed on, "no-speech" and "aborted" call nothing |
| `Recognizer.RestartsAreBounded` | web/src/speech.ts:133-134 | At most 20 restarts happen between two results |

## Left out

Numbers and text:

- Floating-point rounding, and the exponentials and logarithms: `dbToGain` and `powerToDb` are a monotone, positive
  scale; smoothing, release and recency factors are parameters between 0 and 1.
- The normal approximation of the interval above 1000 values, and `erf`: a parameter of the interval search.
- Regular expressions over wording (job description headings and bullets, title normalisation, trimming, terminal
  colour codes): functions with the few facts the proofs use. The fence pattern of the reply scanner is modelled
  exactly.
- `JSON.parse` is an unknown function from text to an optional value. Characters are Unicode scalar values rather than
  UTF-16 units.
- `encodeWav`, `trimCandidateSummary`, `describeProvenance` and the sentences of outcomes and rejections: wording and
  byte layout.

Outside the process:

- Databases, HTTP, mail, files, child processes, audio devices, React pages. What they return is a parameter or an event.
- `jsonlFrom`, `loadState` and the writing of checkpoints: a resumed run starts from whatever state was stored.
- Lint, similarity and the gate policy of the pipeline are functions of a question's text and a verdict; prompts, forms
  and the families of anchors are not modelled beyond the branches that choose a standard.
- The state the capture loop reports other than "stopped" ("listening", "degraded"), and silence callbacks: nothing
  depends on them.

Statements that stop short:

- SeedRunStandards.OneCreatorExactly: a file that lists one pool key twice is covered by the protecting half only
  (`ConsistentFileHasOneCreator`).
- ObserverCapture.UploadsNeverOverlap: does not say that windows meet without gaps; a flush loses the chunk being rotated.
- ObserverCapture.Capture.AfterFlush: the wait of a browser flush may end at any moment, which covers both its timer and
  the sending of its last words.
- Pipeline.RunPool: the order of the records is not stated.
- Peers.PlainReplyIsRecovered: a reply whose preamble holds a bracket is covered only through the first value that
  parses (`FirstBalancedValue`), or by a fence.
- Peers.FencedReplyIsRecovered: a preamble that itself holds a fence is covered by `ReplyIsRecoveredIff`, if it has no
  bracket.
