# Location tracking service: a verified model

This project models the stateful algorithms of the location tracking service
and proves what they guarantee over all inputs and all runs. `dafny verify
dfyconfig.toml` checks it.

## What is modelled

* **Special-location queues** (`QueueStore`, `QueueDrainer`, `QueueManual`,
  `SortedSet`, and the results in `QueueMembership`, `QueueBatch`, `QueueRuns`,
  `QueueHysteresis`, `QueueLifetime`, `QueueFairness`). The Redis keys are typed maps with
  explicit deadlines; every handler first drops what has expired and is then one
  atomic step. `QueueRedis` is the live store that the handlers update command
  by command; each handler is proved to compute a function on the abstract
  `Store`, and the results are about runs of these functions.
* **Violation detection** (`Window`, `Means`, `Detection`, and the results in
  `Alerts`, `SpeedHistory`, `PointHistory`, `TwoSides`, `Scenes`, `Decisions`,
  `Clashes`, `Surprises`, `Alarms`, `Directions`, `Requests`).
  The deque of (batch mean, batch size) pairs is related to the full history of
  readings; both sides of the check, the decision and the committed requests
  are run over arbitrary sequences of pings.
* **Routes** (`Route`, `Upcoming`, `RouteReports`, `Progress`): the reverse pass
  over the waypoints, the walk that lists upcoming stops, the distances told
  along a segment, and arrival times.
* **Bounded buffers and indexes** (`RateLimiter`, `OnRide`, `Nearby`).

## Reading the model

* Scores, speeds, coordinates and other floats are `real`; rounding is not
  modelled. Distances on the earth, projections, the radius test and the travel
  times from outside are parameters.
* A driver id is a number that gives the byte order of its sorted-set member;
  other ids are numbers of which only equality matters. A driver id belongs to
  one merchant, and all queue keys live in one store.
* Handlers take the current time as a parameter. Where one handler reads the
  clock several times the model reads it once.
* `Purge` is Redis' expiry. A TTL of zero, which Redis refuses or treats as a
  deletion, makes a key expire at once here.
* The violation and anti-violation bodies of `detection.rs` differ only in the
  comparison or in negating the verdict; the model has each body once, with a
  flag for the side, as `safety_check.rs` does itself.
  The anti-violation side judges the way back from a violation; s is a sample
  size and m the batch size, the sample size divided by the batch count and
  rounded up.
* The results that say exactly when a detector meets a promise hold for any one
  fixed distance function and route; only the pings are chosen. A `Scenes.Scene`
  names two places between which the thresholds lie, the first at no distance
  from itself (`Scenes.Separates`, `Alarms.Between`): without such places the
  detector could never say both yes and no.
* One side *keeps pace* with the other when it is judged at every judgement of
  the other but the first (`TwoSides.KeepsPace`). The violation side is *muted*
  when the way back has been judged at the reading right before each of its
  judgements (`Clashes.Muted`).
* Nothing projects onto a segment without length: the code divides by zero there
  and the comparison with the undefined distance fails, so such segments are
  skipped, and a route that has no others gives no deviation.
* Where a projection lies on a segment, its distances to the two ends are taken to
  add up to the segment's length (`Progress.LiesOn`).
* In the route pass a float-to-u32 cast saturates. `Route.Fits` asks that the
  truncated segment lengths of the whole route add up to less than 2^31 and that
  a leg's length times its travel time fits in 32 bits: beyond that the casts
  and products of the code wrap.

## Where the code falls short of its promise

* Replaying a batch from one snapshot is not what one-at-a-time processing does
  when a driver occurs twice; `QueueBatch.BatchableIffNoRepeats` says exactly
  when it is, and `QueueMembership.DrainSingleMembership` which batches put a
  driver in two queues (`QueueMembership.TwoEntersInOneBatch` is one).
* A manual removal that names another queue than the tracked one leaves a member
  without tracking (`QueueMembership.ManualRemoveSingleMembership`, with the
  input `QueueMembership.RemovedFromTheWrongQueue`).
* A manual insertion between equal scores falls where the member order puts it
  (`QueueManual.ManualAddLands`, with the input `QueueManual.TieIsMissed`).
* A violation and a way back that are judged over different windows can meet in
  the decision's unexpected branch: the alarm is lost and a second violation is
  reported (`Surprises.DifferentWindowsFail`). `Surprises.NeverUnexpectedIff` says
  for which pairs the branch is out of reach, `Clashes.TruthfulIff` for which
  pairs the requests are right all the same, and `Clashes.NeverAlertsIff` for
  which pairs, by their sample sizes or because one side mutes the other, no
  request is ever sent.
* When the threshold of the way back is harder to meet than that of the
  violation, readings between the two make the alarm flicker
  (`Alarms.KeptIffOrdered`).
* Route deviation, stop and safety checks go on with the un-popped record in one
  branch; unless the batch size divides the sample size they never drop a reading
  again (`Window.NothingIsDropped`), and their verdicts look at all positions
  ever seen (`PointHistory.StopVerdictIff`, `PointHistory.RouteVerdictIff`).
* Some sample sizes never lead to a verdict (`Window.VerdictTimes`), and with
  unequal batches the judged average is not the mean
  (`SpeedHistory.TrueMeanIff`).
* The distance told while a vehicle moves on within a segment can go up by a metre
  in the middle, where the truncated length of the segment is replaced by the
  exact one: `Progress.NeverGrowsIff` says on which segments it cannot
  (`Progress.MiddleJump` is a segment on which it does).
* In the first half of the segment after a stop this stop is still told as the
  upcoming one, no metres away (`Progress.PassedStopIsUpcoming`).
* The distance and duration reported for a later stop leave out the first
  segment of its leg (`RouteReports.ReturnedStopsMissFirstSegment`, with the
  route `RouteReports.TWO_SEGMENTS`).

## Model

| member | source | states |
|---|---|---|
| QueueDrainer.DrainQueueActions | crates/location_tracking_service/src/drainer.rs:96-496 | one drain (expiry, snapshot reads, replayed writes, rank refresh) turns the live store into exactly `Drain` of it, a function whose effects the lemmas below pin down |
| QueueDrainer.BatchGetLastTs | crates/location_tracking_service/src/redis/commands.rs:1155-1182 | the sparse MGET answers in the shape of the request: each filled slot with its own key's value, each empty slot with nothing |
| QueueDrainer.RecordRankHistory | crates/location_tracking_service/src/drainer.rs:505-583 | the rank refresh is `RecordRanks`: entry by entry, SET XX only where ZRANK found a new rank |
| QueueMembership.ApplyMembership | crates/location_tracking_service/src/drainer.rs:174-480 | who is in which queue after one replayed action: an Enter joins its queue and leaves the tracked one, an evicting exit leaves the tracked one, nobody else moves |
| QueueMembership.RefreshBounds | crates/location_tracking_service/src/drainer.rs:505-583 | the rank refresh changes no set, creates no tracking entry, and only ever names a queue that an entry really joined |
| QueueMembership.DrainSingleMembership | crates/location_tracking_service/src/drainer.rs:174-496 | a drain of ANY batch, repeated drivers included, keeps "in at most one queue, and tracked there" if and only if the batch is safe: a driver that enters an untracked queue ends with an Enter into it and no evicting exit after |
| QueueMembership.NoRepeatsIsSafe | crates/location_tracking_service/src/drainer.rs:174-480 | a batch in which no driver repeats is always safe |
| QueueMembership.ManualRemoveSingleMembership | crates/location_tracking_service/src/domain/action/internal/location.rs:618-674 | a manual removal keeps single membership if and only if the driver waits in no queue other than the one named (the handler deletes the tracking entry whichever queue is named) |
| QueueMembership.TwoEntersInOneBatch | crates/location_tracking_service/src/drainer.rs:150-181 | an untracked driver that enters two queues in one batch ends up in both |
| QueueMembership.RemovedFromTheWrongQueue | crates/location_tracking_service/src/domain/action/internal/location.rs:618-674 | a queued driver that is removed from another queue still waits, tracked nowhere |
| QueueMembership.ManualAddSingleMembership | crates/location_tracking_service/src/domain/action/internal/location.rs:676-795 | a manual insertion keeps single membership, wherever the driver was before |
| QueueMembership.OfflineSingleMembership | crates/location_tracking_service/src/domain/action/ui/location.rs:501-546 | the OFFLINE cleanup keeps single membership |
| QueueRuns.RunSingleMembership | crates/location_tracking_service/src/drainer.rs:174-496 | over all runs of drains, cleanups, manual operations and expiries: single membership holds at every moment if and only if every event was safe when it happened |
| QueueBatch.BatchRefinesSerial | crates/location_tracking_service/src/drainer.rs:111-481 | without repeated drivers, one snapshot and one pipeline leave the same store (remembered ranks aside) as draining the actions one at a time |
| QueueBatch.RepeatBreaksBatch | crates/location_tracking_service/src/drainer.rs:150-181 | any id sequence with a repetition has a batch on which the snapshot replay and one-at-a-time processing differ |
| QueueBatch.BatchableIffNoRepeats | crates/location_tracking_service/src/drainer.rs:111-481 | a sequence of driver ids is faithful to batch, for all actions and all stores, if and only if no id repeats |
| QueueBatch.RankIsRemembered | crates/location_tracking_service/src/drainer.rs:505-583 | after a drain without repeated drivers every driver that entered is tracked in its queue with a counter of zero and with the rank it then has there |
| QueueRuns.HandleSlice | crates/location_tracking_service/src/drainer.rs:174-480 | what any event leaves of one driver in one queue (tracking, counter, score, last timestamp) is a function of what was there and of the driver's own move; only an inserted score depends on the others of the queue |
| QueueHysteresis.CounterIsHistory | crates/location_tracking_service/src/drainer.rs:206-213 | from the empty store the stored queue and exit counter are those of the history: the last placement, and the exits since then while fewer than max(1, threshold), the bound written out |
| QueueHysteresis.EvictionIsExact | crates/location_tracking_service/src/drainer.rs:368-471 | a tracked driver's exit ping evicts it if and only if it is the max(1, threshold)-th in a row |
| QueueLifetime.DeadlineIsExact | crates/location_tracking_service/src/drainer.rs:328 | over every run from the empty store, expiry included: the key of a queue is there if and only if somebody ever entered it or was inserted into it and every handler since came less than the queue expiry after the latest such event; it then expires that long after it |
| QueueLifetime.QueuedIff | crates/location_tracking_service/src/drainer.rs:174-471 | over every run from the empty store: a driver waits in a queue if and only if some event put it there, none of its own since took it out (a move elsewhere or going OFFLINE while tracked there, the last exit ping the threshold asks for, a removal that names the queue), and every handler since came less than the queue expiry after the latest Enter or insertion by anybody |
| QueueFairness.ScoreIsKept | crates/location_tracking_service/src/drainer.rs:265-347 | with orderly Enter timestamps a member's score never changes while it stays queued, whatever expires and whatever others do |
| QueueFairness.NoOvertaking | crates/location_tracking_service/src/drainer.rs:265-347 | two drivers that both stay queued never swap order |
| QueueFairness.ClockIsExact | crates/location_tracking_service/src/drainer.rs:330-428 | the tracking entry and the deadline of last_ts after any run are a function of the driver's own moves and their times: each Enter into the queue and each eviction from it that finds last_ts alive sets the deadline anew, an Enter elsewhere while tracked here ends it, and nothing else changes it |
| QueueFairness.ArrivalScore | crates/location_tracking_service/src/drainer.rs:279-347 | however Enters, hysteresis evictions, offline cleanups and other drivers interleave, last_ts and score are the earliest Enter timestamp, as long as every further Enter comes before the deadline that the driver's own moves give |
| QueueFairness.ArrivalOrderIsIrrelevant | crates/location_tracking_service/src/drainer.rs:271-278 | two runs with the same multiset of Enter timestamps, each in time by the driver's own moves, give a queued driver the same score |
| QueueFairness.SteadyPingsKeepStamp | crates/location_tracking_service/src/drainer.rs:330-336 | Enters that follow one another within the recovery window are always in time, whatever evictions and cleanups lie between |
| QueueFairness.GraceReentry | crates/location_tracking_service/src/drainer.rs:74-80 | after a hysteresis eviction, whatever the driver pings outside the fence, however often it goes OFFLINE, and wherever else it queues meanwhile, its next Enter restores the original arrival exactly when last_ts was alive at the eviction and the return is within the recovery window counted from it; otherwise it starts afresh |
| QueueFairness.OfflineReentry | crates/location_tracking_service/src/domain/action/ui/location.rs:495-500 | after an OFFLINE cleanup, whatever the driver pings or does elsewhere meanwhile, its next Enter restores the original arrival exactly while the last_ts of its time in the queue lives (neither cleanups nor exits of an untracked driver extend it) |
| QueueFairness.RemovalForgets | crates/location_tracking_service/src/domain/action/internal/location.rs:618-674 | after a manual removal, whatever the driver does elsewhere, its next Enter starts afresh, however soon |
| QueueFairness.InsertedThenEnters | crates/location_tracking_service/src/domain/action/internal/location.rs:713-766 | a driver inserted by hand into an empty queue stands as if it had entered at the wall clock's time: the next one to enter comes ahead of it if and only if its timestamp is earlier, or equal with a lower id |
| QueueManual.HandleDriverOfflineQueueCleanup | crates/location_tracking_service/src/domain/action/ui/location.rs:501-546 | the cleanup removes the tracked membership and the tracking entry, leaves last_ts, and does nothing for an untracked driver |
| QueueManual.ManualQueueRemove | crates/location_tracking_service/src/domain/action/internal/location.rs:618-674 | the removal deletes the named membership, the tracking entry and the named last_ts |
| QueueManual.ManualQueueAdd | crates/location_tracking_service/src/domain/action/internal/location.rs:676-795 | the insertion takes the driver out of the tracked and the target queue, computes the score from the remaining listing, and tracks the driver there |
| QueueManual.ManualAddLands | crates/location_tracking_service/src/domain/action/internal/location.rs:713-766 | the new rank is min(max(position, 1) - 1, size) if and only if the neighbours' scores differ or the member order happens to fit between them |
| QueueManual.ManualAddListing | crates/location_tracking_service/src/domain/action/internal/location.rs:713-766 | where the neighbours leave room, the new listing is that of the others with the driver put in at the place asked for, its score one below the first, one above the last, halfway between the neighbours, or the wall clock when alone |
| QueueManual.TieIsMissed | crates/location_tracking_service/src/domain/action/internal/location.rs:713-766 | inserted at position 2 between two drivers of equal score, a driver with a higher id comes last |
| QueueManual.ManualAddKeepsOthers | crates/location_tracking_service/src/domain/action/internal/location.rs:684-776 | no other driver's membership or score changes |
| QueueManual.ListedInRankOrder | crates/location_tracking_service/src/domain/action/internal/location.rs:797-823 | the driver listed in place i has rank i |
| QueueManual.RangeIsAroundListedPosition | crates/location_tracking_service/src/domain/action/internal/location.rs:562-568 | the range shown to a queued driver contains the position at which it is listed, and of all positions in the queue exactly those within the offset of it |
| SortedSet.ListingSorts | crates/location_tracking_service/src/redis/commands.rs:1577-1592 | ZRANGE lists every member once, in (score, member) order |
| Window.RunRefines | crates/location_tracking_service/src/common/detection.rs:84-233 | for every history the total is what it should be and the record is the batch-wise running means of the readings it holds: the latest `total`, or, where the code re-clones the record and the batch size does not divide the sample size, all of them |
| Window.VerdictTimes | crates/location_tracking_service/src/common/detection.rs:94-210 | for every detector, re-cloned record or not, verdicts come exactly at the readings s, s + m, s + 2m, ..., and never when s is 0 or leaves 1 modulo m |
| Window.RecloneExactIff | crates/location_tracking_service/src/common/detection.rs:323-401 | for the detectors that re-clone the un-popped record (also safety_check.rs:115-158), the record holds as many readings as it claims on every history if and only if the batch size divides the sample size |
| Window.NothingIsDropped | crates/location_tracking_service/src/common/detection.rs:323-401 | otherwise that record is the batches of the whole history: no reading ever leaves it, it grows by one batch every m readings without bound, while the total goes on cycling |
| Window.PopExact | crates/location_tracking_service/src/common/detection.rs:151-222 | the overspeeding record is exact for every sample and batch size |
| Arithmetic.DivCeilIs | crates/location_tracking_service/src/common/detection.rs:97 | the batch size is the sample size divided by the batch count, rounded up |
| Means.MeanOfMeansIsMean | crates/location_tracking_service/src/common/detection.rs:109-114 | the mean of equally filled batches is the mean of the readings |
| Means.CentroidOfCenters | crates/location_tracking_service/src/common/detection.rs:829-843 | the centre of equally filled batch centres is the centre of the positions |
| Detection.SpeedCheck | crates/location_tracking_service/src/common/detection.rs:84-233 | one overspeeding check, for either side (the anti-violation side is detection.rs:860-1011), is `CheckSpeed` |
| Detection.RouteCheck | crates/location_tracking_service/src/common/detection.rs:234-414 | one route-deviation check, for either side (detection.rs:1012-1192), is `CheckRoute` |
| Detection.PointStep | crates/location_tracking_service/src/common/flow/safety_check.rs:71-183 | one step of the position window, with the re-cloned record in the merging branch after a pop |
| Detection.StopCheck | crates/location_tracking_service/src/common/flow/safety_check.rs:43-189 | one stop or safety check is `CheckStop` |
| Alerts.TreeFallsThroughIff | crates/location_tracking_service/src/common/detection.rs:1514-1555 | the decision reaches its unexpected branch if and only if the verdict it needs is missing while the other one is there |
| Alerts.DecisionSends | crates/location_tracking_service/src/common/detection.rs:1514-1555 | in every other case an alarm ends with the anti-violation verdict and begins with the violation verdict, and exactly these two moments are the ones that ask for a request |
| Alerts.SidesAreIndependent | crates/location_tracking_service/src/domain/action/ui/location.rs:743-767 | for any two configurations of one detector the stored states are those of the two sides run alone: committing both or neither never costs either side a reading |
| Alerts.PingSends | crates/location_tracking_service/src/domain/action/ui/location.rs:743-781 | one committed check of any two configurations that does not lose an alarm in the unexpected branch turns the alarm on with the violation verdict and off with the other, sends a request exactly when the alarm changes, and the request says which way and carries that side's detail |
| Alerts.KeptAlarmsAlternate | crates/location_tracking_service/src/common/detection.rs:1301-1555 | whatever the two configurations, as long as no alarm was lost the requests alternate, violation first, and the alarm is on after an odd number |
| Alerts.LockstepStep | crates/location_tracking_service/src/common/detection.rs:40-61 | over equal windows, whatever the thresholds, the two checks of all five detectors make the same step and both have a verdict or neither; with equal thresholds the verdicts are opposite |
| Alerts.LockstepRun | crates/location_tracking_service/src/common/detection.rs:27-76 | so after any pings the two stored states are equal |
| SpeedHistory.SpeedState | crates/location_tracking_service/src/common/detection.rs:84-233 | for any two overspeeding configurations each stored state is the window over all speeds so far; pings without a speed change nothing |
| SpeedHistory.SpeedVerdictNow | crates/location_tracking_service/src/common/detection.rs:107-142 | on either side a ping's verdict compares the mean of the batch means of the latest s speeds with that side's limit, at the verdict times, and is absent otherwise |
| SpeedHistory.TrueMeanVerdict | crates/location_tracking_service/src/common/detection.rs:109-131 | when the batch size divides the sample size that average is the true mean of the latest s speeds |
| SpeedHistory.TrueMeanIff | crates/location_tracking_service/src/common/detection.rs:109-131 | verdicts on all histories and limits come out as for the true mean if and only if s modulo m is at most 1 |
| PointHistory.PointState | crates/location_tracking_service/src/common/flow/safety_check.rs:43-189 | for any two configurations of a positional detector each stored window is the window over all positions so far |
| PointHistory.PointVerdictNow | crates/location_tracking_service/src/common/flow/safety_check.rs:93-105 | on either side a stop or safety verdict compares the centre of the first m with the centre of the newest of the judged positions, and a deviation verdict measures the centre of their batch centres: the latest s positions when m divides s, all positions ever seen otherwise |
| PointHistory.TrueCentre | crates/location_tracking_service/src/common/detection.rs:822-843 | when m divides s the measured position is the centre of the latest s positions |
| PointHistory.StopVerdictIff | crates/location_tracking_service/src/common/flow/safety_check.rs:115-158 | for any distance that tells two places apart: stop and safety verdicts on all histories and limits come out as for the ends of the latest s positions if and only if s modulo m is at most 1 |
| PointHistory.ForgottenStart | crates/location_tracking_service/src/common/flow/safety_check.rs:134-137 | otherwise, for any such distance, a vehicle that moved once after its first m positions is still compared with them one batch after the first verdict |
| PointHistory.RouteVerdictIff | crates/location_tracking_service/src/common/detection.rs:347-381 | for any route that one place is on and another is off: deviation verdicts on all histories and thresholds come out as for the centre of the latest s positions if and only if s modulo m is at most 1 |
| TwoSides.VerdictGiven | crates/location_tracking_service/src/common/detection.rs:94-210 | for every batched detector and either side, a ping brings a verdict if and only if it is a counted reading at a verdict time and, for deviation, a bus on a known route |
| TwoSides.AlertsAlternate | crates/location_tracking_service/src/common/detection.rs:1301-1555 | for every detector whose way back keeps pace, any thresholds, and every sequence of pings: the requests alternate violated, relieved, violated, ..., starting with violated, and the alarm is what the last one said |
| Surprises.NeverUnexpectedIff | crates/location_tracking_service/src/common/detection.rs:1514-1555 | for any distance and route on which the thresholds can be told apart: the unexpected branch is out of reach on all pings if and only if both sides never judge, or their batch sizes are equal and the way back has the same sample size or one batch more |
| Surprises.DifferentWindowsFail | crates/location_tracking_service/src/common/detection.rs:1514-1555 | with windows of two and of four readings, six fast pings reach the unexpected branch and eight report two violations in a row |
| Clashes.TruthfulIff | crates/location_tracking_service/src/common/detection.rs:1301-1555 | for any distance and route on which the thresholds can be told apart: on all pings the requests alternate and the alarm is what the last one said if and only if the way back keeps pace or the violation side is muted |
| Clashes.NeverAlertsIff | crates/location_tracking_service/src/common/detection.rs:84-233 | for any two configurations of a batched detector, and any distance and route on which the thresholds can be told apart: no pings ever lead to a request if and only if the violation side's s is 0 or leaves 1 modulo m, or that side is muted |
| Alarms.AlarmIsFoundAndKept | crates/location_tracking_service/src/common/detection.rs:1514-1555 | for every detector over equal windows with ordered thresholds, the alarm is on if and only if some ping found a violation and none since found the way back |
| Alarms.KeptIffOrdered | crates/location_tracking_service/src/common/detection.rs:1514-1555 | for any distance and route with something between crossed thresholds, over equal windows: it means that on all pings if and only if the thresholds are ordered, or nothing is ever judged, or a stop or safety window is a single batch (then the vehicle always stands) |
| Alarms.AlarmIsLatestVerdict | crates/location_tracking_service/src/common/detection.rs:1514-1555 | with equal configurations the alarm is on if and only if the latest verdict found a violation |
| Alarms.OverspeedingAlarm | crates/location_tracking_service/src/common/detection.rs:27-233 | with two limits, after any pings the overspeeding alarm is on if and only if some judged average lay above the upper limit and all judged since above the lower one |
| Alarms.OneLimitAlarm | crates/location_tracking_service/src/common/detection.rs:27-233 | with one limit the latest judged average alone decides |
| Alarms.LatestTime | crates/location_tracking_service/src/common/detection.rs:94-210 | that is the one at reading n - (n - s) modulo m |
| Alarms.TrueMeanAlarm | crates/location_tracking_service/src/common/detection.rs:94-131 | with one limit and batches that divide the sample size, the alarm is on if and only if the true mean of the s speeds up to reading n - (n - s) modulo m lies above the limit, and never before the s-th speed |
| Alarms.StopAlarm | crates/location_tracking_service/src/common/flow/safety_check.rs:43-189 | after any pings the stop or safety alarm is on if and only if the two end centres of some judged window lay within the distance, and of all judged since within the distance of the way back |
| Alarms.RouteAlarm | crates/location_tracking_service/src/common/detection.rs:234-414 | after any pings the deviation alarm is on if and only if the measured position was beyond the threshold at some judgement, and beyond that of the way back at all since |
| Alarms.ConfiguredAreWellChosen | dhall-configs/dev/location_tracking_service.dhall:96-126 | the three pairs of the development configuration have equal windows, ordered thresholds and batches that divide the sample size |
| Directions.DirectionState | crates/location_tracking_service/src/common/detection.rs:429-480 | after any pings both sides of the opposite-direction check store the number of pings since it last started (the first ping, or the latest not sent by a bus on a route) and the fewest stops ahead told since, a million before any |
| Directions.DirectionVerdict | crates/location_tracking_service/src/common/detection.rs:436-470 | a ping brings a verdict if and only if it is not the first and comes from a bus on a route whose stops ahead are known; it is a violation if and only if more stops lie ahead than the fewest before it, and the way back otherwise (the anti side is detection.rs:1207-1258) |
| Directions.DirectionAlarm | crates/location_tracking_service/src/common/detection.rs:429-480 | after any pings the alarm is on if and only if the latest ping that brought a verdict had more stops ahead than the fewest before it since the check last started |
| Directions.SilentIffRightWay | crates/location_tracking_service/src/common/detection.rs:1514-1555 | no request is ever sent if and only if no ping that brought a verdict went the wrong way |
| Requests.OverspeedingRequest | crates/location_tracking_service/src/common/detection.rs:1301-1420 | for any two configurations, a ping that loses no alarm sends a request if and only if the alarm changes, with the vehicle's position and the average that was judged: above the limit when it goes on, not above that of the way back when it goes off |
| Requests.RouteRequest | crates/location_tracking_service/src/common/detection.rs:1301-1420 | the same for deviation, with the measured distance from the route |
| Requests.StoredDeviation | crates/location_tracking_service/src/common/detection.rs:318-401 | on either side the stored deviation is the latest measurement, which a window of a single batch forgets with the next ping |
| Requests.PlainRequest | crates/location_tracking_service/src/common/detection.rs:1301-1420 | the same for stops, safety and direction, with the position alone |
| Route.UpdateWaypoints | crates/location_tracking_service/src/common/route.rs:233-429 | after the reverse loop every waypoint with an intermediate stop ahead carries the true sums of truncated segment lengths to it and from the previous one, and the sum of floored shares of the travel time; no subtraction goes below zero and no u32 or i32 overflows; the others are untouched |
| Route.FoldIsLeg | crates/location_tracking_service/src/common/route.rs:489-529 | the backwards fold finds the same length that the reverse loop adds up |
| Route.LegIsConserved | crates/location_tracking_service/src/common/route.rs:321-336 | distance ahead plus distance behind is the length of the leg at every waypoint, and the time ahead fits into the leg's travel time |
| Route.DurationBound | crates/location_tracking_service/src/common/route.rs:464-473 | a sum of floored shares never exceeds the leg's travel time and does not decrease going backwards within the leg |
| RouteReports.ReportMissesFirstSegment | crates/location_tracking_service/src/common/utils.rs:380-389 | the entry just after an intermediate stop holds the next leg without its first segment, in distance and in time |
| RouteReports.ReturnedStopsMissFirstSegment | crates/location_tracking_service/src/common/utils.rs:260-402 | end to end, on a route prepared by the reverse pass with stops numbered in order, every stop returned after the first carries its leg without the leg's first segment |
| RouteReports.HalfTheLegIsReported | crates/location_tracking_service/src/common/utils.rs:380-389 | of a leg of two equal segments half the distance and half the time are reported |
| Upcoming.FindClosestPointOnRoute | crates/location_tracking_service/src/common/utils.rs:437-482 | the result is the first of the closest segments that have a length; there is none if and only if none has |
| Upcoming.GetUpcomingStops | crates/location_tracking_service/src/common/utils.rs:260-402 | the first stop is that of the segment's nearer end, its distances taken from the projection, unless a remembered stop of the same number is nearer than that and less than 50 m from it; the later intermediate stops follow in route order, each with the distance and duration stored just after the preceding one |
| Progress.ProjectedBetween | crates/location_tracking_service/src/common/utils.rs:284-345 | on a prepared route, within a segment that does not start at a stop, the distance told lies between those stored at the two ends (a metre less is possible on a segment shorter than a metre) |
| Progress.ProjectedLeg | crates/location_tracking_service/src/common/utils.rs:284-345 | there the distances ahead and behind add up to the leg, or to a metre less |
| Progress.NeverGrowsIff | crates/location_tracking_service/src/common/utils.rs:284-345 | there the distance never grows while the vehicle moves on if and only if the segment's length is a whole number of metres, or its whole metres are odd, or it is shorter than a metre and ends at the stop |
| Progress.GrowsByOneMetre | crates/location_tracking_service/src/common/utils.rs:284-345 | elsewhere it grows by a metre at most |
| Progress.MiddleJump | crates/location_tracking_service/src/common/utils.rs:284-345 | on a segment of 10.8 m that ends at the stop, 4 m are left after 5.2 m and 5 m after 5.4 m |
| Progress.PassedStopIsUpcoming | crates/location_tracking_service/src/common/utils.rs:284-345 | in the first half of the segment after a stop this stop is told as the upcoming one, no metres away |
| Upcoming.FirstUpcoming | crates/location_tracking_service/src/common/utils.rs:307-344 | a remembered stop within 50 m never makes the distance told greater: it is the lesser of the remembered one and the projected one |
| Upcoming.NeverRecedes | crates/location_tracking_service/src/common/utils.rs:314-344 | over any run of reports while the vehicle approaches one stop, the distance reported is the least that any projection so far gave: it never goes up again |
| Upcoming.UpcomingIsComplete | crates/location_tracking_service/src/common/utils.rs:350-391 | an intermediate stop of the route is listed after the first one if and only if its number is higher |
| Upcoming.UpcomingIsOrdered | crates/location_tracking_service/src/common/utils.rs:350-391 | the listed numbers strictly increase |
| Upcoming.RefreshEta | crates/location_tracking_service/src/common/utils.rs:497-548 | the refreshed list has the length and stop numbers of the previous one, marks as reached exactly what is no longer upcoming, shows an own delay where a stop was just reached and the latest delay before it elsewhere, and its upcoming arrivals follow one another by at least the travel durations, from now on |
| Upcoming.ArrivalsFollow | crates/location_tracking_service/src/common/utils.rs:509-530 | in the refreshed list each upcoming stop arrives after the previous upcoming one (the first: after now) by its travel duration plus the whole seconds by which that start lies behind its planned time |
| Upcoming.DelaysFollow | crates/location_tracking_service/src/common/utils.rs:531-545 | an upcoming stop shows the delay of the last stop before it that has been reached since, or what it showed before; a stop reached since shows the seconds from its planned time to now |
| Upcoming.RefreshRemembers | crates/location_tracking_service/src/common/utils.rs:497-548 | a refreshed list remembers the reported stop of every number that the list before knew, as the next report of that stop presumes |
| Upcoming.FirstEta | crates/location_tracking_service/src/common/utils.rs:549-563 | a first schedule puts each stop after the durations of all stops up to it |
| Upcoming.EstimatedUpcomingStopsEta | crates/location_tracking_service/src/common/utils.rs:484-567 | nothing to say exactly without stops and history; a refreshed list when the previous one is long enough and a first schedule otherwise, each with its times and delays, and in travel order |
| RateLimiter.RateStore.SlidingWindowLimiter | crates/location_tracking_service/src/common/sliding_window_rate_limiter.rs:27-73 | one call is `Call` on the stored hits: filter, weigh, then accept and store with a fresh TTL or refuse |
| RateLimiter.AcceptedIff | crates/location_tracking_service/src/common/sliding_window_rate_limiter.rs:33-72 | after any calls in time order, expiry included, a call at t is accepted if and only if P * (L - t mod L) / L (truncated) plus the accepted hits of its own frame is below the limit, where P counts the accepted hits of the previous frame, or is 0 when a frame length of silence followed the last of them |
| RateLimiter.FrameLimit | crates/location_tracking_service/src/common/sliding_window_rate_limiter.rs:33-72 | over all runs of calls in time order, expiry included, no frame accepts more than the limit |
| RateLimiter.WindowLimit | crates/location_tracking_service/src/common/sliding_window_rate_limiter.rs:33-72 | seen from any moment, the hits accepted within one frame length exceed the limit by at most ceil(P * (t mod L) / L), with P the hits of the previous frame |
| OnRide.GetFilteredDriverLocations | crates/location_tracking_service/src/domain/action/ui/location.rs:242-275 | consecutive repetitions go, the rest is marked in order (unfiltered if and only if accurate enough and farther than the buffer from the last known position), and the flag tells whether any is unfiltered |
| OnRide.DedupKeepsFirsts | crates/location_tracking_service/src/domain/action/ui/location.rs:247 | a position is kept if and only if the one sent just before it lies elsewhere |
| OnRide.OnRideList.ProcessDriverLocations | crates/location_tracking_service/src/domain/action/ui/location.rs:1201-1270 | one update appends its unfiltered points or sends everything stored plus them as one payload |
| OnRide.OnRideList.RideEnd | crates/location_tracking_service/src/domain/action/internal/ride.rs:70-91 | the ride ends with an LRANGE of the stored points, the end point appended, and the list deleted |
| OnRide.RideInvariant | crates/location_tracking_service/src/domain/action/ui/location.rs:1217-1268 | payloads followed by the stored list are always all unfiltered points in order, and the stored list never exceeds the batch size |
| OnRide.PayloadIffFull | crates/location_tracking_service/src/domain/action/ui/location.rs:1217-1268 | an update brings a payload if and only if the unfiltered positions that no payload has carried yet, its own included, are more than the batch size; the payload is all of them |
| OnRide.PointsAreConserved | crates/location_tracking_service/src/domain/action/internal/ride.rs:70-91 | payloads followed by the ride-end answer without its end point are all unfiltered points of the ride, each once and in order |
| Nearby.LocationIndex.Push | crates/location_tracking_service/src/drainer.rs:743-779 | a position goes to the bucket of its timestamp, whose expiry is set to bucket size times threshold from the drain |
| Nearby.LocationIndex.GetDriversWithinRadius | crates/location_tracking_service/src/redis/commands.rs:255-309 | no driver twice, every driver of the scanned live buckets inside the radius, and each with its position in the newest of them |
| Nearby.FoundIffPinged | crates/location_tracking_service/src/redis/commands.rs:268-293 | over all sequences of stored positions, a query finds a driver if and only if one of its pings lies in a scanned bucket |
| Nearby.StoredPosition | crates/location_tracking_service/src/redis/commands.rs:964-975 | in a scanned bucket every driver stands where its latest ping into that bucket was taken |
| Nearby.ListedIffInside | crates/location_tracking_service/src/redis/commands.rs:255-309 | from the pings to the answer: a driver is listed if and only if its latest ping into some scanned bucket lies inside the radius |
| Nearby.ListedPosition | crates/location_tracking_service/src/redis/commands.rs:293-309 | the position listed is that of its latest ping into the newest such bucket |
| Nearby.BucketDeadline | crates/location_tracking_service/src/drainer.rs:743-779 | a bucket expires the scanned span after the latest ping was stored into it |
| Nearby.DeadlineOutlivesScan | crates/location_tracking_service/src/drainer.rs:743 | a bucket never expires while it is still scanned |
| Nearby.RecentIsScanned | crates/location_tracking_service/src/common/utils.rs:122-124 | a ping at most threshold - 1 bucket sizes old is always scanned |
| Nearby.OldIsNotScanned | crates/location_tracking_service/src/common/utils.rs:122-124 | a ping threshold bucket sizes old or older is never scanned |

## Left out

- HTTP handlers, authentication, Kafka, outbound calls, metrics, logging and configuration: no algorithmic content.
- Failed or interleaved Redis commands, replica lag and cross-pod races: the code promises nothing there, so every handler is atomic.
- The select loop of `run_drainer` (capacity, timer, shutdown) and the special-location lookup: only the queue drain and the bucket and expiry computation are modelled.
- The rank-history lists themselves: only the effect of their refresh on the tracking entry is modelled.
- Requests go out only when both configurations are enabled (ui/location.rs:768-769); here both always are. Pings with poor accuracy are skipped before detection (ui/location.rs:734): the pings here are those that remain.
- The TripNotStarted and RideStopReached detectors: the first has a constant anti verdict and sends no request, the second an anti verdict that is never true.
- The optional average speed carried by the stop states: it is never filled or read.
- The content of violation requests beyond direction, position, average speed and deviation.
- GeoJSON parsing, the insertion of projected stops into the waypoints, polygon tests, haversine and projection numerics: library or floating-point code.
- The pairing of stops for the external travel times: the total per stop is a parameter.
- Stop names, which travel with the stop codes.
- RateLimiter.RateStore.SlidingWindowLimiter: counts are unbounded, so the i32 casts of the code, which saturate or wrap only beyond two billion hits, are not modelled.
- Nearby.LocationIndex.GetDriversWithinRadius: asks that the newest bucket number is at least the number of scanned buckets less one, where the code's u64 subtraction would underflow; the geo search is not part of this model, so its results are taken bucket by bucket in the order of the keys, newest first, and their order by distance is not modelled.
- QueueBatch.BatchableIffNoRepeats: exact for sequences of driver ids; which single batches with a repeated driver happen to agree with one-at-a-time processing is not characterised.
- The fallback scores of the manual insertion for a range query that returns too few members: in an atomic step the range is always there.
- Entity, SOS and broadcast features, the ETA simulator, data files and the integration tests.
