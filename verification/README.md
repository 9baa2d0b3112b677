# Verified model of the Gazebo VRPN bridge

The bridge copies model poses out of a running Gazebo simulation, keeps a short history of samples per
tracker, and publishes them over VRPN with a simulated measurement delay.  Gazebo's thread captures poses at
a limited rate and puts them into a one-slot mailbox; a worker takes the latest snapshot, feeds it to the
tracker server, and publishes once per cycle.  A delay is drawn per tracker and cycle, and the sample nearest
to the send time minus that delay goes out.  This project models those stages in Dafny and proves what they
guarantee together.

## Main results

- **The bounded history is enough.** Each ring buffer is sized by a formula over maximum delay, margin and
  publish rate alone.  For every interleaving of the two threads and everything the random engine may yield,
  what is published is what a history that never evicts would select, as long as the maximum delay is within a
  bound on capacity and period (`BoundedHistories.BoundedHistoryIsEnough`).  The bound is exact, also when the
  wall clock is read later than the clock of the limiter (`Coverage.CoverageIsExact`), and ordinary
  configurations meet it (`BoundedHistories.AcceptedIsCovered`).  The proof runs from the limiter's grid through
  mailbox, epochs, registration, clamp, capacity formula and tie-breaking.
- **Selection and stamps never go backwards** within an epoch, over whole runs; for stamps under simulation time
  this needs that time to be in order since the epoch began, which holds exactly when every step back of it
  exceeds the rollback tolerance (`Selections`, `SteadyDelays`).
- **Epochs never mix**: a history holds samples of one clock source and one simulation epoch (`Epochs`).
- **Registration is stable**: inverse name tables, first-come ownership, configured capacities (`Registrations`).
- **Filtering first changes nothing**: the plugin's pre-filter commutes with every run (`Prefiltering`).
- **The protocols**: capture limiter, mailbox and worker pacing, over every run (`CaptureLimiting`,
  `Mailboxes`, `WorkerPacing`); the first update in a slot is delivered, what is pending is what the server is given
  next, and no snapshot is lost but by a later one (`Deliveries`).
- **What is on the wire**, in terms of what went in and of no intermediate function: the stamp (`WireStamps`), the
  tracker name (`Naming`), the delay, from the random draws (`DelayDraws`), the pose (`WorldPoses`), and the flags,
  velocities and accelerations, from the poses and times of the samples (`SampleMotion`).

The ring buffer, the delay sampler, the tracker server, the limiter, the mailbox and the pacer are classes
whose methods update their fields.  Each method's contract ties the new state to a pure function of the old
one (`SampleHistory`, `MeasurementDelays`, `TrackerStates`, ...), and the whole-run theorems are about those
functions.

## Where a property fails

- A delay override under the *empty* tracker name hides the capacity check: the check measures the capacity
  of the name `""`.  `AcceptedHistoryMayBeUnbounded` is an example, `BoundNeedsEmptyNameUnset` shows that this is
  the only way the bound is lost; the YAML loader skips empty names, so loaded configurations are safe
  (`LoadedBoundsEveryName`).
- The capture period is truncated to clock ticks, so it may be shorter than 1/rate, and a capture's wall stamp
  may be read later than its limiter reading, so a ring may hold less than the capacity formula assumes.  Its
  full span may then fall short of the maximum delay: `FullRingMayFallShort` is an accepted configuration at
  60 Hz, `SpanIsExact` the exact bound.  And it may choose another sample than an unbounded history would:
  `TruncatedPeriodStarves` is an accepted configuration at 625 MHz, `CoverageIsExact` the exact bound.
  `CapacityCovers` gives the conditions under which the formula meets each of them.
- A rate above 1 GHz is accepted, truncates to a zero period, and the catch-up loop never ends
  (`AcceptedRateMayExceedTheClock`, `PeriodIsATickIff`, `CatchUpEndsIff`).
- The canonical delta that angular velocity is computed from depends on the sign of the quaternions for exact
  half turns, and only for those (`SignIsIrrelevantIff`).  That sign is picked when a quaternion is read from a
  transform, so after a half turn the reported velocity may be reversed (`HalfTurnDependsOnSign`,
  `HalfTurnIsReversed`).
- Simulation time may step back by less than the rollback tolerance without a new epoch, and a wire stamp with
  it by a microsecond (`StampMayStepBack`); `EpochsAreInOrderIff` says when that cannot happen, and
  `SendStampsFallLittle` bounds it when it does.
- The error for a tracker's maximum delay says "must be non-negative", but the check accepts exactly the values
  from -1 up, and those below 0 mean "the global maximum" (`OverrideRange`, `NegativeOverrideIsAccepted`).

## Modelling choices

- A `double` is a `real`; times of the steady clock are integer nanosecond ticks.  The steady clock and the
  wall clock are one clock that never runs backwards.  Each step of each thread reads it separately, so a
  capture's two readings may differ and the worker's steps may fall between them.  Where a result is sharper for
  one reading per capture, it says so (`SingleRead`).
- The random engine is a seed and a position in that seed's stream.  Distribution objects live for one draw,
  so there is no other random state.
- `exp`, `sqrt`, a quaternion's angle and axis, the low-pass filters and the regular expressions are
  parameters.  `exp` and `sqrt` are constrained only by the laws a lemma names.
- A history's samples are numbered by their pushes since the last reset.
- Iteration over a string-keyed map goes in ascending key order; `KeyOrder` maintains it.
- Gazebo model names are unique within a snapshot; only the results that mention it use this.

## Model

| member | source | states |
|---|---|---|
| `BoundedHistories.BoundedHistoryIsEnough` | include/gazebo_sim_vrpn_bridge/measurement_delay.h:99-205 | Headline. For every interleaving of Gazebo's thread and the worker, every loaded configuration, every random stream: each published sample is the one a history that never evicts would choose (the newest with delays off, otherwise the nearest to the delayed target, later one on ties), whenever the tracker's maximum delay is within the exact bound of its ring, whatever the clock does between the two readings of a capture |
| `BoundedHistories.AcceptedIsCovered` | include/gazebo_sim_vrpn_bridge/measurement_delay.h:184-227 | Every accepted configuration with a rate up to 1 GHz meets that bound for every tracker if its margin is at least 0.01 ms, its period a whole number of ticks, or its rate at most 50 kHz; up to 150 kHz if each capture was stamped at its limiter reading |
| `BoundedHistories.PublishedDelayIsRealised` | src/vrpn_tracker_server.cpp:451-457 | In every interleaving, once the ring is full and spans the maximum delay (by the bound for two clock readings per capture, or that for one where there is one), the published sample is within half the largest gap between stored samples of its target, or is the newest one if the target is later than that |
| `BoundedHistories.AcceptedFullRingCovers` | include/gazebo_sim_vrpn_bridge/measurement_delay.h:197-205 | A full ring does span the maximum delay in every accepted configuration with a rate up to 1 GHz and a margin of 0.01 ms or a whole number of ticks per period, and with one clock reading per capture also without them up to 100 kHz |
| `Pipeline.EveryInterleavingFits` | src/gazebo_vrpn_system_plugin.cpp:98-206 | For every interleaving of the two threads' steps: captures fall in distinct slots of one grid in clock order, the mailbox slot and the snapshot in hand are genuine captures (never moved-from ones), the server is given captures in order and never one newer than a publish that follows it |
| `Pipeline.SamplesAreCaptures` | src/gazebo_vrpn_system_plugin.cpp:137-185 | Whatever the mailbox dropped, the samples of a model since the last reset come from snapshots handed over, with strictly increasing numbers; each is stamped with its capture's wall reading and shows the model's pose in that snapshot under the configured extrinsic, and none is newer than the publish that draws on it |
| `Pipeline.WorkerRunIsOrdered` | src/gazebo_vrpn_system_plugin.cpp:167-191 | What the worker gives the server is in capture order, always under simulation time, with nondecreasing send times; nothing is promised about the order of simulation times |
| `Pipeline.WorkerStampsNeverDecrease` | src/gazebo_vrpn_system_plugin.cpp:167-191 | So in every interleaving wire stamps never decrease within an epoch in which the simulation times that reached the server are in order; `sample_time` ones if also the targets do not move back |
| `Pipeline.EveryEventWasHandedOver` | src/gazebo_vrpn_system_plugin.cpp:137-185 | In every interleaving what is pending, in hand, or was given to the server is the very snapshot handed over under its number |
| `Deliveries.NoSnapshotIsLost` | src/gazebo_vrpn_system_plugin.cpp:137-185 | In every run each snapshot delivered was given to the server, is in the worker's hand, was superseded by a later delivery before the worker took it, or is pending; the numbers of these add up, so none is lost and none is given twice |
| `Deliveries.TakenIsGiven` | src/gazebo_vrpn_system_plugin.cpp:173-191 | In every run a worker that takes while a snapshot is pending takes the one delivered last, and whatever Gazebo's thread does meanwhile, its cycle gives the server exactly that snapshot and then publishes; with nothing pending it only publishes |
| `Deliveries.FirstUpdateIsDelivered` | src/gazebo_vrpn_system_plugin.cpp:108-141 | In every run an update that is the first in its grid slot and whose poses are copied ends, whatever the worker does meanwhile, in one more delivered snapshot, the pending one, with that simulation time, those models and the wall reading of its capture, under simulation time; any other update delivers nothing |
| `Coverage.RingCovers` | include/gazebo_sim_vrpn_bridge/measurement_delay.h:99-128 | A ring fed by the limiter chooses as an unbounded history would for delays up to half of (2*capacity - 5) periods plus one tick; (2*capacity - 3) if each capture has one clock reading |
| `Coverage.FullRingSpans` | include/gazebo_sim_vrpn_bridge/measurement_delay.h:117-128 | A full ring, whether or not it has evicted yet, never leaves the target older than its oldest sample, for delays up to capacity - 3 periods and a tick; capacity - 2 if each capture has one clock reading |
| `Coverage.SpanIsExact` | include/gazebo_sim_vrpn_bridge/measurement_delay.h:117-128 | These bounds are exact: over all limiter runs and all wall stamps that fall before the next capture, full rings reach every target up to a maximum delay if and only if the maximum is within the bound; likewise with one reading per capture |
| `Coverage.FullRingMayFallShort` | include/gazebo_sim_vrpn_bridge/measurement_delay.h:197-205 | An accepted configuration, 60 Hz with no margin and a 33.3333333 ms maximum, whose full ring of 5 may fall short of the delay with two readings per capture and never does with one |
| `Coverage.CoverageIsExact` | include/gazebo_sim_vrpn_bridge/measurement_delay.h:99-128 | Both bounds are exact: over all limiter runs and all wall stamps that fall before the next capture, ring and unbounded history agree for every delay up to a maximum if and only if that maximum is within the bound; likewise with one reading per capture |
| `Coverage.CapacityCovers` | include/gazebo_sim_vrpn_bridge/measurement_delay.h:184-205 | The capacity formula meets the two-reading selection bound for every tracker of an accepted configuration with a margin of 0.01 ms, a whole number of ticks per period, or a rate up to 50 kHz, and the one-reading bound up to 150 kHz; the span bounds in the first two cases, and up to 100 kHz with one reading |
| `Coverage.TruncatedPeriodStarves` | include/gazebo_sim_vrpn_bridge/measurement_delay.h:197-205 | Beyond those conditions it can fail: an accepted configuration at 625 MHz whose ring of 8 does not cover its 8 ns maximum delay, with two readings or one |
| `SampleHistory.TrackerSampleHistory.Push` | include/gazebo_sim_vrpn_bridge/measurement_delay.h:80-89 | The new value is the old push list with the sample appended, under the same capacity (one slot for a moved-from history), while the buffer keeps exactly its last `capacity` elements in ring order; the buffer is reused |
| `SampleHistory.TrackerSampleHistory.Reset` | include/gazebo_sim_vrpn_bridge/measurement_delay.h:74-78 | Empties the history under capacity max(capacity, 1); a buffer of that length is reused, otherwise a fresh one takes its place |
| `SampleHistory.TrackerSampleHistory.Latest` | include/gazebo_sim_vrpn_bridge/measurement_delay.h:91-97 | The sample pushed last, none if there is none |
| `SampleHistory.TrackerSampleHistory.Nearest` | include/gazebo_sim_vrpn_bridge/measurement_delay.h:99-115 | The pushed sample with the number that the specification of the query gives over the stored ones, none if there is none |
| `SampleHistory.NearestIndexIsNearest` | include/gazebo_sim_vrpn_bridge/measurement_delay.h:105-113 | The scan's choice is at minimal distance, and every later sample is strictly farther |
| `SampleHistory.NearestIsUnique` | include/gazebo_sim_vrpn_bridge/measurement_delay.h:105-113 | Only one index has that property |
| `SampleHistory.StoreHolds` | include/gazebo_sim_vrpn_bridge/measurement_delay.h:84-88 | Overwriting the next slot and advancing keeps the ring equal to the last `capacity` pushes, across wrap-around |
| `SelectionProperties.ChosenIsNearest` | include/gazebo_sim_vrpn_bridge/measurement_delay.h:99-128 | The chosen push number is nearest among the pushes not yet evicted, later one on ties |
| `SelectionProperties.BoundedAgrees` | include/gazebo_sim_vrpn_bridge/measurement_delay.h:99-128 | The bounded choice is the unbounded one unless the target is before the midpoint of the newest evicted and the oldest stored sample |
| `SelectionProperties.BoundedAgreesIff` | include/gazebo_sim_vrpn_bridge/measurement_delay.h:99-128 | That condition is necessary too, unless those two samples carry the same time |
| `SelectionProperties.ChoiceNeverGoesBack` | include/gazebo_sim_vrpn_bridge/measurement_delay.h:99-115 | Any pushes and evictions later, for a target that has not moved back, the chosen push number has not moved back |
| `SelectionProperties.DelayIsRealised` | include/gazebo_sim_vrpn_bridge/measurement_delay.h:99-115 | A target inside the stored window is met to within half the largest gap between neighbouring samples |
| `CaptureLimiting.CaptureLimiter.OnUpdate` | src/gazebo_vrpn_system_plugin.cpp:108-119 | The catch-up loop lands on the closed form: skipped before the scheduled time, otherwise captured and rescheduled to the first grid point after now |
| `CaptureLimiting.CatchUpEndsIff` | src/gazebo_vrpn_system_plugin.cpp:117-119 | The catch-up loop can end if and only if the period is at least one tick |
| `CaptureLimiting.PeriodIsATickIff` | src/gazebo_vrpn_system_plugin.cpp:112-113 | The truncated period is at least one tick if and only if the rate is at most 1 GHz; a positive rate alone is not enough |
| `CaptureLimiting.NextIsOnGrid` | src/gazebo_vrpn_system_plugin.cpp:108-119 | In every run the next capture time lies on the grid first + k*P, within one period of the last reading |
| `CaptureLimiting.CapturedIffFirstInSlot` | src/gazebo_vrpn_system_plugin.cpp:108-119 | An update is captured if and only if it is the first one in its grid slot |
| `CaptureLimiting.CapturesFillSlots` | src/gazebo_vrpn_system_plugin.cpp:108-119 | Captures fall in strictly increasing slots, and the slot of the latest update has its capture |
| `CaptureLimiting.CaptureSpan` | src/gazebo_vrpn_system_plugin.cpp:108-119 | Any m+1 successive captures span more than (m-1)*P |
| `Mailboxes.MailboxProtocol` | src/gazebo_vrpn_system_plugin.cpp:137-185 | For every interleaving: processed never exceeds published, taken numbers strictly increase, what is taken is what was published under its number (so never a moved-from snapshot), and published = taken + overwritten + pending with at most one pending |
| `Mailboxes.TakeIsLatest` | src/gazebo_vrpn_system_plugin.cpp:173-181 | A take returns the latest published snapshot, and returns nothing exactly when nothing new was published |
| `Mailboxes.SnapshotMailbox.TakeLatest` | src/gazebo_vrpn_system_plugin.cpp:173-181 | The imperative take refines the protocol step: same new state, and the slot's old content is returned if and only if it is pending |
| `WorkerPacing.CyclePacer.EndCycle` | src/gazebo_vrpn_system_plugin.cpp:193-197 | The deadline advances by one period, or is set to one period from now if now is more than two periods past it |
| `WorkerPacing.DeadlineIsNear` | src/gazebo_vrpn_system_plugin.cpp:193-201 | In every run the deadline stays within one period of the time read in that cycle, both ways, so a missed stop notification is noticed at most one period after that read |
| `WorkerPacing.CyclesArePaced` | src/gazebo_vrpn_system_plugin.cpp:193-201 | Without a stop request m further cycles take at least (m-2) periods, however long individual cycles run |
| `WorkerPacing.PacingBoundIsMet` | src/gazebo_vrpn_system_plugin.cpp:193-201 | That bound is attained: three cycles at one instant |
| `MeasurementDelays.MeasurementDelay.DelaySecondsForTracker` | include/gazebo_sim_vrpn_bridge/measurement_delay.h:174-187 | Value and complete new state, random position and caches included, are those of the pure delay model |
| `MeasurementDelays.MeasurementDelay.Reset` | include/gazebo_sim_vrpn_bridge/measurement_delay.h:140-148 | After a reset the state is that of a fresh object of the same configuration, so any call sequence replays what the fresh object returns |
| `MeasurementDelays.MeasurementDelay.Sample` | include/gazebo_sim_vrpn_bridge/measurement_delay.h:256-277 | Draw order (drift, burst decision, burst size, jitter), value, new component state and random position are those of the pure model |
| `DelayDraws.SampleIsTheSum` | include/gazebo_sim_vrpn_bridge/measurement_delay.h:256-277 | From the draws: a sample is base plus new slow value plus burst plus jitter, the state keeps the new slow value and the time, and the stream advances by exactly the draws made, in the order drift, burst decision, burst size, jitter |
| `DelayDraws.BurstIsAdded` | include/gazebo_sim_vrpn_bridge/measurement_delay.h:271-276 | Without drift and jitter: the base where the first uniform draw is not below the burst probability, otherwise the base plus the least burst plus the next uniform draw's share of the range |
| `DelayDraws.JitterShifts` | include/gazebo_sim_vrpn_bridge/measurement_delay.h:276-276 | A positive jitter deviation shifts that sample by the deviation times the next normal draw, and changes nothing else |
| `DelayDraws.DriftComesFirst` | include/gazebo_sim_vrpn_bridge/measurement_delay.h:257-269 | Drift is drawn before all else: factor exp(-elapsed/tau) on the old slow value plus stddev*sqrt(1 - factor^2) times a normal draw; the rest of the sample is that of a component without drift that starts from the new slow value |
| `DelayDraws.OwnIsAdded` | include/gazebo_sim_vrpn_bridge/measurement_delay.h:174-187 | Within a cycle a tracker's delay is the common term plus the sample of its own component, or of the default one if it has none, taken once from its own state, limited to zero and the tracker's maximum; nothing else changes |
| `DelayDraws.CommonIsSampled` | include/gazebo_sim_vrpn_bridge/measurement_delay.h:162-172 | A cycle starts by sampling the common component, once |
| `DelayDraws.FirstDelayIs` | include/gazebo_sim_vrpn_bridge/measurement_delay.h:174-187 | So the first delay of a sampler is made of the common sample and then the tracker's, drawn one after the other from the configured seed, zero standing for one |
| `DelayDraws.BurstExample` | include/gazebo_sim_vrpn_bridge/measurement_delay.h:271-276 | For example base 5 ms, burst probability one half, burst 20 ms, first uniform draw one quarter: 0.025 s |
| `DelayCycles.EveryDelayInRange` | include/gazebo_sim_vrpn_bridge/measurement_delay.h:174-187 | After any calls, for any random stream, each delay lies in [0, tracker maximum]; zero when disabled |
| `DelayCycles.SampledAtMostOnce` | include/gazebo_sim_vrpn_bridge/measurement_delay.h:162-187 | At one cycle time any call sequence leaves the state, random position included, that its distinct calls alone leave: no component is sampled twice |
| `DelayCycles.CommonTermIsShared` | include/gazebo_sim_vrpn_bridge/measurement_delay.h:162-187 | All trackers asked in a cycle get the common term sampled first plus their own, clamped |
| `DelayCycles.RepeatedQueryAgrees` | include/gazebo_sim_vrpn_bridge/measurement_delay.h:279-288 | A repeated query in a cycle returns what the first returned, whatever was asked in between |
| `SlowDrift.SlowStep` | include/gazebo_sim_vrpn_bridge/measurement_delay.h:262-266 | One step of the sampler is factor times previous value plus the noise deviation times one standard normal |
| `SlowDrift.SigmaIsExact` | include/gazebo_sim_vrpn_bridge/measurement_delay.h:264-265 | The square of that deviation is exactly variance*(1 - factor^2) |
| `SlowDrift.StepsCompose` | include/gazebo_sim_vrpn_bridge/measurement_delay.h:262-266 | Two steps have the mean factor and the noise variance of one step of the summed duration |
| `SlowDrift.VarianceAfter` | include/gazebo_sim_vrpn_bridge/measurement_delay.h:262-266 | From zero, after any list of steps, the variance is stddev^2*(1 - product of squared factors) |
| `SlowDrift.VarianceIsBounded` | include/gazebo_sim_vrpn_bridge/measurement_delay.h:262-266 | It never decreases and never exceeds stddev^2 |
| `DelayValidation.Validate` | include/gazebo_sim_vrpn_bridge/measurement_delay.h:207-227 | Accepts if and only if every global and per-tracker check passes; otherwise reports the first failing check in order |
| `DelayValidation.ComponentErrorIs` | include/gazebo_sim_vrpn_bridge/measurement_delay.h:306-323 | A component is accepted if and only if deviations are nonnegative, the time constant positive, the probability in [0, 1] and the burst range nonnegative and not reversed; otherwise the first of these that fails is the error |
| `DelayValidation.GlobalErrorIs` | include/gazebo_sim_vrpn_bridge/measurement_delay.h:207-217 | The global error is that of the first of rate, maximum, margin, common component and history size that is wrong, the latter with an override under the empty name measured instead |
| `DelayValidation.TrackerErrorIs` | include/gazebo_sim_vrpn_bridge/measurement_delay.h:218-226 | A tracker's error is that of its component, its maximum, or the history for the maximum in effect |
| `DelayValidation.AcceptedBoundsEveryName` | include/gazebo_sim_vrpn_bridge/measurement_delay.h:184-227 | Acceptance gives every name, configured or not, a nonnegative maximum delay and a capacity from 4 to the limit, if no override sits under the empty name |
| `DelayValidation.BoundNeedsEmptyNameUnset` | include/gazebo_sim_vrpn_bridge/measurement_delay.h:325-337 | That condition is exact: acceptance bounds every history for all global maxima if and only if the empty name has no override |
| `DelayValidation.HiddenByEmptyName` | include/gazebo_sim_vrpn_bridge/measurement_delay.h:325-337 | With such an override, raising the global maximum without limit is still accepted |
| `DelayValidation.AcceptedHistoryMayBeUnbounded` | include/gazebo_sim_vrpn_bridge/measurement_delay.h:325-337 | For example a maximum of 1000 s at 60 Hz beside an override of zero under the empty name: accepted, with histories of 60003 samples |
| `DelayValidation.OverrideRange` | include/gazebo_sim_vrpn_bridge/measurement_delay.h:189-224 | The range check lets a tracker's maximum pass if and only if it is at least -1, and it is the tracker's own maximum if and only if it is at least 0; otherwise the global one is |
| `DelayValidation.NegativeOverrideIsAccepted` | include/gazebo_sim_vrpn_bridge/measurement_delay.h:218-224 | For example -0.5 is accepted and means the global maximum |
| `ServerConfigs.Validate` | src/server_config.cpp:508-530 | Accepts if and only if mode, rate, scan interval, port, all regular expressions and the delay section are valid; otherwise reports mode, rate, scan interval or port if and only if it is the first of these that is wrong, then the first bad expression, then the first delay error |
| `ServerConfigs.ParseDelayTrackers` | src/server_config.cpp:269-289 | Trims the names, skips empty ones, later entries win; the result has no empty name |
| `ServerConfigs.LoadedTrackersAre` | src/server_config.cpp:269-289 | The loaded section has exactly the nonempty trimmed names of its entries, each with the value of the last entry of that name |
| `ServerConfigs.LoadedBoundsEveryName` | src/server_config.cpp:269-289 | So a configuration that went through the loader bounds the history of every tracker name there could be |
| `ServerConfigs.AcceptedRateMayExceedTheClock` | src/server_config.cpp:508-530 | Acceptance does not bound the rate: a complete configuration at 2 GHz passes and its period is zero ticks |
| `ServerConfigs.TrimmedRemovesEndSlashes` | src/server_config.cpp:24-32 | Trimming removes only slashes, only at the ends, and all of those |
| `ServerConfigs.NamingIgnoresSlashes` | src/server_config.cpp:466-498 | Slashes around a model name never change its tracker |
| `ServerConfigs.FirstMatchIsFirst` | src/server_config.cpp:490-497 | In pattern mode the tracker is the first pattern in the list that matches, and there is none only if no pattern matches |
| `ServerConfigs.ServedIff` | src/server_config.cpp:466-498 | Exactly which models are served at all, over mapping, automatic patterns, canonical names and listed patterns |
| `Naming.TrackerNameIs` | src/server_config.cpp:466-498 | The tracker of every model: the one its bare name is mapped to; in automatic mode the bare name itself if a pattern or, without patterns, the canonical form recognises it; in pattern mode the first listed pattern that recognises it; otherwise none |
| `Naming.BareIsUnique` | src/server_config.cpp:24-32 | The bare name is determined by the model: slashes around it, none at its ends |
| `Naming.MatchingIs` | src/server_config.cpp:430-441 | A pattern recognises a name if it is the name, begins it, or occurs in it, by mode; the empty one recognises nothing |
| `Naming.CanonicalIs` | include/gazebo_sim_vrpn_bridge/model_identity.h:9-23 | A name is canonical if and only if it is "uav", "ugv" or "mecanum" followed by one or more digits |
| `Naming.ServedUnderOne` | src/server_config.cpp:466-498 | Those rules give each name one tracker |
| `ServerConfigs.ModesAreExclusive` | src/server_config.cpp:477-488 | In automatic mode the pattern list has no influence, in pattern mode the automatic patterns have none |
| `TrackerServers.VrpnTrackerServer.ProcessSnapshot` | src/vrpn_tracker_server.cpp:146-184 | The in-place server, its maps and ring buffers, ends in the state the pure step gives |
| `TrackerServers.VrpnTrackerServer.PublishReports` | src/vrpn_tracker_server.cpp:186-262 | Pose, velocity and acceleration reports, their order, stamps and intervals, and the delay state after a publish are those of the pure step; nothing else changes |
| `TrackerServers.VrpnTrackerServer.ResetMeasurementState` | src/vrpn_tracker_server.cpp:424-434 | The loop over the models performs the pure reset |
| `TrackerServers.VrpnTrackerServer.EnsureTrackedModel` | src/vrpn_tracker_server.cpp:325-350 | Registers a model that is new under a name that is free and changes nothing otherwise |
| `TrackerServers.VrpnTrackerServer.SampleForPublish` | src/vrpn_tracker_server.cpp:451-457 | Newest sample with delays off, nearest to send - delay with delays on; consumes randomness only in the second case |
| `TrackerStates.ResetMeasurementIs` | src/vrpn_tracker_server.cpp:424-434 | A reset reaches every model, empties its history, forgets its derivatives and current pose, and keeps capacities, names and the rest |
| `TrackerStates.ResetForgets` | src/vrpn_tracker_server.cpp:424-434 | Of each model only the current pose flag, the four derivative flags and the samples are lost, and the capacity is kept |
| `TrackerStates.ClearPosesIs` | src/vrpn_tracker_server.cpp:171-173 | Clearing reaches every model's pose flag and nothing else |
| `ServerRuns.EveryRegistryIsConsistent` | src/vrpn_tracker_server.cpp:146-350 | In every reachable state the two name tables are mutually inverse, every history has capacity at least 4, and a current pose implies a nonempty history |
| `Registrations.RegistrationsOnlyGrow` | src/vrpn_tracker_server.cpp:325-350 | Along any run both name tables only grow; names, trackers and extrinsics never change, resets included |
| `Registrations.EveryModelIsConfigured` | src/vrpn_tracker_server.cpp:325-350 | In every reachable state each model has the tracker name, extrinsic and history capacity that the configuration gives: capacity survives all resets |
| `Naming.EveryModelIsServed` | src/vrpn_tracker_server.cpp:325-350 | In every reachable state each model has the tracker name those naming rules give its bare name, that tracker's extrinsic or the default one, and a history of 4 samples with delays off, otherwise the least number from 4 up that is at least 3 more than maximum and margin times the rate |
| `Naming.CapacityIs` | include/gazebo_sim_vrpn_bridge/measurement_delay.h:197-205 | That number is what the capacity formula computes |
| `Registrations.FirstComeOwnership` | src/vrpn_tracker_server.cpp:331-336 | Once a tracker name is owned, a model that asks for it is registered if and only if it is the owner |
| `Registrations.NewTrackerGoesToFirst` | src/vrpn_tracker_server.cpp:308-336 | A tracker that a snapshot brings about belongs to the first of its models that asks for it |
| `Registrations.TrackersAfterSnapshot` | src/vrpn_tracker_server.cpp:304-323 | After a snapshot a tracker exists if and only if it existed before, or a model of the snapshot asks for it and a scan is due: no scan was made before, the interval has passed since the capture time of the last one, or that was zero |
| `Registrations.ScansAreSpaced` | src/vrpn_tracker_server.cpp:304-306 | Successive scans of a run are an interval apart, except after one at time zero |
| `Registrations.PosesAreCurrent` | src/vrpn_tracker_server.cpp:171-182 | After a snapshot a tracked model has a current pose if and only if it is in it, and then its newest sample has that pose and the snapshot's capture time |
| `Registrations.PublishReportsEveryPose` | src/vrpn_tracker_server.cpp:186-204 | Every publish reports exactly the models with a current pose, once each, in key order |
| `Registrations.OrderIsTheKeys` | src/vrpn_tracker_server.cpp:189-189 | The iteration order is the tracked models, ascending, without repetition |
| `KeyOrder.LessIs` | src/vrpn_tracker_server.cpp:189-189 | That order is lexicographic: the smaller string ends, or has the smaller character, where the two first differ |
| `Epochs.EverySampleIsExplained` | src/vrpn_tracker_server.cpp:146-183 | Each stored sample was taken, in order, from a snapshot of the current epoch that contained the model, with its times and with the model's pose there under the configured extrinsic |
| `Epochs.EpochsNeverMix` | src/vrpn_tracker_server.cpp:146-165 | Any two samples of a history share the current clock source, and simulation time fell between them by at most 1e-9 s per snapshot processed in between |
| `Epochs.HistoryGrowsWithinEpoch` | src/vrpn_tracker_server.cpp:436-449 | Within an epoch a history only grows at its end, under one capacity |
| `Epochs.OriginsIncrease` | src/vrpn_tracker_server.cpp:174-183 | With unique model names the samples of a history come from distinct snapshots, in order |
| `Epochs.HistoriesAreOrdered` | src/vrpn_tracker_server.cpp:436-449 | With nondecreasing capture times every history is sorted by time |
| `Selections.SentIsSound` | src/vrpn_tracker_server.cpp:186-210 | Whatever is published comes from a registered model's nonempty history, for a target within the tracker's maximum delay of the send time |
| `WireStamps.StampIs` | src/vrpn_tracker_server.cpp:205-210 | What is on the wire, over every run: under `send_time` the nearest microsecond of the last snapshot's simulation time, or of the send time where the wall clock is the source; under `sample_time` that of the simulation time of the snapshot the sample was taken from, or of its capture time |
| `WireStamps.TargetIs` | src/vrpn_tracker_server.cpp:451-457 | Every target of a run is the send time minus the sum of the common term its cycle started with and its tracker's own term of that cycle, limited to zero and the tracker's maximum; none with delays off |
| `WireStamps.ReportsAre` | src/vrpn_tracker_server.cpp:205-260 | The reports of a publish are, selection by selection and no others, the pose, then linear and angular velocity if there is one, then linear and angular acceleration if there is one, under one tracker, stamp and interval |
| `Selections.SelectionNeverGoesBack` | src/vrpn_tracker_server.cpp:451-457 | Over whole runs, across pushes, evictions and publishes of an epoch: a later publish whose target has not moved back selects a sample pushed no earlier |
| `Selections.StampsNeverDecrease` | src/vrpn_tracker_server.cpp:205-210 | Wire stamps never decrease within an epoch, whatever earlier or later epochs did: `send_time` ones for any delays, `sample_time` ones when targets do not move back; under simulation time provided it is in order since the epoch began, under wall time without that |
| `Selections.EpochsAreInOrderIff` | src/vrpn_tracker_server.cpp:161-166 | Simulation time is in order within every epoch of a run if and only if each of its steps back starts a new epoch, that is exceeds the tolerance |
| `Selections.SendStampsFallLittle` | src/vrpn_tracker_server.cpp:205-208 | Whatever simulation time does, a later `send_time` stamp of an epoch is earlier by at most one microsecond and the 1e-9 s tolerance per snapshot in between |
| `Selections.StampMayStepBack` | src/vrpn_tracker_server.cpp:161-166 | That microsecond is needed: simulation times 0.5 and then 0.4995 microseconds lie in one epoch and convert to 1 and then 0 microseconds |
| `SteadyDelays.SteadySelectionMovesForward` | include/gazebo_sim_vrpn_bridge/measurement_delay.h:174-187 | Without randomness selection never moves back, and neither do stamps when simulation time is in order since the epoch began, under either policy, with delays on or off |
| `SteadyDelays.QuietDelayIsSteady` | include/gazebo_sim_vrpn_bridge/measurement_delay.h:256-277 | Without randomness a delay is its two base terms, clamped, whatever was asked before |
| `Prefiltering.FilteringFirstChangesNothing` | src/gazebo_vrpn_system_plugin.cpp:153-163 | Filtering snapshots by the plugin's rule first gives, in every run, the very state that full snapshots give: models, names, histories, flags, delay state |
| `Prefiltering.SameReports` | src/gazebo_vrpn_system_plugin.cpp:153-163 | And every publish sends the same reports |
| `Prefiltering.DiscoverModels` | src/gazebo_vrpn_system_plugin.cpp:153-163 | The discovery loop computes that filter |
| `Motion.DerivativeLadder` | src/vrpn_tracker_server.cpp:363-422 | After k successive in-range intervals since initialisation: velocity iff k >= 1, acceleration iff k >= 2, one filter input per interval |
| `Motion.Telescoping` | src/vrpn_tracker_server.cpp:376-401 | Raw velocity times dt sums to the displacement over those intervals, raw acceleration times dt to the change of raw velocity since the first |
| `Motion.ReportIntervalIsPositive` | src/vrpn_tracker_server.cpp:459-464 | After every update the report interval is positive, and is the interval just measured whenever a velocity is present |
| `ServerMotion.MotionIsAnEpochRun` | src/vrpn_tracker_server.cpp:352-434 | In every reachable server state a model's derivative state is the run of its epoch's poses from a forgotten state |
| `ServerMotion.DerivativesClimb` | src/vrpn_tracker_server.cpp:352-401 | So ladder and telescoping hold for every model in every reachable state |
| `ServerMotion.EverySampleShowsMotion` | src/vrpn_tracker_server.cpp:436-449 | In every reachable state the samples of a history are the derivative steps of its epoch, one each: sample k carries the pose, velocities, accelerations, flags and report interval of the derivative run after the first k + 1 steps, whatever has been pushed since |
| `ServerMotion.StepsHaveOrigins` | src/vrpn_tracker_server.cpp:174-183 | Step k was taken at the simulation time of the snapshot that sample k comes from |
| `SampleMotion.SampleFlagsAre` | src/vrpn_tracker_server.cpp:363-374 | In every reachable state sample k has a velocity iff the simulation times of the snapshots that it and the sample before were taken from are more than 1e-6 s and no more than the timeout apart, and an acceleration iff also the interval before was; its report interval is that distance, or one publish period without a velocity |
| `SampleMotion.SampleDerivativesAre` | src/vrpn_tracker_server.cpp:376-422 | In every reachable state a sample's linear and angular velocity are the low-passed difference quotients of positions and of orientations since the last interval out of range, under the velocity cutoff, its accelerations those of the raw velocities under the acceleration cutoff, and both are zero where absent |
| `SampleMotion.RunShows` | src/vrpn_tracker_server.cpp:363-422 | The derivative state after a step depends on the steps since the last break only |
| `ServerMotion.RawAngularIsOfTheModel` | src/vrpn_tracker_server.cpp:352-378 | In every reachable state, after an interval in range, the raw angular velocity stored for a tracker is that of its body between its last two poses, for unit poses, a unit extrinsic, and whichever quaternion of either sign is read from the transforms; after an exact half turn it may instead be that of the body given by its other quaternion |
| `WorldPoses.SamplePoseIs` | src/vrpn_tracker_server.cpp:352-360 | In every reachable state, for orientations that are not zero and a unit extrinsic, a sample's pose is that of its tracker on the body as the snapshot it was taken from has it: the body position plus the rotation matrix of the normalised body orientation times the extrinsic offset, and the product of the rotations up to sign |
| `WorldPoses.RotateIsTurned` | src/vrpn_tracker_server.cpp:354-355 | Rotating by a unit quaternion is multiplying by its rotation matrix, coordinate by coordinate |
| `WorldPoses.NormalizeIs` | src/vrpn_tracker_server.cpp:33-37 | A quaternion that is not zero is normalised to the unit one in its direction |
| `WorldPoses.DeltaTurns` | src/vrpn_tracker_server.cpp:63-69 | The canonical delta takes the previous orientation to the current one, as the quaternion with no negative scalar part |
| `WorldPoses.VelocityTurns` | src/vrpn_tracker_server.cpp:71-75 | Over the interval the angular velocity turns by the delta's angle about its axis, and is zero for angles below 1e-9 |
| `Rotations.ProductAssociates` | src/vrpn_tracker_server.cpp:64-64 | The Hamilton product is associative |
| `Rotations.NormIsMultiplicative` | src/vrpn_tracker_server.cpp:64-65 | and its norm multiplicative, for all quaternions |
| `Rotations.ConjugateOfProduct` | src/vrpn_tracker_server.cpp:64-64 | Conjugation reverses products |
| `Rotations.ExtrinsicCancels` | src/vrpn_tracker_server.cpp:63-65 | A common body-to-tracker rotation cancels in current times inverse previous |
| `Rotations.SignsFactorOut` | src/vrpn_tracker_server.cpp:63-69 | The sign with which either rotation is given factors out of the relative rotation |
| `Rotations.AngularVelocityIsIntrinsic` | src/vrpn_tracker_server.cpp:63-75 | Angular velocity does not depend on the extrinsic, nor, away from half turns, on which of its two quaternions either rotation is given by |
| `Rotations.AngularVelocityUpToSign` | src/vrpn_tracker_server.cpp:63-75 | At half turns too the signs matter only as if the body itself had been given by its other quaternion |
| `Rotations.RawAngularIsOfTheBody` | src/vrpn_tracker_server.cpp:352-378 | One derivative step whose two stored rotations are those of the body times the extrinsic, up to sign, stores the angular velocity of the body, or at a half turn that of its other quaternion |
| `Rotations.SignIsIrrelevantIff` | src/vrpn_tracker_server.cpp:66-69 | The exception is exact: negating a quaternion leaves the canonical delta alone if and only if its scalar part is not zero |
| `Rotations.HalfTurnDependsOnSign` | src/vrpn_tracker_server.cpp:66-69 | For the half turn about the x axis the two quaternions give opposite canonical deltas |
| `Rotations.HalfTurnIsReversed` | src/vrpn_tracker_server.cpp:66-74 | For example the half turn about the x axis: with the angle and axis of its two deltas, the two quaternions give different angular velocities |
| `Timevals.TimevalIsNearest` | src/vrpn_tracker_server.cpp:87-98 | 0 <= usec < 1000000, and the total is max(t, 0) rounded to the nearest microsecond |
| `Timevals.TimevalIsMonotone` | src/vrpn_tracker_server.cpp:87-98 | Later times never convert to lexicographically earlier stamps |
| `Timevals.TimevalFallsLittle` | src/vrpn_tracker_server.cpp:87-98 | A time that falls by at most some amount takes its conversion back by at most that and one microsecond |
| `Timevals.ExactMicrosecondsSurvive` | src/vrpn_tracker_server.cpp:87-98 | Exact nonnegative microsecond times survive unchanged |
| `BackendComparison.BisectLeft` | tools/compare_vrpn_backends.py:88-88 | The insertion point: everything before is smaller, everything from it on is not |
| `BackendComparison.NearestRecord` | tools/compare_vrpn_backends.py:88-96 | Of the two candidates around it, the chosen one is nearest among all records, the earlier time on ties |
| `BackendComparison.NearestToIsUnique` | tools/compare_vrpn_backends.py:96-96 | That determines the record, repeated times included |
| `BackendComparison.PairRecords` | tools/compare_vrpn_backends.py:73-101 | Pairs exactly the left records that have any partner within the window, in order, each with the nearest right record and its signed offset |
| `BackendComparison.SortedValuesAre` | tools/compare_vrpn_backends.py:23-23 | Sorting keeps the values and orders them |
| `BackendComparison.PercentileIs` | tools/compare_vrpn_backends.py:20-30 | For a rank k + w, fraction times the greatest rank: the k-th value of any sorted order of the values if w is zero, otherwise (1 - w) of it plus w of the next |
| `BackendComparison.PercentileInRange` | tools/compare_vrpn_backends.py:20-30 | A percentile lies between least and greatest value, which are the 0 and 1 percentiles |
| `BackendComparison.PercentileIsMonotone` | tools/compare_vrpn_backends.py:20-30 | and is monotone in the fraction |
| `BackendComparison.PercentileIgnoresOrder` | tools/compare_vrpn_backends.py:20-30 | and invariant under permutation of the values |

## Left out

- Rounding, NaN and infinities of `double`, and the undefined cast of a negative capacity to an unsigned
  integer: with real arithmetic a negative capacity becomes 4.
- Overflow of 64-bit sequence numbers and time points.
- VRPN connections and report calls, ROS parameters, Gazebo events and model access, logging and the stale
  warning: foreign input and output.
- Measurement noise on the reported pose and the roll-pitch-yaw encoding of angular rates: reports hold the
  sample's pose and vectors as they are.
- The regular-expression engine, its cache, and the exception on an invalid expression during matching:
  validation has rejected such configurations.
- The internals of the Butterworth filters (their library is not part of this model): claims are about the
  raw derivatives that go in.
- Which of its two quaternions `getRotation` reads from a transform: any choice is allowed.  The normalisation of
  a zero quaternion.
- History buffers are kept in a table beside the tracked models rather than inside the records of the
  server's map, and records are replaced in the map rather than updated field by field.
- `TrackerServers.VrpnTrackerServer.PublishReports`: does not model a status returned by a report call,
  because it only leads to a warning.
- `DelayValidation.Validate`: the order in which the trackers are checked is a parameter instead of the key
  order, so the reported error is the first one in any order.
- `CaptureLimiting.CaptureLimiter.OnUpdate`: requires a period of at least one tick, because the loop does not
  end otherwise, as `CatchUpEndsIff` shows.
- `BackendComparison.Percentile`: fractions outside [0, 1], which the tool never passes.
- `BackendComparison.PairRecords`: the pose and velocity errors of a pair, which are plain distances; receive
  times are taken to be sorted.
- `WorkerPacing.Waited`: a stop request is modelled only as the end of the run.
- The models the plugin holds between two of its scans: any list of models may come with a capture.
- An exception while a snapshot is built is a capture that fails after the limiter has admitted it.
- The type checks and field copying of the YAML loader other than the delay-tracker names.
- The legacy node's loop and its rate object; launch, world and test files.
