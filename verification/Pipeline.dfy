/** The whole plugin: Gazebo's thread captures at a limited rate into the mailbox, the worker takes,
    processes and publishes.  The steps of the two threads interleave freely on one clock, in ticks. */
module Pipeline {
  import opened Numerics
  import opened Geometry
  import opened SampleHistory
  import opened CaptureLimiting
  import opened Coverage
  import opened Mailboxes
  import opened ServerConfigs
  import opened Timevals
  import opened TrackerStates
  import opened ServerRuns
  import opened Epochs
  import opened Selections
  import MeasurementDelays
  import Motion

  /** `Update(now)` is one simulation step: the limiter reads the clock.  If it admits a capture, `Stamp` reads
      the clock again, for the wall stamp, and copies the poses, which may fail; `Deliver` is the critical
      section that hands the snapshot over.  `Take` is the worker's critical section and `Cycle` the rest of
      its cycle: it processes what it took and publishes at `send`.  A step of a thread that is elsewhere in
      its program does nothing. */
  datatype Action =
    | Update(now: int)
    | Stamp(wall: int, sampleTime: real, models: seq<ModelPose>, fails: bool)
    | Deliver
    | Take
    | Cycle(send: int)

  /** Where Gazebo's thread is within one update. */
  datatype Producer = Idle | Admitted(steady: int) | Stamped(capture: Capture, snapshot: Snapshot)

  /** `readings` are the limiter's clock readings, `snapshots` what was handed over and `captures` the two clock
      readings of each, `events` what the server was given, and `sources` which snapshot each of those events is. */
  datatype Plugin = Plugin(
    clock: int,
    readings: seq<int>,
    producer: Producer,
    mailbox: Mailbox,
    captures: seq<Capture>,
    snapshots: seq<Snapshot>,
    inHand: Option<Option<Snapshot>>,
    events: seq<Event>,
    sources: seq<nat>)

  const STARTED := Plugin(0, [], Idle, EMPTY_MAILBOX, [], [], None, [], [])

  function Step(s: Plugin, period: int, action: Action): Plugin
    requires period >= 1
  {
    match action
    case Update(now) =>
      if !s.producer.Idle? then s
      else
        var admitted := Admit(NextAfter(s.readings, period), period, now).captured;
        s.(clock := now, readings := s.readings + [now], producer := if admitted then Admitted(now) else Idle)
    case Stamp(wall, sampleTime, models, fails) =>
      if !s.producer.Admitted? then s
      else
        var snapshot := Snapshot(sampleTime, Seconds(wall), SimulationTime, models);
        s.(clock := wall, producer := if fails then Idle else Stamped(Capture(s.producer.steady, wall), snapshot))
    case Deliver =>
      if !s.producer.Stamped? then s
      else s.(producer := Idle, mailbox := Put(s.mailbox, s.producer.snapshot),
              captures := s.captures + [s.producer.capture], snapshots := s.snapshots + [s.producer.snapshot])
    case Take =>
      if s.inHand.Some? then s
      else s.(inHand := Some(if Pending(s.mailbox) then Some(s.mailbox.slot) else None), mailbox := Took(s.mailbox))
    case Cycle(send) =>
      if s.inHand.None? then s
      else
        var processed := if s.inHand.value.Some? then [Snap(s.inHand.value.value)] else [];
        var source := if s.inHand.value.Some? then [s.mailbox.processed] else [];
        s.(clock := send, inHand := None,
           events := s.events + processed + [Send(Seconds(send))],
           sources := s.sources + source + [0])
  }

  function Run(period: int, actions: seq<Action>): Plugin
    requires period >= 1
  {
    if actions == [] then STARTED
    else Step(Run(period, actions[..|actions| - 1]), period, actions[|actions| - 1])
  }

  /** The clock never runs backwards, and Gazebo model names are unique. */
  ghost predicate Allowed(s: Plugin, action: Action) {
    match action
    case Update(now) => s.clock <= now
    case Stamp(wall, _, models, _) => s.clock <= wall && NamesDistinct(models)
    case Deliver => true
    case Take => true
    case Cycle(send) => s.clock <= send
  }

  ghost predicate AllAllowed(period: int, actions: seq<Action>)
    requires period >= 1
  {
    forall i {:trigger actions[i]} :: 0 <= i < |actions| ==> Allowed(Run(period, actions[..i]), actions[i])
  }

  // What every interleaving keeps.

  /** The producer's side: captures fall in distinct slots of the limiter's grid, in clock order. */
  ghost predicate CapturesFit(s: Plugin, period: int)
    requires period >= 1
  {
    && ClockReadings(s.readings) && 0 <= s.clock
    && (s.readings != [] ==> s.readings[|s.readings| - 1] <= s.clock)
    && (s.captures != [] ==> s.readings != [])
    && OneClock(s.captures)
    && (forall k :: 0 <= k < |s.captures| ==> s.captures[k].wall <= s.clock)
    && (s.readings != [] ==>
          && SlotIncreasing(Steadies(s.captures), s.readings[0], period)
          && forall k :: 0 <= k < |s.captures| ==>
               Slot(s.readings[0], period, s.captures[k].steady) <=
               Slot(s.readings[0], period, s.readings[|s.readings| - 1]))
  }

  /** A capture under way comes after all those handed over, in a slot of its own. */
  ghost predicate NextCapture(s: Plugin, period: int, steady: int)
    requires period >= 1
  {
    && s.readings != [] && steady == s.readings[|s.readings| - 1]
    && forall k :: 0 <= k < |s.captures| ==>
      && s.captures[k].wall <= steady
      && Slot(s.readings[0], period, s.captures[k].steady) < Slot(s.readings[0], period, steady)
  }

  /** What is under way in Gazebo's thread. */
  ghost predicate ProducerFits(s: Plugin, period: int)
    requires period >= 1
  {
    match s.producer
    case Idle => true
    case Admitted(steady) => NextCapture(s, period, steady)
    case Stamped(capture, snapshot) =>
      && NextCapture(s, period, capture.steady) && capture.steady <= capture.wall <= s.clock
      && StampedAt(snapshot, capture.wall)
  }

  ghost predicate StampedAt(snapshot: Snapshot, wall: int) {
    snapshot.captureWallTime == Seconds(wall) && snapshot.source == SimulationTime && NamesDistinct(snapshot.models)
  }

  /** A snapshot the plugin made from its capture number `n`, counted from one. */
  ghost predicate MadeFrom(snapshot: Snapshot, captures: seq<Capture>, n: nat) {
    1 <= n <= |captures| && StampedAt(snapshot, captures[n - 1].wall)
  }

  /** The mailbox: what is pending is the latest capture, what is in hand is the one taken last. */
  ghost predicate HandOver(s: Plugin) {
    && s.mailbox.processed <= s.mailbox.sequence == |s.captures|
    && (Pending(s.mailbox) ==> MadeFrom(s.mailbox.slot, s.captures, s.mailbox.sequence))
    && (s.inHand.Some? && s.inHand.value.Some? ==> MadeFrom(s.inHand.value.value, s.captures, s.mailbox.processed))
  }

  /** Each snapshot event is one of the first `taken` captures, in capture order, and every publish came
      after the captures it could draw on. */
  ghost predicate EventsFrom(events: seq<Event>, sources: seq<nat>, captures: seq<Capture>, taken: nat, clock: int) {
    && |events| == |sources|
    && (forall i :: 0 <= i < |events| && events[i].Snap? ==>
          MadeFrom(events[i].snapshot, captures, sources[i]) && sources[i] <= taken)
    && (forall i, j :: 0 <= i < j < |events| && events[i].Snap? && events[j].Snap? ==> sources[i] < sources[j])
    && (forall i, j :: 0 <= i < j < |events| && events[i].Snap? && events[j].Send? ==>
          events[i].snapshot.captureWallTime <= events[j].time)
    && (forall i, j :: 0 <= i < j < |events| && events[i].Send? && events[j].Send? ==> events[i].time <= events[j].time)
    && (forall i :: 0 <= i < |events| && events[i].Send? ==> events[i].time <= Seconds(clock))
  }

  predicate InHand(s: Plugin) {
    s.inHand.Some? && s.inHand.value.Some?
  }

  /** The server's side: what is in hand has not been given to it yet. */
  ghost predicate EventsFit(s: Plugin) {
    && (InHand(s) ==> s.mailbox.processed >= 1)
    && EventsFrom(s.events, s.sources, s.captures, if InHand(s) then s.mailbox.processed - 1 else s.mailbox.processed,
                  s.clock)
  }

  ghost predicate PluginInv(s: Plugin, period: int)
    requires period >= 1
  {
    CapturesFit(s, period) && ProducerFits(s, period) && HandOver(s) && EventsFit(s)
  }

  lemma ReadingAppended(readings: seq<int>, period: int, steady: int)
    requires period >= 1 && ClockReadings(readings) && 0 <= steady
    requires readings != [] ==> readings[|readings| - 1] <= steady
    ensures ClockReadings(readings + [steady])
    ensures readings != [] ==>
      var first, last := readings[0], readings[|readings| - 1];
      && Slot(first, period, last) <= Slot(first, period, steady)
      && (Admit(NextAfter(readings, period), period, steady).captured <==>
            Slot(first, period, last) < Slot(first, period, steady))
  {
    if readings != [] {
      NextIsOnGrid(readings, period);
      AdmitKeepsGrid(readings[0], period, readings[|readings| - 1], steady);
      DivMono(readings[|readings| - 1] - readings[0], steady - readings[0], period);
    }
  }

  lemma CaptureAppended(captures: seq<Capture>, first: int, period: int, more: Capture)
    requires period >= 1 && OneClock(captures) && SlotIncreasing(Steadies(captures), first, period)
    requires forall k :: 0 <= k < |captures| ==>
      captures[k].wall <= more.steady && Slot(first, period, captures[k].steady) < Slot(first, period, more.steady)
    requires more.steady <= more.wall
    ensures OneClock(captures + [more]) && SlotIncreasing(Steadies(captures + [more]), first, period)
  {
    assert Steadies(captures + [more]) == Steadies(captures) + [more.steady];
    assert forall k :: 0 <= k < |captures| ==> Steadies(captures)[k] == captures[k].steady;
  }

  lemma EventsStillFrom(events: seq<Event>, sources: seq<nat>, captures: seq<Capture>, taken: nat, clock: int,
                        captures': seq<Capture>, clock': int)
    requires EventsFrom(events, sources, captures, taken, clock)
    requires captures <= captures' && clock <= clock'
    ensures EventsFrom(events, sources, captures', taken, clock')
  {
    SecondsMono(clock, clock');
    forall i | 0 <= i < |events| && events[i].Snap?
      ensures MadeFrom(events[i].snapshot, captures', sources[i])
    {
      assert MadeFrom(events[i].snapshot, captures, sources[i]);
    }
  }

  /** The worker's side does not notice the producer's steps. */
  lemma EventsStillFit(s: Plugin, t: Plugin)
    requires EventsFit(s) && s.captures <= t.captures && s.clock <= t.clock
    requires t.events == s.events && t.sources == s.sources && t.inHand == s.inHand
    requires t.mailbox.processed == s.mailbox.processed
    ensures EventsFit(t)
  {
    EventsStillFrom(s.events, s.sources, s.captures,
                    if InHand(s) then s.mailbox.processed - 1 else s.mailbox.processed, s.clock, t.captures, t.clock);
  }

  lemma UpdateKeeps(s: Plugin, period: int, now: int)
    requires period >= 1 && PluginInv(s, period) && s.clock <= now
    ensures PluginInv(Step(s, period, Update(now)), period)
  {
    if s.producer.Idle? {
      var t := Step(s, period, Update(now));
      ReadingAppended(s.readings, period, now);
      if s.readings != [] {
        assert t.readings[0] == s.readings[0];
      }
      EventsStillFit(s, t);
    }
  }

  lemma StampKeeps(s: Plugin, period: int, action: Action)
    requires period >= 1 && PluginInv(s, period) && action.Stamp? && Allowed(s, action)
    ensures PluginInv(Step(s, period, action), period)
  {
    if s.producer.Admitted? {
      EventsStillFit(s, Step(s, period, action));
    }
  }

  lemma DeliverKeeps(s: Plugin, period: int)
    requires period >= 1 && PluginInv(s, period)
    ensures PluginInv(Step(s, period, Deliver), period)
  {
    if s.producer.Stamped? {
      CaptureAppended(s.captures, s.readings[0], period, s.producer.capture);
      EventsStillFit(s, Step(s, period, Deliver));
    }
  }

  lemma TakeKeeps(s: Plugin, period: int)
    requires period >= 1 && PluginInv(s, period)
    ensures PluginInv(Step(s, period, Take), period)
  {}

  lemma SnapAppended(events: seq<Event>, sources: seq<nat>, captures: seq<Capture>, taken: nat, clock: int,
                     snapshot: Snapshot)
    requires EventsFrom(events, sources, captures, taken, clock) && MadeFrom(snapshot, captures, taken + 1)
    ensures EventsFrom(events + [Snap(snapshot)], sources + [taken + 1], captures, taken + 1, clock)
  {}

  lemma SendAppended(events: seq<Event>, sources: seq<nat>, captures: seq<Capture>, taken: nat, clock: int, send: int)
    requires EventsFrom(events, sources, captures, taken, clock) && clock <= send
    requires forall k :: 0 <= k < |captures| ==> captures[k].wall <= clock
    ensures EventsFrom(events + [Send(Seconds(send))], sources + [0], captures, taken, send)
  {
    SecondsMono(clock, send);
    forall i | 0 <= i < |events| && events[i].Snap?
      ensures events[i].snapshot.captureWallTime <= Seconds(send)
    {
      assert MadeFrom(events[i].snapshot, captures, sources[i]);
      SecondsMono(captures[sources[i] - 1].wall, send);
    }
  }

  lemma CycleKeeps(s: Plugin, period: int, send: int)
    requires period >= 1 && PluginInv(s, period) && s.clock <= send
    ensures PluginInv(Step(s, period, Cycle(send)), period)
  {
    if s.inHand.Some? {
      if InHand(s) {
        var given := s.events + [Snap(s.inHand.value.value)];
        SnapAppended(s.events, s.sources, s.captures, s.mailbox.processed - 1, s.clock, s.inHand.value.value);
        SendAppended(given, s.sources + [s.mailbox.processed], s.captures, s.mailbox.processed, s.clock, send);
      } else {
        SendAppended(s.events, s.sources, s.captures, s.mailbox.processed, s.clock, send);
        assert s.events + [] == s.events && s.sources + [] == s.sources;
      }
    }
  }

  lemma {:induction false} EveryInterleavingFits(period: int, actions: seq<Action>)
    requires period >= 1 && AllAllowed(period, actions)
    ensures PluginInv(Run(period, actions), period)
  {
    if actions != [] {
      var front, last := actions[..|actions| - 1], actions[|actions| - 1];
      assert AllAllowed(period, front) by {
        forall i | 0 <= i < |front| ensures Allowed(Run(period, front[..i]), front[i]) {
          assert front[..i] == actions[..i] && front[i] == actions[i];
        }
      }
      EveryInterleavingFits(period, front);
      assert Allowed(Run(period, front), last);
      var s := Run(period, front);
      match last
      case Update(now) =>
        UpdateKeeps(s, period, now);
      case Stamp(_, _, _, _) =>
        StampKeeps(s, period, last);
      case Deliver =>
        DeliverKeeps(s, period);
      case Take =>
        TakeKeeps(s, period);
      case Cycle(send) =>
        CycleKeeps(s, period, send);
    }
  }

  // What the server is given is what was handed over.

  ghost predicate Handed(s: Plugin) {
    && s.mailbox.processed <= s.mailbox.sequence == |s.snapshots| == |s.captures|
    && (Pending(s.mailbox) ==> s.mailbox.slot == s.snapshots[s.mailbox.sequence - 1])
    && (InHand(s) ==> s.mailbox.processed >= 1 && s.inHand.value.value == s.snapshots[s.mailbox.processed - 1])
    && |s.events| == |s.sources|
    && forall k :: 0 <= k < |s.events| && s.events[k].Snap? ==>
      IsHanded(s.events[k].snapshot, s.snapshots, s.sources[k])
  }

  ghost predicate IsHanded(snapshot: Snapshot, snapshots: seq<Snapshot>, n: nat) {
    1 <= n <= |snapshots| && snapshot == snapshots[n - 1]
  }

  lemma StepKeepsHanded(s: Plugin, period: int, action: Action)
    requires period >= 1 && Handed(s)
    ensures Handed(Step(s, period, action))
  {
    var t := Step(s, period, action);
    assert forall k :: 0 <= k < |s.snapshots| ==> t.snapshots[k] == s.snapshots[k];
    forall k | 0 <= k < |t.events| && t.events[k].Snap?
      ensures IsHanded(t.events[k].snapshot, t.snapshots, t.sources[k])
    {
      if k < |s.events| {
        assert IsHanded(s.events[k].snapshot, s.snapshots, s.sources[k]);
      }
    }
  }

  lemma {:induction false} EveryEventWasHandedOver(period: int, actions: seq<Action>)
    requires period >= 1
    ensures Handed(Run(period, actions))
  {
    if actions != [] {
      EveryEventWasHandedOver(period, actions[..|actions| - 1]);
      StepKeepsHanded(Run(period, actions[..|actions| - 1]), period, actions[|actions| - 1]);
    }
  }

  // The histories the worker keeps are fed by the limiter.

  function Picked(captures: seq<Capture>, numbers: seq<nat>): seq<Capture>
    requires forall k :: 0 <= k < |numbers| ==> 1 <= numbers[k] <= |captures|
  {
    seq(|numbers|, k requires 0 <= k < |numbers| => captures[numbers[k] - 1])
  }

  lemma PickedFit(captures: seq<Capture>, numbers: seq<nat>, first: int, period: int)
    requires period >= 1 && OneClock(captures) && SlotIncreasing(Steadies(captures), first, period)
    requires forall k :: 0 <= k < |numbers| ==> 1 <= numbers[k] <= |captures|
    requires forall j, k :: 0 <= j < k < |numbers| ==> numbers[j] < numbers[k]
    ensures OneClock(Picked(captures, numbers)) && SlotIncreasing(Steadies(Picked(captures, numbers)), first, period)
    ensures SingleRead(captures) ==> SingleRead(Picked(captures, numbers))
  {
    var picked := Picked(captures, numbers);
    forall j, k | 0 <= j < k < |picked|
      ensures picked[j].wall <= picked[k].steady
      ensures Slot(first, period, Steadies(picked)[j]) < Slot(first, period, Steadies(picked)[k])
    {
      assert Steadies(captures)[numbers[j] - 1] == picked[j].steady;
      assert Steadies(captures)[numbers[k] - 1] == picked[k].steady;
    }
  }

  /** The captures behind a model's samples. */
  function SampleSources(p: Platform, config: ServerConfig, s: Plugin, i: nat, name: string): seq<nat>
    requires i <= |s.events| == |s.sources|
  {
    var origins := Origins(p, config, s.events[..i], name);
    seq(|origins|, k requires 0 <= k < |origins| => if origins[k] < i then s.sources[origins[k]] else 0)
  }

  lemma ExplainedByCaptures(f: Motion.MotionFunctions, extrinsic: Transform, name: string, events: seq<Event>,
                            sources: seq<nat>, captures: seq<Capture>, taken: nat, clock: int, i: nat,
                            pushed: seq<TrackerSample>, origins: seq<nat>, numbers: seq<nat>)
    requires EventsFrom(events, sources, captures, taken, clock) && i < |events| && events[i].Send?
    requires Explained(f, extrinsic, name, events[..i], pushed, origins) && Increasing(origins, i)
    requires |numbers| == |origins| && forall k :: 0 <= k < |origins| ==> numbers[k] == sources[origins[k]]
    ensures forall k :: 0 <= k < |numbers| ==> 1 <= numbers[k] <= |captures|
    ensures forall j, k :: 0 <= j < k < |numbers| ==> numbers[j] < numbers[k]
    ensures StampedBy(pushed, Picked(captures, numbers))
    ensures pushed != [] ==> pushed[|pushed| - 1].wallTime <= events[i].time
  {
    forall k | 0 <= k < |origins|
      ensures events[origins[k]].Snap? && MadeFrom(events[origins[k]].snapshot, captures, numbers[k])
      ensures pushed[k].wallTime == events[origins[k]].snapshot.captureWallTime
    {
      assert events[..i][origins[k]] == events[origins[k]];
    }
  }

  lemma OriginsIncreaseHere(p: Platform, config: ServerConfig, s: Plugin, i: nat, name: string)
    requires EventsFit(s) && i <= |s.events|
    ensures Increasing(Origins(p, config, s.events[..i], name), i)
  {
    forall k | 0 <= k < i && s.events[k].Snap?
      ensures NamesDistinct(s.events[k].snapshot.models)
    {
      assert MadeFrom(s.events[k].snapshot, s.captures, s.sources[k]);
    }
    OriginsIncrease(p, config, s.events[..i], name);
  }

  lemma SamplesFit(p: Platform, config: ServerConfig, s: Plugin, period: int, i: nat, name: string)
    requires period >= 1 && PluginInv(s, period) && i < |s.events| && s.events[i].Send?
    requires name in ServerRuns.Run(p, config, s.events[..i]).registry.tracked
    ensures var numbers := SampleSources(p, config, s, i, name);
      var pushed := ServerRuns.Run(p, config, s.events[..i]).registry.HistoryOf(name).pushed;
      && (forall k :: 0 <= k < |numbers| ==> 1 <= numbers[k] <= |s.captures|)
      && (forall j, k :: 0 <= j < k < |numbers| ==> numbers[j] < numbers[k])
      && StampedBy(pushed, Picked(s.captures, numbers))
      && (pushed != [] ==> pushed[|pushed| - 1].wallTime <= s.events[i].time)
  {
    var prefix := s.events[..i];
    EverySampleIsExplained(p, config, prefix, name);
    OriginsIncreaseHere(p, config, s, i, name);
    ExplainedByCaptures(p.motion, BodyToTracker(config, TrackerName(config, name)), name, s.events, s.sources,
                        s.captures, if InHand(s) then s.mailbox.processed - 1 else s.mailbox.processed, s.clock, i,
                        ServerRuns.Run(p, config, prefix).registry.HistoryOf(name).pushed,
                        Origins(p, config, prefix, name), SampleSources(p, config, s, i, name));
  }

  lemma SamplesShowSnapshots(p: Platform, config: ServerConfig, s: Plugin, i: nat, name: string, k: nat)
    requires Handed(s) && i <= |s.events|
    requires name in ServerRuns.Run(p, config, s.events[..i]).registry.tracked
    requires k < |ServerRuns.Run(p, config, s.events[..i]).registry.HistoryOf(name).pushed|
    ensures var numbers := SampleSources(p, config, s, i, name);
      && k < |numbers| && 1 <= numbers[k] <= |s.snapshots|
      && Shows(p.motion, BodyToTracker(config, TrackerName(config, name)), name,
               ServerRuns.Run(p, config, s.events[..i]).registry.HistoryOf(name).pushed[k], s.snapshots[numbers[k] - 1])
  {
    EverySampleIsExplained(p, config, s.events[..i], name);
    var origin := Origins(p, config, s.events[..i], name)[k];
    assert s.events[..i][origin] == s.events[origin];
    assert IsHanded(s.events[origin].snapshot, s.snapshots, s.sources[origin]);
  }

  /** The samples are those of the snapshots with the given numbers: stamped when they were captured, before the
      publish at event `i`, and showing the model as its snapshot has it. */
  ghost predicate SampledFrom(p: Platform, config: ServerConfig, s: Plugin, i: nat, name: string,
                              pushed: seq<TrackerSample>, numbers: seq<nat>)
    requires i < |s.events| && s.events[i].Send?
  {
    && |pushed| == |numbers|
    && (forall j, k :: 0 <= j < k < |numbers| ==> numbers[j] < numbers[k])
    && (forall k :: 0 <= k < |numbers| ==> 1 <= numbers[k] <= |s.captures| && numbers[k] <= |s.snapshots|)
    && (forall k :: 0 <= k < |numbers| ==> pushed[k].wallTime == Seconds(s.captures[numbers[k] - 1].wall))
    && (forall k :: 0 <= k < |numbers| ==>
          Shows(p.motion, BodyToTracker(config, TrackerName(config, name)), name, pushed[k],
                s.snapshots[numbers[k] - 1]))
    && (pushed != [] ==> pushed[|pushed| - 1].wallTime <= s.events[i].time)
  }

  lemma SamplesAreFrom(p: Platform, config: ServerConfig, s: Plugin, period: int, i: nat, name: string)
    requires period >= 1 && PluginInv(s, period) && Handed(s) && i < |s.events| && s.events[i].Send?
    requires name in ServerRuns.Run(p, config, s.events[..i]).registry.tracked
    ensures SampledFrom(p, config, s, i, name, ServerRuns.Run(p, config, s.events[..i]).registry.HistoryOf(name).pushed,
                        SampleSources(p, config, s, i, name))
  {
    SamplesFit(p, config, s, period, i, name);
    var pushed, numbers := ServerRuns.Run(p, config, s.events[..i]).registry.HistoryOf(name).pushed,
                           SampleSources(p, config, s, i, name);
    forall k | 0 <= k < |pushed|
      ensures Shows(p.motion, BodyToTracker(config, TrackerName(config, name)), name, pushed[k],
                    s.snapshots[numbers[k] - 1])
    {
      SamplesShowSnapshots(p, config, s, i, name, k);
    }
  }

  /** Whatever the interleaving and whatever the mailbox dropped, a model's samples come from snapshots handed over
      in order, each showing the model as its snapshot has it, and none is newer than the publish that draws on them. */
  lemma SamplesAreCaptures(p: Platform, config: ServerConfig, period: int, actions: seq<Action>, i: nat, name: string)
    requires period >= 1 && AllAllowed(period, actions)
    requires i < |Run(period, actions).events| && Run(period, actions).events[i].Send?
    requires name in ServerRuns.Run(p, config, Run(period, actions).events[..i]).registry.tracked
    ensures var s := Run(period, actions);
      && |s.events| == |s.sources|
      && SampledFrom(p, config, s, i, name, ServerRuns.Run(p, config, s.events[..i]).registry.HistoryOf(name).pushed,
                     SampleSources(p, config, s, i, name))
  {
    EveryInterleavingFits(period, actions);
    EveryEventWasHandedOver(period, actions);
    SamplesAreFrom(p, config, Run(period, actions), period, i, name);
  }

  lemma EventsAreOrdered(events: seq<Event>, sources: seq<nat>, captures: seq<Capture>, taken: nat, clock: int)
    requires EventsFrom(events, sources, captures, taken, clock) && OneClock(captures)
    ensures CapturesInOrder(events)
  {
    forall i, j | 0 <= i < j < |events| && events[i].Snap? && events[j].Snap?
      ensures events[i].snapshot.captureWallTime <= events[j].snapshot.captureWallTime
    {
      assert MadeFrom(events[i].snapshot, captures, sources[i]) && MadeFrom(events[j].snapshot, captures, sources[j]);
      var x, y := captures[sources[i] - 1], captures[sources[j] - 1];
      assert x.wall <= y.steady <= y.wall;
      SecondsMono(x.wall, y.wall);
    }
  }

  /** What the worker feeds the server is in capture order, under one clock source, and published at times that do
      not run backwards. */
  lemma WorkerRunIsOrdered(period: int, actions: seq<Action>)
    requires period >= 1 && AllAllowed(period, actions)
    ensures CapturesInOrder(Run(period, actions).events)
    ensures forall i :: 0 <= i < |Run(period, actions).events| && Run(period, actions).events[i].Snap? ==>
      Run(period, actions).events[i].snapshot.source == SimulationTime
    ensures forall i, j :: 0 <= i < j < |Run(period, actions).events| ==>
      var x, y := Run(period, actions).events[i], Run(period, actions).events[j];
      x.Send? && y.Send? ==> x.time <= y.time
  {
    EveryInterleavingFits(period, actions);
    var s := Run(period, actions);
    EventsAreOrdered(s.events, s.sources, s.captures,
                     if InHand(s) then s.mailbox.processed - 1 else s.mailbox.processed,
                     s.clock);
    forall i | 0 <= i < |s.events| && s.events[i].Snap?
      ensures s.events[i].snapshot.source == SimulationTime
    {
      assert MadeFrom(s.events[i].snapshot, s.captures, s.sources[i]);
    }
  }

  /** So in every interleaving time stamps never decrease within an epoch in which the simulation times that reached
      the server are in order; `sample_time` stamps if also the target does not move back. */
  lemma WorkerStampsNeverDecrease(p: Platform, config: ServerConfig, period: int, actions: seq<Action>,
                                  i: nat, j: nat, a: nat, b: nat)
    requires period >= 1 && AllAllowed(period, actions)
    requires SameModelLater(p, config, Run(period, actions).events, i, j, a, b)
    requires EpochInOrder(Run(period, actions).events[..j])
    requires config.delay.policy == MeasurementDelays.SampleTime ==>
      TargetNotBefore(SentAt(p, config, Run(period, actions).events, i)[a].target,
                      SentAt(p, config, Run(period, actions).events, j)[b].target)
    ensures NotAfter(SentAt(p, config, Run(period, actions).events, i)[a].timestamp,
                     SentAt(p, config, Run(period, actions).events, j)[b].timestamp)
  {
    WorkerRunIsOrdered(period, actions);
    StampsNeverDecrease(p, config, Run(period, actions).events, i, j, a, b);
  }
}
