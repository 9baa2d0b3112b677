/** What becomes of an update: the first one in a slot is captured and delivered, what is pending when the worker takes
    is what the server is given next, and no snapshot is lost but by being superseded. */
module Deliveries {
  import opened Numerics
  import opened CaptureLimiting
  import opened Coverage
  import opened TrackerStates
  import opened ServerRuns
  import opened Epochs
  import opened Pipeline

  // No snapshot is lost.

  /** The numbers of the snapshots that were still pending when the next one was delivered. */
  function Superseded(period: int, actions: seq<Pipeline.Action>): seq<nat>
    requires period >= 1
  {
    if actions == [] then []
    else
      var front, last := actions[..|actions| - 1], actions[|actions| - 1];
      var s := Pipeline.Run(period, front);
      Superseded(period, front) +
      (if last.Deliver? && s.producer.Stamped? && s.mailbox.sequence > s.mailbox.processed
       then [s.mailbox.sequence] else [])
  }

  ghost predicate Given(s: Plugin, n: nat) {
    exists k :: 0 <= k < |s.events| && k < |s.sources| && s.events[k].Snap? && s.sources[k] == n
  }

  /** The server was given snapshot `n`, or it is in the worker's hand, superseded, or pending. */
  ghost predicate AccountedFor(s: Plugin, superseded: seq<nat>, n: nat) {
    || Given(s, n)
    || (s.inHand.Some? && s.inHand.value.Some? && n == s.mailbox.processed)
    || n in superseded
    || (n == s.mailbox.sequence && n > s.mailbox.processed)
  }

  function One(condition: bool): nat {
    if condition then 1 else 0
  }

  ghost predicate AllAccounted(s: Plugin, superseded: seq<nat>) {
    && (forall n :: 1 <= n <= |s.snapshots| ==> AccountedFor(s, superseded, n))
    && |s.snapshots| == Snaps(s.events) + One(s.inHand.Some? && s.inHand.value.Some?) + |superseded| +
                        One(s.mailbox.sequence > s.mailbox.processed)
  }

  lemma GivenStays(s: Plugin, t: Plugin, n: nat)
    requires Given(s, n) && s.events <= t.events && s.sources <= t.sources
    ensures Given(t, n)
  {
    var k :| 0 <= k < |s.events| && k < |s.sources| && s.events[k].Snap? && s.sources[k] == n;
    assert t.events[k] == s.events[k] && t.sources[k] == s.sources[k];
  }

  lemma SnapsAppended(events: seq<Event>, more: Event)
    ensures Snaps(events + [more]) == Snaps(events) + One(more.Snap?)
  {
    assert (events + [more])[..|events|] == events;
  }

  /** Every snapshot is given once, and what was in hand is what is given next. */
  lemma GivenNext(s: Plugin, period: int, send: int)
    requires period >= 1 && Handed(s) && s.inHand.Some?
    ensures var t := Pipeline.Step(s, period, Cycle(send));
      && Snaps(t.events) == Snaps(s.events) + One(InHand(s))
      && (InHand(s) ==> Given(t, s.mailbox.processed))
  {
    var t := Pipeline.Step(s, period, Cycle(send));
    if InHand(s) {
      var snap := Snap(s.inHand.value.value);
      SnapsAppended(s.events, snap);
      SnapsAppended(s.events + [snap], Send(Seconds(send)));
      assert t.events[|s.events|] == snap && t.sources[|s.events|] == s.mailbox.processed;
    } else {
      assert s.events + [] == s.events;
      SnapsAppended(s.events, Send(Seconds(send)));
    }
  }

  lemma CycleAccounts(s: Plugin, period: int, send: int, superseded: seq<nat>)
    requires period >= 1 && Handed(s) && AllAccounted(s, superseded)
    ensures AllAccounted(Pipeline.Step(s, period, Cycle(send)), superseded)
  {
    if s.inHand.Some? {
      var t := Pipeline.Step(s, period, Cycle(send));
      GivenNext(s, period, send);
      forall n | 1 <= n <= |t.snapshots|
        ensures AccountedFor(t, superseded, n)
      {
        assert AccountedFor(s, superseded, n);
        if Given(s, n) {
          GivenStays(s, t, n);
        }
      }
    }
  }

  lemma OtherAccounts(s: Plugin, period: int, action: Pipeline.Action, superseded: seq<nat>)
    requires period >= 1 && Handed(s) && AllAccounted(s, superseded) && !action.Cycle?
    ensures var overwritten := if action.Deliver? && s.producer.Stamped? && s.mailbox.sequence > s.mailbox.processed
                               then [s.mailbox.sequence] else [];
      AllAccounted(Pipeline.Step(s, period, action), superseded + overwritten)
  {
    var t := Pipeline.Step(s, period, action);
    var overwritten := if action.Deliver? && s.producer.Stamped? && s.mailbox.sequence > s.mailbox.processed
                       then [s.mailbox.sequence] else [];
    forall n | 1 <= n <= |t.snapshots|
      ensures AccountedFor(t, superseded + overwritten, n)
    {
      if n <= |s.snapshots| {
        assert AccountedFor(s, superseded, n);
        if Given(s, n) {
          GivenStays(s, t, n);
        }
      }
    }
  }

  /** In every run each snapshot delivered was given to the server, is in hand, was superseded by the next one before
      the worker took it, or is pending, and the numbers of these add up: none is lost and none is given twice. */
  lemma {:induction false} NoSnapshotIsLost(period: int, actions: seq<Pipeline.Action>)
    requires period >= 1
    ensures AllAccounted(Pipeline.Run(period, actions), Superseded(period, actions))
  {
    if actions != [] {
      var front, last := actions[..|actions| - 1], actions[|actions| - 1];
      NoSnapshotIsLost(period, front);
      EveryEventWasHandedOver(period, front);
      var s, superseded := Pipeline.Run(period, front), Superseded(period, front);
      if last.Cycle? {
        CycleAccounts(s, period, last.send, superseded);
        assert Superseded(period, actions) == superseded;
      } else {
        OtherAccounts(s, period, last, superseded);
      }
    }
  }

  // Stretches of a run in which one thread only is at work.

  predicate NoCycle(actions: seq<Pipeline.Action>) {
    forall k :: 0 <= k < |actions| ==> !actions[k].Cycle?
  }

  predicate WorkerOnly(actions: seq<Pipeline.Action>) {
    forall k :: 0 <= k < |actions| ==> actions[k].Take? || actions[k].Cycle?
  }

  lemma OneMore(period: int, actions: seq<Pipeline.Action>, action: Pipeline.Action)
    requires period >= 1
    ensures Pipeline.Run(period, actions + [action]) == Pipeline.Step(Pipeline.Run(period, actions), period, action)
  {
    assert (actions + [action])[..|actions|] == actions;
  }

  /** Until the end of the cycle nothing touches what is in hand or what the server was given. */
  lemma {:induction false} HandStays(period: int, actions: seq<Pipeline.Action>, more: seq<Pipeline.Action>)
    requires period >= 1 && NoCycle(more) && Pipeline.Run(period, actions).inHand.Some?
    ensures var s, t := Pipeline.Run(period, actions), Pipeline.Run(period, actions + more);
      t.inHand == s.inHand && t.events == s.events
  {
    if more == [] {
      assert actions + more == actions;
    } else {
      var front, last := more[..|more| - 1], more[|more| - 1];
      HandStays(period, actions, front);
      OneMore(period, actions + front, last);
      assert actions + more == actions + front + [last];
    }
  }

  /** The server was given the snapshot that was pending, if any, and then it published. */
  ghost predicate Cycled(s: Plugin, t: Plugin, send: int) {
    var publish := Send(send as real / 1000000000.0);
    if s.mailbox.sequence > s.mailbox.processed
    then s.snapshots != [] && t.events == s.events + [Snap(s.snapshots[|s.snapshots| - 1]), publish]
    else t.events == s.events + [publish]
  }

  lemma SecondsAre(ticks: int)
    ensures Seconds(ticks) == ticks as real / 1000000000.0
  {}

  lemma TakeHands(period: int, actions: seq<Pipeline.Action>)
    requires period >= 1 && Pipeline.Run(period, actions).inHand.None?
    ensures var s, t := Pipeline.Run(period, actions), Pipeline.Run(period, actions + [Take]);
      && t.events == s.events
      && if s.mailbox.sequence > s.mailbox.processed
         then s.snapshots != [] && t.inHand == Some(Some(s.snapshots[|s.snapshots| - 1]))
         else t.inHand == Some(None)
  {
    EveryEventWasHandedOver(period, actions);
    OneMore(period, actions, Take);
  }

  lemma CycleGives(s: Plugin, period: int, send: int)
    requires period >= 1 && s.inHand.Some?
    ensures var t := Pipeline.Step(s, period, Cycle(send));
      && t.inHand == None
      && (s.inHand.value.None? ==> t.events == s.events + [Send(Seconds(send))])
      && (s.inHand.value.Some? ==> t.events == s.events + [Snap(s.inHand.value.value), Send(Seconds(send))])
  {
    assert s.events + [] == s.events;
  }

  /** In every run: a worker that takes while something is pending takes the snapshot delivered last, and whatever
      Gazebo's thread does meanwhile, the cycle gives the server exactly that snapshot and then publishes; if nothing
      is pending it only publishes. */
  lemma TakenIsGiven(period: int, actions: seq<Pipeline.Action>, more: seq<Pipeline.Action>, send: int)
    requires period >= 1 && NoCycle(more) && Pipeline.Run(period, actions).inHand.None?
    ensures var s, t := Pipeline.Run(period, actions), Pipeline.Run(period, actions + [Take] + more + [Cycle(send)]);
      t.inHand == None && Cycled(s, t, send)
  {
    var taken := actions + [Take];
    TakeHands(period, actions);
    HandStays(period, taken, more);
    OneMore(period, taken + more, Cycle(send));
    CycleGives(Pipeline.Run(period, taken + more), period, send);
    SecondsAre(send);
  }

  /** The worker's steps do not touch what Gazebo's thread is doing or has delivered. */
  lemma {:induction false} ProducerStays(period: int, actions: seq<Pipeline.Action>, more: seq<Pipeline.Action>)
    requires period >= 1 && WorkerOnly(more)
    ensures var s, t := Pipeline.Run(period, actions), Pipeline.Run(period, actions + more);
      && t.producer == s.producer && t.readings == s.readings
      && t.snapshots == s.snapshots && t.captures == s.captures
  {
    if more == [] {
      assert actions + more == actions;
    } else {
      var front, last := more[..|more| - 1], more[|more| - 1];
      ProducerStays(period, actions, front);
      OneMore(period, actions + front, last);
      assert actions + more == actions + front + [last];
    }
  }

  /** The first update of all, or the first one in a slot of the grid that one started. */
  predicate FirstInSlot(readings: seq<int>, period: int, now: int)
    requires period >= 1
  {
    readings == [] || (readings[|readings| - 1] - readings[0]) / period < (now - readings[0]) / period
  }

  lemma FirstIsAdmitted(readings: seq<int>, period: int, now: int)
    requires period >= 1 && ClockReadings(readings) && 0 <= now
    requires readings != [] ==> readings[|readings| - 1] <= now
    ensures Admit(NextAfter(readings, period), period, now).captured <==> FirstInSlot(readings, period, now)
  {
    ReadingAppended(readings, period, now);
  }

  lemma UpdateAdmits(period: int, actions: seq<Pipeline.Action>, now: int)
    requires period >= 1 && AllAllowed(period, actions)
    requires var s := Pipeline.Run(period, actions); s.producer.Idle? && s.clock <= now
    ensures var s, t := Pipeline.Run(period, actions), Pipeline.Run(period, actions + [Update(now)]);
      && t.producer == (if FirstInSlot(s.readings, period, now) then Admitted(now) else Idle)
      && t.readings == s.readings + [now]
      && t.snapshots == s.snapshots && t.captures == s.captures
  {
    var s := Pipeline.Run(period, actions);
    assert CapturesFit(s, period) by {
      EveryInterleavingFits(period, actions);
    }
    OneMore(period, actions, Update(now));
    FirstIsAdmitted(s.readings, period, now);
  }

  lemma StampHolds(period: int, actions: seq<Pipeline.Action>, during: seq<Pipeline.Action>, wall: int,
                   sampleTime: real, models: seq<ModelPose>, fails: bool)
    requires period >= 1 && WorkerOnly(during) && !Pipeline.Run(period, actions).producer.Stamped?
    ensures var s := Pipeline.Run(period, actions);
      var t := Pipeline.Run(period, actions + during + [Stamp(wall, sampleTime, models, fails)]);
      && t.readings == s.readings && t.snapshots == s.snapshots && t.captures == s.captures
      && t.producer ==
         if s.producer.Idle? || fails then Idle
         else Stamped(Capture(s.producer.steady, wall),
                      Snapshot(sampleTime, wall as real / 1000000000.0, SimulationTime, models))
  {
    ProducerStays(period, actions, during);
    OneMore(period, actions + during, Stamp(wall, sampleTime, models, fails));
  }

  lemma DeliverHandsOver(period: int, actions: seq<Pipeline.Action>, before: seq<Pipeline.Action>)
    requires period >= 1 && WorkerOnly(before)
    ensures var s, t := Pipeline.Run(period, actions), Pipeline.Run(period, actions + before + [Deliver]);
      && t.readings == s.readings
      && if s.producer.Stamped?
         then && t.producer == Idle
              && t.snapshots == s.snapshots + [s.producer.snapshot] && t.captures == s.captures + [s.producer.capture]
              && t.mailbox.slot == s.producer.snapshot && t.mailbox.sequence == |t.snapshots| > t.mailbox.processed
         else t.producer == s.producer && t.snapshots == s.snapshots && t.captures == s.captures
  {
    ProducerStays(period, actions, before);
    OneMore(period, actions + before, Deliver);
    EveryEventWasHandedOver(period, actions + before);
  }

  /** An update that finds Gazebo's thread idle and is the first one in its slot ends in a delivered capture once its
      poses have been copied, whatever the worker does meanwhile: the snapshot has the simulation time and the models
      it was made from and the wall reading of its capture, and is the one pending.  An update that is not the first
      in its slot, or whose poses could not be copied, delivers nothing. */
  lemma FirstUpdateIsDelivered(period: int, actions: seq<Pipeline.Action>, now: int, during: seq<Pipeline.Action>,
                               wall: int, sampleTime: real, models: seq<ModelPose>, fails: bool,
                               before: seq<Pipeline.Action>)
    requires period >= 1 && AllAllowed(period, actions) && WorkerOnly(during) && WorkerOnly(before)
    requires var s := Pipeline.Run(period, actions); s.producer.Idle? && s.clock <= now
    ensures var stamp := Stamp(wall, sampleTime, models, fails);
      var s := Pipeline.Run(period, actions);
      var t := Pipeline.Run(period, actions + [Update(now)] + during + [stamp] + before + [Deliver]);
      var snapshot := Snapshot(sampleTime, wall as real / 1000000000.0, SimulationTime, models);
      && t.producer == Idle && t.readings == s.readings + [now]
      && if FirstInSlot(s.readings, period, now) && !fails
         then && t.snapshots == s.snapshots + [snapshot] && t.captures == s.captures + [Capture(now, wall)]
              && t.mailbox.slot == snapshot && t.mailbox.sequence == |t.snapshots| > t.mailbox.processed
         else t.snapshots == s.snapshots && t.captures == s.captures
  {
    var stamp := Stamp(wall, sampleTime, models, fails);
    var admitted := actions + [Update(now)];
    UpdateAdmits(period, actions, now);
    StampHolds(period, admitted, during, wall, sampleTime, models, fails);
    DeliverHandsOver(period, admitted + during + [stamp], before);
  }
}
