/** The plugin filters models before it captures them; the server filters again when it scans.  Filtering
    first changes nothing. */
module Prefiltering {
  import opened ServerConfigs
  import opened TrackerStates
  import opened ServerRuns
  import opened Registrations
  import opened Selections
  import Motion

  /** The plugin's rule: keep the models the configuration gives a tracker name. */
  function Served(config: ServerConfig, models: seq<ModelPose>): seq<ModelPose> {
    if models == [] then []
    else
      var last := models[|models| - 1];
      Served(config, models[..|models| - 1]) + (if TrackerName(config, last.name) == "" then [] else [last])
  }

  method DiscoverModels(config: ServerConfig, models: seq<ModelPose>) returns (discovered: seq<ModelPose>)
    ensures discovered == Served(config, models)
  {
    discovered := [];
    for i := 0 to |models|
      invariant discovered == Served(config, models[..i])
    {
      assert models[..i + 1][..i] == models[..i];
      if TrackerName(config, models[i].name) == "" {
        continue;
      }
      discovered := discovered + [models[i]];
    }
    assert models[..|models|] == models;
  }

  lemma {:induction false} ServedAre(config: ServerConfig, models: seq<ModelPose>)
    ensures forall m :: m in Served(config, models) <==> m in models && TrackerName(config, m.name) != ""
  {
    if models != [] {
      ServedAre(config, models[..|models| - 1]);
      assert models == models[..|models| - 1] + [models[|models| - 1]];
    }
  }

  function Prefiltered(config: ServerConfig, event: Event): Event {
    match event
    case Snap(snapshot) => Snap(snapshot.(models := Served(config, snapshot.models)))
    case Send(_) => event
  }

  function PrefilteredRun(config: ServerConfig, events: seq<Event>): seq<Event> {
    seq(|events|, i requires 0 <= i < |events| => Prefiltered(config, events[i]))
  }

  lemma {:induction false} ScanIgnoresUnserved(config: ServerConfig, r: Registry, models: seq<ModelPose>)
    ensures ScanModels(config, r, Served(config, models)) == ScanModels(config, r, models)
  {
    if models != [] {
      var front, last := models[..|models| - 1], models[|models| - 1];
      ScanIgnoresUnserved(config, r, front);
      if TrackerName(config, last.name) != "" {
        assert (Served(config, front) + [last])[..|Served(config, front)|] == Served(config, front);
      } else {
        assert Served(config, models) == Served(config, front);
      }
    }
  }

  lemma UpdateUsesTimesOnly(f: Motion.MotionFunctions, config: ServerConfig, r: Registry, sample: ModelPose,
                            a: Snapshot, b: Snapshot)
    requires a.(models := []) == b.(models := [])
    ensures UpdateModel(f, config, r, sample, a) == UpdateModel(f, config, r, sample, b)
  {
    assert a.sampleTime == b.sampleTime && a.captureWallTime == b.captureWallTime && a.source == b.source by {
      assert a.(models := []).sampleTime == b.(models := []).sampleTime;
      assert a.(models := []).captureWallTime == b.(models := []).captureWallTime;
      assert a.(models := []).source == b.(models := []).source;
    }
  }

  lemma {:induction false} UpdatesIgnoreUnserved(f: Motion.MotionFunctions, config: ServerConfig, r: Registry,
                                                 models: seq<ModelPose>, a: Snapshot, b: Snapshot)
    requires r.Listed() && a.(models := []) == b.(models := [])
    requires forall m :: m in models && TrackerName(config, m.name) == "" ==> m.name !in r.tracked
    ensures UpdateModels(f, config, r, Served(config, models), a) == UpdateModels(f, config, r, models, b)
  {
    if models != [] {
      var front, last := models[..|models| - 1], models[|models| - 1];
      UpdatesIgnoreUnserved(f, config, r, front, a, b);
      UpdatesKeepRegistrations(f, config, r, front, b);
      var t := UpdateModels(f, config, r, front, b);
      UpdateUsesTimesOnly(f, config, t, last, a, b);
      if TrackerName(config, last.name) != "" {
        assert (Served(config, front) + [last])[..|Served(config, front)|] == Served(config, front);
      } else {
        assert Served(config, models) == Served(config, front);
        assert last in models && last.name !in t.tracked;
      }
    }
  }

  lemma ProcessIgnoresUnserved(p: Platform, config: ServerConfig, s: ServerState, snapshot: Snapshot)
    requires RegistryInv(s.registry)
    requires forall m :: m in Process(p, config, s, snapshot).registry.tracked ==> TrackerName(config, m) != ""
    ensures Process(p, config, s, snapshot.(models := Served(config, snapshot.models))) ==
            Process(p, config, s, snapshot)
  {
    var served := snapshot.(models := Served(config, snapshot.models));
    ScanIgnoresUnserved(config, Entered(s.registry, s.clock, snapshot), snapshot.models);
    assert Prepared(config, s, served) == Prepared(config, s, snapshot);
    PreparedKeepsInv(config, s, snapshot);
    ProcessKeeps(p, config, s, snapshot);
    ClearKeepsInv(Prepared(config, s, snapshot));
    UpdatesIgnoreUnserved(p.motion, config, ClearPoses(Prepared(config, s, snapshot)), snapshot.models, served,
                          snapshot);
  }

  /** Feeding the server snapshots filtered by the plugin's rule gives, in every run, the state the full
      snapshots give. */
  lemma {:induction false} FilteringFirstChangesNothing(p: Platform, config: ServerConfig, events: seq<Event>)
    ensures Run(p, config, PrefilteredRun(config, events)) == Run(p, config, events)
  {
    if events != [] {
      var front, last := events[..|events| - 1], events[|events| - 1];
      FilteringFirstChangesNothing(p, config, front);
      assert PrefilteredRun(config, events)[..|events| - 1] == PrefilteredRun(config, front);
      EveryRegistryIsConsistent(p, config, front);
      if last.Snap? {
        forall m | m in Run(p, config, events).registry.tracked
          ensures TrackerName(config, m) != ""
        {
          EveryModelIsConfigured(p, config, events, m);
        }
        ProcessIgnoresUnserved(p, config, Run(p, config, front), last.snapshot);
      }
    }
  }

  /** And it gives the same reports. */
  lemma SameReports(p: Platform, config: ServerConfig, events: seq<Event>, i: nat)
    requires i < |events| && events[i].Send?
    ensures PrefilteredRun(config, events)[i] == events[i]
    ensures SentAt(p, config, PrefilteredRun(config, events), i) == SentAt(p, config, events, i)
  {
    FilteringFirstChangesNothing(p, config, events[..i]);
    assert PrefilteredRun(config, events)[..i] == PrefilteredRun(config, events[..i]);
  }
}
