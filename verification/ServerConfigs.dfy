/** The configuration both server backends share: which Gazebo model is served under which tracker name,
    with which extrinsic, and what a loaded configuration is known to satisfy. */
module ServerConfigs {
  import opened Numerics
  import opened Geometry
  import opened CaptureLimiting
  import opened MeasurementDelays
  import opened DelayValidation

  /** Regular expressions stay abstract: `isRegex` says which patterns compile, `regexMatch(pattern, name)`
      which names a compiled pattern matches. */
  datatype ServerConfig = ServerConfig(
    port: int,
    publishRateHz: real,
    scanIntervalS: real,
    derivativeResetTimeoutS: real,
    velocityCutoffHz: real,
    accelerationCutoffHz: real,
    matchMode: string,
    autoTrackKnownModels: bool,
    autoIncludePatterns: seq<string>,
    trackerPatterns: seq<string>,
    robots: map<string, Transform>,
    configuredModelToTracker: map<string, string>,
    defaultBodyToTracker: Transform,
    delay: DelayConfig,
    isRegex: string -> bool,
    regexMatch: (string, string) -> bool)

  // Slashes

  predicate IsSlash(c: char) {
    c == '/'
  }

  function TrimFront(value: string): string {
    if value != [] && IsSlash(value[0]) then TrimFront(value[1..]) else value
  }

  function TrimBack(value: string): string {
    if value != [] && IsSlash(value[|value| - 1]) then TrimBack(value[..|value| - 1]) else value
  }

  function Trimmed(value: string): string {
    TrimBack(TrimFront(value))
  }

  method TrimSlashes(value: string) returns (r: string)
    ensures r == Trimmed(value)
  {
    r := value;
    while r != [] && IsSlash(r[0])
      invariant TrimFront(r) == TrimFront(value)
    {
      r := r[1..];
    }
    while r != [] && IsSlash(r[|r| - 1])
      invariant TrimBack(r) == TrimBack(TrimFront(value))
    {
      r := r[..|r| - 1];
    }
  }

  ghost predicate Slashes(s: string) {
    forall c :: c in s ==> IsSlash(c)
  }

  /** Trimming removes slashes only, from both ends, and all of them. */
  lemma TrimmedRemovesEndSlashes(value: string) returns (front: string, back: string)
    ensures Slashes(front) && Slashes(back) && value == front + Trimmed(value) + back
    ensures Trimmed(value) != [] ==>
      !IsSlash(Trimmed(value)[0]) && !IsSlash(Trimmed(value)[|Trimmed(value)| - 1])
  {
    front := FrontRemoved(value);
    back := BackRemoved(TrimFront(value));
    assert Trimmed(value) <= TrimFront(value);
  }

  lemma {:induction false} FrontRemoved(value: string) returns (front: string)
    ensures Slashes(front) && value == front + TrimFront(value)
    ensures TrimFront(value) != [] ==> !IsSlash(TrimFront(value)[0])
  {
    front := "";
    if value != [] && IsSlash(value[0]) {
      front := FrontRemoved(value[1..]);
      front := [value[0]] + front;
    }
  }

  lemma {:induction false} BackRemoved(value: string) returns (back: string)
    ensures Slashes(back) && value == TrimBack(value) + back
    ensures TrimBack(value) != [] ==> !IsSlash(TrimBack(value)[|TrimBack(value)| - 1])
  {
    back := "";
    if value != [] && IsSlash(value[|value| - 1]) {
      back := BackRemoved(value[..|value| - 1]);
      back := back + [value[|value| - 1]];
    }
  }

  /** A name with slashes around it and the bare name are the same name. */
  lemma TrimmedTwice(value: string)
    ensures Trimmed(Trimmed(value)) == Trimmed(value)
  {
    var _, _ := TrimmedRemovesEndSlashes(value);
  }

  // Model names

  predicate StartsWith(value: string, prefix: string) {
    prefix <= value
  }

  predicate Contains(value: string, pattern: string) {
    exists i :: 0 <= i <= |value| && pattern <= value[i..]
  }

  predicate MatchesPattern(config: ServerConfig, name: string, pattern: string) {
    if pattern == "" then false
    else if config.matchMode == "exact" then name == pattern
    else if config.matchMode == "prefix" then StartsWith(name, pattern)
    else Contains(name, pattern)
  }

  predicate IsNumbered(value: string, prefix: string) {
    && |prefix| < |value| && prefix <= value
    && forall i :: |prefix| <= i < |value| ==> '0' <= value[i] <= '9'
  }

  predicate IsCanonicalModelName(value: string) {
    IsNumbered(value, "uav") || IsNumbered(value, "ugv") || IsNumbered(value, "mecanum")
  }

  predicate MatchesAutoPattern(config: ServerConfig, name: string) {
    exists i :: 0 <= i < |config.autoIncludePatterns| && config.regexMatch(config.autoIncludePatterns[i], name)
  }

  function FirstMatch(config: ServerConfig, name: string, patterns: seq<string>): string {
    if patterns == [] then ""
    else if MatchesPattern(config, name, patterns[0]) then patterns[0]
    else FirstMatch(config, name, patterns[1..])
  }

  /** The tracker a Gazebo model is served as; the empty name means it is not served. */
  function TrackerName(config: ServerConfig, gazeboModel: string): string {
    var name := Trimmed(gazeboModel);
    if name == "" then ""
    else if name in config.configuredModelToTracker then config.configuredModelToTracker[name]
    else if config.autoTrackKnownModels then
      if MatchesAutoPattern(config, name) then name
      else if config.autoIncludePatterns == [] && IsCanonicalModelName(name) then name
      else ""
    else FirstMatch(config, name, config.trackerPatterns)
  }

  function BodyToTracker(config: ServerConfig, tracker: string): Transform {
    if tracker in config.robots then config.robots[tracker] else config.defaultBodyToTracker
  }

  ghost predicate FirstMatchingAt(config: ServerConfig, name: string, patterns: seq<string>, i: nat) {
    && i < |patterns| && MatchesPattern(config, name, patterns[i])
    && forall j :: 0 <= j < i ==> !MatchesPattern(config, name, patterns[j])
  }

  /** In pattern mode the name is the first configured pattern that matches, and empty only if none does. */
  lemma {:induction false} FirstMatchIsFirst(config: ServerConfig, name: string, patterns: seq<string>)
    ensures var r := FirstMatch(config, name, patterns);
      if r == "" then forall i :: 0 <= i < |patterns| ==> !MatchesPattern(config, name, patterns[i])
      else exists i: nat :: FirstMatchingAt(config, name, patterns, i) && patterns[i] == r
  {
    if patterns != [] {
      var rest := patterns[1..];
      FirstMatchIsFirst(config, name, rest);
      assert forall i {:trigger patterns[i]} :: 0 < i < |patterns| ==> patterns[i] == rest[i - 1];
      if MatchesPattern(config, name, patterns[0]) {
        assert FirstMatchingAt(config, name, patterns, 0);
      } else if FirstMatch(config, name, rest) != "" {
        var i: nat :| FirstMatchingAt(config, name, rest, i) && rest[i] == FirstMatch(config, name, rest);
        assert patterns[i + 1] == rest[i] && FirstMatchingAt(config, name, patterns, i + 1);
      }
    }
  }

  /** Which models are served at all: a mapped one if its tracker has a name, otherwise one that an automatic
      pattern, the canonical names where there is no such pattern, or a listed pattern recognises. */
  lemma ServedIff(config: ServerConfig, model: string)
    ensures var name := Trimmed(model);
      TrackerName(config, model) != "" <==>
        && name != ""
        && (if name in config.configuredModelToTracker then config.configuredModelToTracker[name] != ""
            else if config.autoTrackKnownModels then
              MatchesAutoPattern(config, name) || (config.autoIncludePatterns == [] && IsCanonicalModelName(name))
            else exists pattern :: pattern in config.trackerPatterns && MatchesPattern(config, name, pattern))
  {
    var name, patterns := Trimmed(model), config.trackerPatterns;
    FirstMatchIsFirst(config, name, patterns);
    if FirstMatch(config, name, patterns) != "" {
      var i: nat :| FirstMatchingAt(config, name, patterns, i);
      assert MatchesPattern(config, name, patterns[i]);
    }
  }

  /** Slashes around a model's name never change how it is served. */
  lemma NamingIgnoresSlashes(config: ServerConfig, gazeboModel: string)
    ensures TrackerName(config, Trimmed(gazeboModel)) == TrackerName(config, gazeboModel)
  {
    TrimmedTwice(gazeboModel);
  }

  /** The two operator modes exclude each other: in automatic mode the pattern list, and in pattern mode
      the automatic patterns, have no influence. */
  lemma ModesAreExclusive(config: ServerConfig, trackerPatterns: seq<string>, autoPatterns: seq<string>, model: string)
    ensures config.autoTrackKnownModels ==>
      TrackerName(config.(trackerPatterns := trackerPatterns), model) == TrackerName(config, model)
    ensures !config.autoTrackKnownModels ==>
      TrackerName(config.(autoIncludePatterns := autoPatterns), model) == TrackerName(config, model)
  {
    SameFirstMatch(config, config.(autoIncludePatterns := autoPatterns), Trimmed(model), config.trackerPatterns);
    assert config.autoTrackKnownModels ==>
      MatchesAutoPattern(config.(trackerPatterns := trackerPatterns), Trimmed(model)) ==
      MatchesAutoPattern(config, Trimmed(model));
  }

  lemma {:induction false} SameFirstMatch(a: ServerConfig, b: ServerConfig, name: string, patterns: seq<string>)
    requires a.matchMode == b.matchMode
    ensures FirstMatch(a, name, patterns) == FirstMatch(b, name, patterns)
  {
    if patterns != [] {
      SameFirstMatch(a, b, name, patterns[1..]);
    }
  }

  // Loading

  /** The per-tracker delay section: names are trimmed, empty ones skipped, later entries win. */
  function LoadedTrackers(entries: seq<(string, TrackerDelay)>): map<string, TrackerDelay> {
    if entries == [] then map[]
    else
      var last := entries[|entries| - 1];
      var front := LoadedTrackers(entries[..|entries| - 1]);
      if Trimmed(last.0) == "" then front else front[Trimmed(last.0) := last.1]
  }

  method ParseDelayTrackers(entries: seq<(string, TrackerDelay)>) returns (trackers: map<string, TrackerDelay>)
    ensures trackers == LoadedTrackers(entries)
    ensures "" !in trackers
  {
    trackers := map[];
    for i := 0 to |entries|
      invariant trackers == LoadedTrackers(entries[..i]) && "" !in trackers
    {
      assert entries[..i + 1][..i] == entries[..i];
      var name := TrimSlashes(entries[i].0);
      if name == "" {
        continue;
      }
      trackers := trackers[name := entries[i].1];
    }
    assert entries[..|entries|] == entries;
  }

  datatype ConfigError = MatchMode | Rate | ScanInterval | Port | Regex(pattern: string) | Delay(error: DelayError)

  ghost predicate Valid(config: ServerConfig) {
    && config.matchMode in {"contains", "exact", "prefix"}
    && config.publishRateHz > 0.0 && config.scanIntervalS > 0.0
    && 0 < config.port <= 65535
    && (forall p :: p in config.autoIncludePatterns ==> config.isRegex(p))
    && Accepts(config.delay, config.publishRateHz, MAX_HISTORY_SAMPLES)
  }

  /** The checks of single values, in the order in which they are made. */
  function CheckSettings(config: ServerConfig): Option<ConfigError> {
    if config.matchMode !in {"contains", "exact", "prefix"} then Some(MatchMode)
    else if config.publishRateHz <= 0.0 then Some(Rate)
    else if config.scanIntervalS <= 0.0 then Some(ScanInterval)
    else if config.port <= 0 || config.port > 65535 then Some(Port)
    else None
  }

  function DelayErrorOf(e: Option<DelayError>): Option<ConfigError> {
    if e.Some? then Some(Delay(e.value)) else None
  }

  /** The first expression that does not compile. */
  ghost predicate FirstBadPattern(config: ServerConfig, i: nat) {
    && i < |config.autoIncludePatterns| && !config.isRegex(config.autoIncludePatterns[i])
    && forall j :: 0 <= j < i ==> config.isRegex(config.autoIncludePatterns[j])
  }

  ghost predicate AllPatternsCompile(config: ServerConfig) {
    forall i :: 0 <= i < |config.autoIncludePatterns| ==> config.isRegex(config.autoIncludePatterns[i])
  }

  /** The first failing check is reported: the single values, then the expressions, then the delay section. */
  method Validate(config: ServerConfig, order: seq<string>) returns (error: Option<ConfigError>)
    requires forall name :: name in order <==> name in config.delay.trackers
    ensures error == None <==> Valid(config)
    ensures CheckSettings(config).Some? ==> error == CheckSettings(config)
    ensures CheckSettings(config) == None <==>
            && config.matchMode in {"contains", "exact", "prefix"}
            && config.publishRateHz > 0.0 && config.scanIntervalS > 0.0 && 1 <= config.port <= 65535
    ensures error == Some(MatchMode) <==> config.matchMode !in {"contains", "exact", "prefix"}
    ensures error == Some(Rate) <==> config.matchMode in {"contains", "exact", "prefix"} && config.publishRateHz <= 0.0
    ensures error == Some(ScanInterval) <==>
            && config.matchMode in {"contains", "exact", "prefix"} && config.publishRateHz > 0.0
            && config.scanIntervalS <= 0.0
    ensures error == Some(Port) <==>
            && config.matchMode in {"contains", "exact", "prefix"} && config.publishRateHz > 0.0
            && config.scanIntervalS > 0.0 && !(1 <= config.port <= 65535)
    ensures forall i: nat :: CheckSettings(config) == None && FirstBadPattern(config, i) ==>
      error == Some(Regex(config.autoIncludePatterns[i]))
    ensures CheckSettings(config) == None && AllPatternsCompile(config) ==>
      exists e ::
        && error == DelayErrorOf(e)
        && IsFirstError(config.delay, order, config.publishRateHz, MAX_HISTORY_SAMPLES, e)
  {
    if config.matchMode != "contains" && config.matchMode != "exact" && config.matchMode != "prefix" {
      return Some(MatchMode);
    }
    if config.publishRateHz <= 0.0 {
      return Some(Rate);
    }
    if config.scanIntervalS <= 0.0 {
      return Some(ScanInterval);
    }
    if config.port <= 0 || config.port > 65535 {
      return Some(Port);
    }
    for i := 0 to |config.autoIncludePatterns|
      invariant forall j :: 0 <= j < i ==> config.isRegex(config.autoIncludePatterns[j])
    {
      if !config.isRegex(config.autoIncludePatterns[i]) {
        assert FirstBadPattern(config, i);
        return Some(Regex(config.autoIncludePatterns[i]));
      }
    }
    var delayError := DelayValidation.Validate(config.delay, order, config.publishRateHz, MAX_HISTORY_SAMPLES);
    return DelayErrorOf(delayError);
  }

  /** The last entry that goes by the given name. */
  ghost predicate LastEntry(entries: seq<(string, TrackerDelay)>, name: string, i: nat) {
    && i < |entries| && Trimmed(entries[i].0) == name
    && forall j :: i < j < |entries| ==> Trimmed(entries[j].0) != name
  }

  /** A loaded section has exactly the names of its entries, and each has the value of its last entry. */
  lemma {:induction false} LoadedTrackersAre(entries: seq<(string, TrackerDelay)>, name: string)
    ensures name in LoadedTrackers(entries) <==> name != "" && exists i: nat :: LastEntry(entries, name, i)
    ensures forall i: nat :: name != "" && LastEntry(entries, name, i) ==>
      name in LoadedTrackers(entries) && LoadedTrackers(entries)[name] == entries[i].1
  {
    if entries != [] {
      var last := |entries| - 1;
      var front := entries[..last];
      LoadedTrackersAre(front, name);
      if Trimmed(entries[last].0) == name {
        assert LastEntry(entries, name, last);
      } else {
        forall i: nat
          ensures LastEntry(entries, name, i) <==> LastEntry(front, name, i)
        {
          SameLastEntry(entries, name, i);
        }
      }
    }
  }

  lemma SameLastEntry(entries: seq<(string, TrackerDelay)>, name: string, i: nat)
    requires entries != [] && Trimmed(entries[|entries| - 1].0) != name
    ensures LastEntry(entries, name, i) <==> LastEntry(entries[..|entries| - 1], name, i)
  {
    var front := entries[..|entries| - 1];
    assert forall j :: 0 <= j < |front| ==> front[j] == entries[j];
    if LastEntry(front, name, i) {
      forall j | i < j < |entries|
        ensures Trimmed(entries[j].0) != name
      {
        assert j < |front| ==> Trimmed(front[j].0) != name;
      }
    }
  }

  /** A configuration the loader returns: accepted, and with its delay section read by the parser. */
  ghost predicate Loaded(config: ServerConfig) {
    && Valid(config)
    && exists entries :: config.delay.trackers == LoadedTrackers(entries)
  }

  lemma {:induction false} LoadedTrackersSkipEmpty(entries: seq<(string, TrackerDelay)>)
    ensures "" !in LoadedTrackers(entries)
  {
    if entries != [] {
      LoadedTrackersSkipEmpty(entries[..|entries| - 1]);
    }
  }

  /** Every tracker name a loaded configuration may ever be asked about has a bounded history. */
  lemma LoadedBoundsEveryName(config: ServerConfig)
    requires Loaded(config)
    ensures EmptyNameIsUnset(config.delay)
    ensures BoundsEveryName(config.delay, config.publishRateHz, MAX_HISTORY_SAMPLES)
  {
    var entries :| config.delay.trackers == LoadedTrackers(entries);
    LoadedTrackersSkipEmpty(entries);
    AcceptedBoundsEveryName(config.delay, config.publishRateHz, MAX_HISTORY_SAMPLES);
  }

  const FAST_SERVER :=
    ServerConfig(3883, 2000000000.0, 1.0, 0.5, 10.0, 10.0, "exact", true, [], [], map[], map[],
                 Transform(IDENTITY, ZERO), DelayConfig(true, SendTime, 1, 0.0, 0.0, DEFAULT_COMPONENT, map[]),
                 _ => true, (_, _) => true)

  /** Acceptance does not bound the rate: with no delay and no margin a 2 GHz rate passes, although its
      period truncates to no tick at all. */
  lemma AcceptedRateMayExceedTheClock()
    ensures Loaded(FAST_SERVER) && PeriodTicks(FAST_SERVER.publishRateHz) == 0
  {
    assert CapacityForWindow(0.0, FAST_SERVER.publishRateHz) == 4;
    assert FAST_SERVER.delay.trackers == LoadedTrackers([]);
  }
}
