/** Under which name a model is served, told from the names and the configuration alone. */
module Naming {
  import opened MeasurementDelays
  import opened ServerConfigs
  import opened TrackerStates
  import opened ServerRuns
  import opened Registrations

  // Matching.

  /** An empty pattern matches nothing; otherwise the whole name, its beginning, or any part of it is the pattern. */
  ghost predicate Recognises(mode: string, pattern: string, name: string) {
    && pattern != ""
    && (mode == "exact" ==> name == pattern)
    && (mode == "prefix" ==> exists rest: string :: name == pattern + rest)
    && (mode != "exact" && mode != "prefix" ==> exists before: string, rest: string :: name == before + pattern + rest)
  }

  lemma MatchingIs(config: ServerConfig, name: string, pattern: string)
    ensures MatchesPattern(config, name, pattern) <==> Recognises(config.matchMode, pattern, name)
  {
    if config.matchMode == "prefix" {
      PrefixIs(name, pattern);
    } else if config.matchMode != "exact" {
      PartIs(name, pattern);
    }
  }

  lemma PrefixIs(name: string, pattern: string)
    ensures StartsWith(name, pattern) <==> exists rest: string :: name == pattern + rest
  {
    if StartsWith(name, pattern) {
      assert name == pattern + name[|pattern|..];
    }
  }

  lemma PartIs(name: string, pattern: string)
    ensures Contains(name, pattern) <==> exists before: string, rest: string :: name == before + pattern + rest
  {
    if Contains(name, pattern) {
      var i :| 0 <= i <= |name| && pattern <= name[i..];
      assert name == name[..i] + pattern + name[i + |pattern|..];
    }
    if before: string, rest: string :| name == before + pattern + rest {
      assert name[|before|..] == pattern + rest;
    }
  }

  /** "uav", "ugv" or "mecanum", and then one or more digits. */
  ghost predicate Canonical(name: string) {
    exists kind: string, digits: string ::
      && name == kind + digits && kind in {"uav", "ugv", "mecanum"}
      && digits != "" && forall c :: c in digits ==> c in "0123456789"
  }

  lemma NumberedIs(name: string, kind: string)
    ensures IsNumbered(name, kind) <==>
      exists digits: string :: name == kind + digits && digits != "" && forall c :: c in digits ==> '0' <= c <= '9'
  {
    if IsNumbered(name, kind) {
      var digits := name[|kind|..];
      assert name == kind + digits;
    }
    if digits: string :| name == kind + digits && digits != "" && forall c :: c in digits ==> '0' <= c <= '9' {
      forall i | |kind| <= i < |name|
        ensures '0' <= name[i] <= '9'
      {
        assert name[i] == digits[i - |kind|] && digits[i - |kind|] in digits;
      }
    }
  }

  lemma DigitsAre(c: char)
    ensures c in "0123456789" <==> '0' <= c <= '9'
  {
    var digits := "0123456789";
    if '0' <= c <= '9' {
      assert digits[c as int - '0' as int] == c;
    }
  }

  lemma CanonicalIs(name: string)
    ensures IsCanonicalModelName(name) <==> Canonical(name)
  {
    forall c: char
      ensures c in "0123456789" <==> '0' <= c <= '9'
    {
      DigitsAre(c);
    }
    NumberedIs(name, "uav");
    NumberedIs(name, "ugv");
    NumberedIs(name, "mecanum");
  }

  // Names.

  ghost predicate AutoIncluded(config: ServerConfig, name: string) {
    exists pattern :: pattern in config.autoIncludePatterns && config.regexMatch(pattern, name)
  }

  /** The listed pattern with the given number is the first one that recognises the name. */
  ghost predicate ListedFirst(config: ServerConfig, name: string, i: nat) {
    && i < |config.trackerPatterns| && Recognises(config.matchMode, config.trackerPatterns[i], name)
    && forall j :: 0 <= j < i ==> !Recognises(config.matchMode, config.trackerPatterns[j], name)
  }

  ghost predicate Surrounded(model: string, front: string, name: string, back: string) {
    model == front + name + back && Slashes(front) && Slashes(back)
  }

  /** The name without the slashes around it; a name of slashes only has none. */
  ghost predicate Bare(model: string, name: string) {
    && (exists front: string, back: string :: Surrounded(model, front, name, back))
    && (name != "" ==> name[0] != '/' && name[|name| - 1] != '/')
  }

  /** Which tracker a model with that bare name is served as.  The empty name says that it is not served. */
  ghost predicate ServedUnder(config: ServerConfig, name: string, tracker: string) {
    if name == "" then tracker == ""
    else if name in config.configuredModelToTracker then tracker == config.configuredModelToTracker[name]
    else if config.autoTrackKnownModels then
      tracker ==
      if AutoIncluded(config, name) || (config.autoIncludePatterns == [] && Canonical(name)) then name else ""
    else
      || (exists i: nat :: ListedFirst(config, name, i) && tracker == config.trackerPatterns[i])
      || (tracker == "" && forall i: nat :: !ListedFirst(config, name, i))
  }

  lemma BareIs(model: string)
    ensures Bare(model, Trimmed(model))
  {
    var front, back := TrimmedRemovesEndSlashes(model);
    assert Surrounded(model, front, Trimmed(model), back);
  }

  lemma BareIsUnique(model: string, a: string, b: string)
    requires Bare(model, a) && Bare(model, b)
    ensures a == b
  {
    var af: string, ab: string :| Surrounded(model, af, a, ab);
    var bf: string, bb: string :| Surrounded(model, bf, b, bb);
    if a == "" || b == "" {
      if a == "" {
        OnlySlashes(af, ab, bf, b, bb);
      } else {
        OnlySlashes(bf, bb, af, a, ab);
      }
    } else {
      SameEnds(af, a, ab, bf, b, bb);
      SameEnds(bf, b, bb, af, a, ab);
      SameMiddle(af, a, ab, bf, b, bb);
    }
  }

  lemma SameMiddle(af: string, a: string, ab: string, bf: string, b: string, bb: string)
    requires af + a + ab == bf + b + bb && |af| == |bf| && |ab| == |bb|
    ensures a == b
  {
    var whole := af + a + ab;
    assert a == whole[|af|..|whole| - |ab|] && b == whole[|af|..|whole| - |ab|];
  }

  lemma OnlySlashes(af: string, ab: string, bf: string, b: string, bb: string)
    requires af + [] + ab == bf + b + bb && Slashes(af) && Slashes(ab) && (b != "" ==> b[0] != '/')
    ensures b == ""
  {
    var whole := af + [] + ab;
    assert b != "" ==> whole[|bf|] == b[0];
    forall i | 0 <= i < |whole|
      ensures whole[i] == '/'
    {
      assert whole[i] in af || whole[i] in ab;
    }
  }

  lemma SameEnds(af: string, a: string, ab: string, bf: string, b: string, bb: string)
    requires af + a + ab == bf + b + bb && Slashes(af) && Slashes(ab) && b != ""
    requires b[0] != '/' && b[|b| - 1] != '/'
    ensures |af| <= |bf| && |ab| <= |bb|
  {
    var whole := af + a + ab;
    assert whole[|bf|] == b[0] && whole[|whole| - 1 - |bb|] == b[|b| - 1];
    forall i | 0 <= i < |af|
      ensures whole[i] == '/'
    {
      assert whole[i] == af[i] && af[i] in af;
    }
    var end := |whole| - |ab|;
    forall i | end <= i < |whole|
      ensures whole[i] == '/'
    {
      assert whole[i] == ab[i - end] && ab[i - end] in ab;
    }
  }

  lemma AutoIs(config: ServerConfig, name: string)
    ensures MatchesAutoPattern(config, name) <==> AutoIncluded(config, name)
  {
    if pattern :| pattern in config.autoIncludePatterns && config.regexMatch(pattern, name) {
      var i :| 0 <= i < |config.autoIncludePatterns| && config.autoIncludePatterns[i] == pattern;
    }
  }

  lemma ListedIs(config: ServerConfig, name: string, i: nat)
    ensures FirstMatchingAt(config, name, config.trackerPatterns, i) <==> ListedFirst(config, name, i)
  {
    forall pattern: string
      ensures MatchesPattern(config, name, pattern) <==> Recognises(config.matchMode, pattern, name)
    {
      MatchingIs(config, name, pattern);
    }
  }

  lemma ListedServes(config: ServerConfig, name: string)
    ensures var tracker := FirstMatch(config, name, config.trackerPatterns);
      || (exists i: nat :: ListedFirst(config, name, i) && tracker == config.trackerPatterns[i])
      || (tracker == "" && forall i: nat :: !ListedFirst(config, name, i))
  {
    var tracker, patterns := FirstMatch(config, name, config.trackerPatterns), config.trackerPatterns;
    FirstMatchIsFirst(config, name, patterns);
    if tracker == "" {
      forall i: nat
        ensures !ListedFirst(config, name, i)
      {
        ListedIs(config, name, i);
      }
    } else {
      var i: nat :| FirstMatchingAt(config, name, patterns, i) && patterns[i] == tracker;
      ListedIs(config, name, i);
    }
  }

  /** The tracker of every model: the mapped one, in automatic mode its own bare name if it is recognised, in pattern
      mode the first listed pattern that recognises it. */
  lemma TrackerNameIs(config: ServerConfig, model: string, name: string)
    requires Bare(model, name)
    ensures ServedUnder(config, name, TrackerName(config, model))
  {
    BareIs(model);
    BareIsUnique(model, name, Trimmed(model));
    AutoIs(config, name);
    CanonicalIs(name);
    ListedServes(config, name);
  }

  lemma ServedUnderOne(config: ServerConfig, name: string, a: string, b: string)
    requires ServedUnder(config, name, a) && ServedUnder(config, name, b)
    ensures a == b
  {
    if name != "" && name !in config.configuredModelToTracker && !config.autoTrackKnownModels {
      if i: nat :| ListedFirst(config, name, i) && a == config.trackerPatterns[i] {
        var j: nat :| ListedFirst(config, name, j) && b == config.trackerPatterns[j];
        assert i == j;
      }
    }
  }

  // Whole runs.

  /** Room for the samples of the maximum delay and the margin at the publish rate, and three more, but at least four;
      four if delays are off. */
  ghost predicate Roomy(config: DelayConfig, tracker: string, publishRateHz: real, capacity: nat) {
    var most := if tracker in config.trackers && config.trackers[tracker].maxDelayMs >= 0.0
                then config.trackers[tracker].maxDelayMs
                else config.maxDelayMs;
    var margin := if config.historyMarginMs < 0.0 then 0.0 else config.historyMarginMs;
    var samples := (most + margin) / 1000.0 * publishRateHz;
    && capacity >= 4
    && (!config.enabled ==> capacity == 4)
    && (config.enabled ==> samples <= (capacity - 3) as real && (capacity == 4 || (capacity - 4) as real < samples))
  }

  lemma CapacityIs(config: DelayConfig, tracker: string, publishRateHz: real)
    ensures Roomy(config, tracker, publishRateHz, HistoryCapacity(config, tracker, publishRateHz))
  {}

  /** In every reachable state a model is served under the name it should have, seen through that tracker's extrinsic
      and with that tracker's room. */
  lemma EveryModelIsServed(p: Platform, config: ServerConfig, events: seq<Event>, model: string, name: string)
    requires model in Run(p, config, events).registry.tracked && Bare(model, name)
    ensures var r := Run(p, config, events).registry;
      var m := r.tracked[model];
      && m.modelName == model && m.trackerName != "" && ServedUnder(config, name, m.trackerName)
      && m.bodyToTracker ==
         (if m.trackerName in config.robots then config.robots[m.trackerName] else config.defaultBodyToTracker)
      && Roomy(config.delay, m.trackerName, config.publishRateHz, r.HistoryOf(model).capacity)
  {
    EveryModelIsConfigured(p, config, events, model);
    TrackerNameIs(config, model, name);
    CapacityIs(config.delay, Run(p, config, events).registry.tracked[model].trackerName, config.publishRateHz);
  }
}
