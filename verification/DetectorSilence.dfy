/** How long monitors without thresholds are silent, because a Z-score needs samples. */
module DetectorSilence {
  import opened Detector
  import opened DetectorSafety
  import opened DetectorWindows
  import opened Options
  import opened Statistics
  import opened Text

  predicate StatOnly(p: Profile) { p.warn.None? || p.trip.None? }

  /** No reload of the run gives `eq` both thresholds. */
  predicate NeverLimited(inputs: seq<Input>, eq: string) {
    forall n :: 0 <= n < |inputs| && inputs[n].Reload? && eq in Loaded(inputs[n].graph) ==>
      StatOnly(Loaded(inputs[n].graph)[eq])
  }

  /** A state in which the breaker of `eq` is as silent as the statistics force it to be after `n` samples. */
  predicate Quiet(s: DetectorState, eq: string, n: nat) {
    eq in s.breakers ==>
      && StatOnly(s.breakers[eq].profile)
      && (n <= 10 ==> s.breakers[eq].state == Normal)
      && (n <= 26 ==> s.breakers[eq].state != Trip)
  }

  /** A sample that completes a window of at most `n + 1` values. */
  lemma FeedQuiet(s: DetectorState, x: Sample, n: nat)
    requires x.equipmentId in s.breakers && Quiet(s, x.equipmentId, n)
    requires
      var w := NextWindow(s, s.breakers[x.equipmentId], x);
      |w| <= n + 1 && IsDeviation(x.deviation, w)
    ensures Quiet(Feed(s, x), x.equipmentId, n + 1)
  {
    ZScoreNeedsSamples(NextWindow(s, s.breakers[x.equipmentId], x), x.deviation);
  }

  lemma SampleQuiet(s: DetectorState, x: Sample, eq: string, fed: seq<real>)
    requires Tidy(s) && Disciplined(s, Telemetered(x)) && Legal(s, Telemetered(x))
    requires WindowIs(s, eq, fed) && Quiet(s, eq, |fed|)
    ensures Quiet(Process(s, x), eq, |FedStep(s, Telemetered(x), eq, fed)|)
  {
    var r, f, t := Register(s, x), if eq in s.breakers then fed else [], Process(s, x);
    if eq in t.breakers {
      FedOfSample(s, x, eq, fed);
      RegisterWindows(s, x, eq, fed);
      RegisterQuiet(s, x, eq, |fed|);
      if x.equipmentId in r.breakers {
        if x.equipmentId == eq { OwnQuiet(r, x, f); } else { OtherQuiet(r, x, eq, |f|); }
      }
    }
  }

  lemma OwnLength(r: DetectorState, x: Sample, f: seq<real>)
    requires x.equipmentId in r.breakers && WindowIs(r, x.equipmentId, f) && OwnSensor(r, x)
    ensures |NextWindow(r, r.breakers[x.equipmentId], x)| <= |f| + 1
  {
    FeedOwn(r, x, f);
  }

  lemma OwnQuiet(r: DetectorState, x: Sample, f: seq<real>)
    requires x.equipmentId in r.breakers && WindowIs(r, x.equipmentId, f) && Quiet(r, x.equipmentId, |f|)
    requires OwnSensor(r, x) && IsDeviation(x.deviation, NextWindow(r, r.breakers[x.equipmentId], x))
    ensures Quiet(Feed(r, x), x.equipmentId, |f| + 1)
  {
    OwnLength(r, x, f);
    FeedQuiet(r, x, |f|);
  }

  /** Samples for other equipments change nothing. */
  lemma OtherQuiet(r: DetectorState, x: Sample, eq: string, n: nat)
    requires x.equipmentId in r.breakers && x.equipmentId != eq && Quiet(r, eq, n)
    ensures Quiet(Feed(r, x), eq, n)
  {
    FeedKeeps(r, x, eq);
  }

  /** A new breaker is as silent as after no sample at all. */
  lemma RegisterQuiet(s: DetectorState, x: Sample, eq: string, n: nat)
    requires Agrees(s) && Quiet(s, eq, n)
    ensures Quiet(Register(s, x), eq, if eq in s.breakers then n else 0)
    ensures Quiet(Register(s, x), eq, n)
  {
  }

  lemma ReloadQuiet(s: DetectorState, graph: map<string, Profile>, eq: string, n: nat)
    requires Quiet(s, eq, n) && (eq in Loaded(graph) ==> StatOnly(Loaded(graph)[eq]))
    ensures Quiet(DoReload(s, Loaded(graph)), eq, if eq in s.breakers then n else 0)
    ensures Quiet(DoReload(s, Loaded(graph)), eq, n)
  {
  }

  lemma ResetQuiet(s: DetectorState, target: Option<string>, eq: string, n: nat)
    requires Quiet(s, eq, n)
    ensures Quiet(DoReset(s, target), eq, if Resets(s, Input.Reset(target), eq) then 0 else n)
    ensures Quiet(DoReset(s, target), eq, n)
  {
  }

  lemma StepQuiet(s: DetectorState, i: Input, eq: string, fed: seq<real>)
    requires Tidy(s) && Disciplined(s, i) && Legal(s, i) && WindowIs(s, eq, fed) && Quiet(s, eq, |fed|)
    requires i.Reload? && eq in Loaded(i.graph) ==> StatOnly(Loaded(i.graph)[eq])
    ensures Quiet(Step(s, i), eq, |FedStep(s, i, eq, fed)|)
  {
    match i
    case Telemetered(x) => SampleQuiet(s, x, eq, fed);
    case Reload(graph) => ReloadQuiet(s, graph, eq, |fed|);
    case Reset(target) => ResetQuiet(s, target, eq, |fed|);
  }

  /** A monitor without thresholds cannot warn before its 11th, nor trip before its 27th sample since its
      last reset or registration, whatever the values are. */
  lemma {:induction false} EarlySilence(inputs: seq<Input>, eq: string)
    requires DisciplinedRun(inputs) && LegalRun(inputs) && NeverLimited(inputs, eq)
    ensures Quiet(Run(inputs), eq, |Fed(inputs, eq)|)
  {
    if inputs != [] {
      var init, i := inputs[..|inputs| - 1], inputs[|inputs| - 1];
      assert NeverLimited(init, eq);
      EarlySilence(init, eq);
      WindowsAreRecent(init, eq);
      assert i == inputs[|inputs| - 1];
      StepQuiet(Run(init), i, eq, Fed(init, eq));
    }
  }

  // ---------------------------------------------------------------- any sensor ids

  /** The sample reaches a breaker. */
  predicate IsFed(s: DetectorState, x: Sample) { x.equipmentId in Register(s, x).breakers }

  /** The key of the window that the sample enters, whatever sensor it names. */
  function KeyFed(s: DetectorState, x: Sample): string
    requires IsFed(s, x)
  {
    Key(x.equipmentId, SensorOf(Register(s, x).breakers[x.equipmentId], x))
  }

  /** Whether input `i` is a sample that reaches the breaker of `eq` (`own`), or the breaker of another equipment. */
  predicate Feeds(s: DetectorState, i: Input, eq: string, own: bool) {
    i.Telemetered? && IsFed(s, i.sample) && (i.sample.equipmentId == eq) == own
  }

  /** The keys of the windows that the samples for `eq` entered, or the samples for all other equipments. */
  function FedKeys(inputs: seq<Input>, eq: string, own: bool): set<string> {
    if inputs == [] then {}
    else
      var s, i := Run(inputs[..|inputs| - 1]), inputs[|inputs| - 1];
      FedKeys(inputs[..|inputs| - 1], eq, own) + (if Feeds(s, i, eq, own) then {KeyFed(s, i.sample)} else {})
  }

  /** How many samples for `eq` there were in the whole run. */
  function SampleCount(inputs: seq<Input>, eq: string): nat {
    if inputs == [] then 0
    else
      var s, i := Run(inputs[..|inputs| - 1]), inputs[|inputs| - 1];
      SampleCount(inputs[..|inputs| - 1], eq) + (if Feeds(s, i, eq, true) then 1 else 0)
  }

  /** A window that no other equipment's samples entered has at most `n` values. */
  predicate Bounded(s: DetectorState, foreign: set<string>, n: nat) {
    forall k :: k in s.windows && k !in foreign ==> |s.windows[k]| <= n
  }

  lemma ReloadBounded(s: DetectorState, loaded: map<string, Profile>, foreign: set<string>, n: nat)
    requires Bounded(s, foreign, n)
    ensures Bounded(DoReload(s, loaded), foreign, n)
  {
  }

  lemma ResetBounded(s: DetectorState, target: Option<string>, foreign: set<string>, n: nat)
    requires Bounded(s, foreign, n)
    ensures Bounded(DoReset(s, target), foreign, n)
  {
  }

  lemma FeedBounded(r: DetectorState, x: Sample, eq: string, foreign: set<string>, n: nat)
    requires Bounded(r, foreign, n) && x.equipmentId in r.breakers
    ensures
      var key := Key(x.equipmentId, SensorOf(r.breakers[x.equipmentId], x));
      if x.equipmentId == eq then Bounded(Feed(r, x), foreign, n + 1) else Bounded(Feed(r, x), foreign + {key}, n)
  {
  }

  /** The sample's window, if no other equipment's samples entered it. */
  lemma FedLength(r: DetectorState, x: Sample, foreign: set<string>, n: nat)
    requires Bounded(r, foreign, n) && x.equipmentId in r.breakers
    requires Key(x.equipmentId, SensorOf(r.breakers[x.equipmentId], x)) !in foreign
    ensures |NextWindow(r, r.breakers[x.equipmentId], x)| <= n + 1
  {
  }

  lemma RegisterKeepsWindows(s: DetectorState, x: Sample)
    ensures Register(s, x).windows == s.windows
  {
  }

  /** The windows after one more input. */
  lemma StepBounded(s: DetectorState, i: Input, eq: string, foreign: set<string>, n: nat)
    requires Bounded(s, foreign, n)
    ensures Bounded(Step(s, i), foreign + (if Feeds(s, i, eq, false) then {KeyFed(s, i.sample)} else {}),
                    n + (if Feeds(s, i, eq, true) then 1 else 0))
  {
    match i
    case Telemetered(x) =>
      RegisterKeepsWindows(s, x);
      if IsFed(s, x) { FeedBounded(Register(s, x), x, eq, foreign, n); }
    case Reload(graph) => ReloadBounded(s, Loaded(graph), foreign, n);
    case Reset(target) => ResetBounded(s, target, foreign, n);
  }

  /** The breaker of `eq` after one more input. */
  lemma StepSilent(s: DetectorState, i: Input, eq: string, foreign: set<string>, n: nat)
    requires Agrees(s) && Legal(s, i) && Bounded(s, foreign, n) && Quiet(s, eq, n)
    requires i.Reload? && eq in Loaded(i.graph) ==> StatOnly(Loaded(i.graph)[eq])
    requires Feeds(s, i, eq, true) ==> KeyFed(s, i.sample) !in foreign
    ensures Quiet(Step(s, i), eq, n + (if Feeds(s, i, eq, true) then 1 else 0))
  {
    match i
    case Telemetered(x) => SampleSilent(s, x, eq, foreign, n);
    case Reload(graph) => ReloadQuiet(s, graph, eq, n);
    case Reset(target) => ResetQuiet(s, target, eq, n);
  }

  lemma SampleSilent(s: DetectorState, x: Sample, eq: string, foreign: set<string>, n: nat)
    requires Agrees(s) && Legal(s, Telemetered(x)) && Bounded(s, foreign, n) && Quiet(s, eq, n)
    requires IsFed(s, x) && x.equipmentId == eq ==> KeyFed(s, x) !in foreign
    ensures Quiet(Process(s, x), eq, n + (if IsFed(s, x) && x.equipmentId == eq then 1 else 0))
  {
    var r := Register(s, x);
    RegisterQuiet(s, x, eq, n);
    RegisterKeepsWindows(s, x);
    if IsFed(s, x) {
      if x.equipmentId == eq {
        FedLength(r, x, foreign, n);
        FeedQuiet(r, x, n);
      } else {
        OtherQuiet(r, x, eq, n);
      }
    }
  }

  lemma {:induction false} WindowsBounded(inputs: seq<Input>, eq: string)
    ensures Bounded(Run(inputs), FedKeys(inputs, eq, false), SampleCount(inputs, eq))
  {
    if inputs != [] {
      var init, i := inputs[..|inputs| - 1], inputs[|inputs| - 1];
      WindowsBounded(init, eq);
      StepBounded(Run(init), i, eq, FedKeys(init, eq, false), SampleCount(init, eq));
    }
  }

  /** Whatever sensor ids the samples name, and however sensors change, reset and are removed: a monitor without
      thresholds cannot warn before its 11th, nor trip before its 27th sample of the run, as long as no sample of
      another equipment enters one of its windows. */
  lemma {:induction false} FirstSamplesSilent(inputs: seq<Input>, eq: string)
    requires LegalRun(inputs) && NeverLimited(inputs, eq)
    requires FedKeys(inputs, eq, true) !! FedKeys(inputs, eq, false)
    ensures Quiet(Run(inputs), eq, SampleCount(inputs, eq))
  {
    if inputs != [] {
      var init, i := inputs[..|inputs| - 1], inputs[|inputs| - 1];
      assert NeverLimited(init, eq);
      FirstSamplesSilent(init, eq);
      WindowsBounded(init, eq);
      RegistryAgrees(init);
      assert i == inputs[|inputs| - 1];
      StepSilent(Run(init), i, eq, FedKeys(init, eq, false), SampleCount(init, eq));
    }
  }

  predicate PlainIds(inputs: seq<Input>) {
    forall n :: 0 <= n < |inputs| && inputs[n].Telemetered? ==> ':' !in inputs[n].sample.equipmentId
  }

  /** Equipment ids without a colon keep the windows of different equipments apart. */
  lemma {:induction false} PlainKeysApart(inputs: seq<Input>, eq: string)
    requires ':' !in eq && PlainIds(inputs)
    ensures FedKeys(inputs, eq, true) !! FedKeys(inputs, eq, false)
  {
    forall k | k in FedKeys(inputs, eq, true) ensures k !in FedKeys(inputs, eq, false) {
      KeyOwner(inputs, eq, true, k);
      if k in FedKeys(inputs, eq, false) {
        KeyOwner(inputs, eq, false, k);
        var a :| IsKeyOf(k, eq, a);
        var other, b :| other != eq && ':' !in other && IsKeyOf(k, other, b);
        PlainKeys(eq, a, other, b);
      }
    }
  }

  predicate IsKeyOf(k: string, eq: string, sensorId: string) { k == Key(eq, sensorId) }

  /** A key belongs to the equipment of a sample. */
  lemma {:induction false} KeyOwner(inputs: seq<Input>, eq: string, own: bool, k: string)
    requires PlainIds(inputs) && k in FedKeys(inputs, eq, own)
    ensures own ==> exists a :: IsKeyOf(k, eq, a)
    ensures !own ==> exists other, b :: other != eq && ':' !in other && IsKeyOf(k, other, b)
  {
    var n := |inputs| - 1;
    if k in FedKeys(inputs[..n], eq, own) {
      KeyOwner(inputs[..n], eq, own, k);
    } else {
      var r, x := Register(Run(inputs[..n]), inputs[n].sample), inputs[n].sample;
      assert IsKeyOf(k, x.equipmentId, SensorOf(r.breakers[x.equipmentId], x));
    }
  }
}
