/** The detector does not depend on the zero point or the orientation of the measured scale: mapping all
    samples and thresholds by v -> v + c, or by v -> c - v with the limit direction flipped, gives the same
    state trace and the same alerts. */
module DetectorSymmetry {
  import opened Options
  import opened RealAlgebra
  import opened Statistics
  import opened Detector

  /** A change of scale: an optional sign flip, then a shift. */
  datatype Scale = Scale(flip: bool, shift: real)

  function Signed(m: Scale, v: real): real { if m.flip then -v else v }

  function Map(m: Scale, v: real): real { Signed(m, v) + m.shift }

  function MapSeq(m: Scale, xs: seq<real>): (r: seq<real>)
    ensures |r| == |xs|
    ensures forall i :: 0 <= i < |xs| ==> r[i] == Map(m, xs[i])
  {
    seq(|xs|, i requires 0 <= i < |xs| => Map(m, xs[i]))
  }

  function MapLimit(m: Scale, limit: Option<real>): Option<real> {
    if limit.None? then None else Some(Map(m, limit.value))
  }

  function MapProfile(m: Scale, p: Profile): Profile {
    p.(warn := MapLimit(m, p.warn), trip := MapLimit(m, p.trip), isLower := p.isLower != m.flip)
  }

  function MapGraph(m: Scale, graph: map<string, Profile>): map<string, Profile> {
    map eq | eq in graph :: MapProfile(m, graph[eq])
  }

  /** The input on the new scale. A reload brings the mapped limits of the profiles that the original one
      loads, from the graph or from the built-in defaults. */
  function MapInput(m: Scale, i: Input): Input {
    match i
    case Telemetered(x) => Telemetered(x.(value := Map(m, x.value)))
    case Reload(graph) => Reload(MapGraph(m, Loaded(graph)))
    case Reset(target) => Reset(target)
  }

  function MapInputs(m: Scale, inputs: seq<Input>): (r: seq<Input>)
    ensures |r| == |inputs|
    ensures forall i :: 0 <= i < |inputs| ==> r[i] == MapInput(m, inputs[i])
  {
    seq(|inputs|, i requires 0 <= i < |inputs| => MapInput(m, inputs[i]))
  }

  // ---------------------------------------------------------------- statistics

  /** `shift` added `n` times. */
  function Times(n: nat, shift: real): real { if n == 0 then 0.0 else Times(n - 1, shift) + shift }

  lemma {:induction false} TimesIsProduct(n: nat, shift: real)
    ensures Times(n, shift) == n as real * shift
  {
    if n > 0 {
      TimesIsProduct(n - 1, shift);
      var k := (n - 1) as real;
      assert (k + 1.0) * shift == k * shift + shift;
    }
  }

  lemma {:induction false} MapSum(m: Scale, xs: seq<real>)
    ensures Sum(MapSeq(m, xs)) == Signed(m, Sum(xs)) + Times(|xs|, m.shift)
  {
    if xs != [] {
      var init := xs[..|xs| - 1];
      MapSum(m, init);
      assert MapSeq(m, xs)[..|xs| - 1] == MapSeq(m, init);
    }
  }

  lemma {:induction false} SameSquares(ys: seq<real>, zs: seq<real>)
    requires |zs| == |ys| && forall i :: 0 <= i < |ys| ==> zs[i] == ys[i] || zs[i] == -ys[i]
    ensures SumSquares(zs) == SumSquares(ys)
  {
    if ys != [] {
      var n := |ys| - 1;
      SameSquares(ys[..n], zs[..n]);
      SameSquare(ys[n], zs[n]);
    }
  }

  lemma SameSquare(d: real, e: real)
    requires e == d || e == -d
    ensures e * e == d * d
  {
    Square(d);
  }

  lemma MapSquares(m: Scale, xs: seq<real>, c: real)
    ensures SumSquaresFrom(MapSeq(m, xs), Map(m, c)) == SumSquaresFrom(xs, c)
  {
    var ys := seq(|xs|, i requires 0 <= i < |xs| => xs[i] - c);
    var zs := seq(|xs|, i requires 0 <= i < |xs| => Map(m, xs[i]) - Map(m, c));
    ShiftedSum(xs, c, ys);
    ShiftedSum(MapSeq(m, xs), Map(m, c), zs);
    SameSquares(ys, zs);
  }

  lemma MapMean(m: Scale, xs: seq<real>)
    requires xs != []
    ensures Mean(MapSeq(m, xs)) == Map(m, Mean(xs))
  {
    MapSum(m, xs);
    TimesIsProduct(|xs|, m.shift);
    Quotient(Sum(xs), |xs| as real);
    MeanStep(m, Mean(xs), |xs| as real, Sum(xs), Sum(MapSeq(m, xs)));
  }

  lemma MeanStep(m: Scale, mean: real, n: real, sum: real, mapped: real)
    requires n > 0.0 && mean * n == sum && mapped == Signed(m, sum) + n * m.shift
    ensures mapped / n == Map(m, mean)
  {
    var shift := m.shift;
    assert (mean + shift) * n == mean * n + n * shift;
    assert (-mean + shift) * n == -(mean * n) + n * shift;
    QuotientUnique(mapped, n, Map(m, mean));
  }

  lemma MapZScore(m: Scale, xs: seq<real>, s: Deviation)
    requires xs != []
    ensures ZScore(MapSeq(m, xs), s) == ZScore(xs, s)
    ensures IsDeviation(s, MapSeq(m, xs)) <==> IsDeviation(s, xs)
  {
    MapMean(m, xs);
    MapSquares(m, xs, Mean(xs));
    assert Variance(MapSeq(m, xs)) == Variance(xs);
  }

  lemma NegativeQuotient(a: real, b: real)
    requires b > 0.0
    ensures (-a) / b == -(a / b)
  {
    Quotient(a, b);
    QuotientUnique(-a, b, -(a / b));
  }

  lemma MapSlope(m: Scale, xs: seq<real>, stamps: seq<real>)
    requires xs != [] && stamps != []
    ensures Slope(MapSeq(m, xs), stamps) == Signed(m, Slope(xs, stamps))
  {
    var span := stamps[|stamps| - 1] - stamps[0];
    if |xs| >= MIN_SAMPLES && span > MIN_TIME_SPAN {
      NegativeQuotient(xs[|xs| - 1] - xs[0], span);
    }
  }

  // ---------------------------------------------------------------- related states

  /** Profiles that differ only by the scale; the direction of a profile without limits is irrelevant. */
  predicate ProfilesMatch(m: Scale, p: Profile, q: Profile) {
    && q.sensorId == p.sensorId && q.source == p.source && q.labels == p.labels
    && q.warn == MapLimit(m, p.warn) && q.trip == MapLimit(m, p.trip)
    && (p.warn.Some? && p.trip.Some? ==> q.isLower == (p.isLower != m.flip))
  }

  predicate BreakersMatch(m: Scale, b: Breaker, c: Breaker) {
    && ProfilesMatch(m, b.profile, c.profile)
    && c.state == b.state && c.z == b.z && c.slope == Signed(m, b.slope)
    && c.recent == MapSeq(m, b.recent)
  }

  predicate AlertsMatch(m: Scale, xs: seq<Alert>, ys: seq<Alert>) {
    && |xs| == |ys|
    && (forall i :: 0 <= i < |xs| ==> ys[i] == xs[i].(value := Map(m, xs[i].value)))
  }

  predicate ProfileMapsMatch(m: Scale, ps: map<string, Profile>, qs: map<string, Profile>) {
    qs.Keys == ps.Keys && (forall eq :: eq in ps ==> ProfilesMatch(m, ps[eq], qs[eq]))
  }

  predicate BreakerMapsMatch(m: Scale, bs: map<string, Breaker>, cs: map<string, Breaker>) {
    cs.Keys == bs.Keys && (forall eq :: eq in bs ==> BreakersMatch(m, bs[eq], cs[eq]))
  }

  predicate WindowsMatch(m: Scale, ws: map<string, seq<real>>, vs: map<string, seq<real>>) {
    vs.Keys == ws.Keys && (forall k :: k in ws ==> vs[k] == MapSeq(m, ws[k]))
  }

  predicate Match(m: Scale, s: DetectorState, t: DetectorState) {
    && t.tried == s.tried && t.graphCalls == s.graphCalls && t.stamps == s.stamps
    && ProfileMapsMatch(m, s.profiles, t.profiles)
    && BreakerMapsMatch(m, s.breakers, t.breakers)
    && WindowsMatch(m, s.windows, t.windows)
    && AlertsMatch(m, s.alerts, t.alerts)
  }

  lemma EvaluateMatches(m: Scale, p: Profile, q: Profile, value: real, z: real, slope: real)
    requires ProfilesMatch(m, p, q)
    ensures Evaluate(q, Map(m, value), z, Signed(m, slope)) == Evaluate(p, value, z, slope)
  {
  }

  lemma PushMatches(m: Scale, xs: seq<real>, v: real)
    ensures Push(MapSeq(m, xs), Map(m, v)) == MapSeq(m, Push(xs, v))
  {
  }

  lemma AddBreakerMatches(m: Scale, s: DetectorState, t: DetectorState, eq: string, p: Profile, q: Profile,
                          sensorId: string)
    requires Match(m, s, t) && ProfilesMatch(m, p, q)
    ensures Match(m, AddBreaker(s, eq, p, sensorId), AddBreaker(t, eq, q, sensorId))
  {
    assert MapSeq(m, []) == [];
    assert BreakersMatch(m, NewBreaker(p), NewBreaker(q));
  }

  lemma RegisterMatches(m: Scale, s: DetectorState, t: DetectorState, x: Sample, y: Sample)
    requires Match(m, s, t) && y == x.(value := Map(m, x.value))
    ensures Match(m, Register(s, x), Register(t, y))
  {
    var eq := x.equipmentId;
    if eq in s.breakers || eq == "" {
    } else if eq in s.profiles {
      AddBreakerMatches(m, s, t, eq, s.profiles[eq], t.profiles[eq], x.sensorId);
    } else if eq !in s.tried {
      var p := AutoProfile(x);
      assert p == AutoProfile(y) && ProfilesMatch(m, p, p);
      var s' := s.(tried := s.tried + {eq}, graphCalls := s.graphCalls + [eq], profiles := s.profiles[eq := p]);
      var t' := t.(tried := t.tried + {eq}, graphCalls := t.graphCalls + [eq], profiles := t.profiles[eq := p]);
      assert Match(m, s', t');
      AddBreakerMatches(m, s', t', eq, p, p, x.sensorId);
    }
  }

  lemma NextMatches(m: Scale, s: DetectorState, t: DetectorState, x: Sample, y: Sample)
    requires Match(m, s, t) && y == x.(value := Map(m, x.value)) && x.equipmentId in s.breakers
    ensures
      var b, c := s.breakers[x.equipmentId], t.breakers[x.equipmentId];
      && SensorOf(c, y) == SensorOf(b, x)
      && NextWindow(t, c, y) == MapSeq(m, NextWindow(s, b, x))
      && NextStamps(t, c, y) == NextStamps(s, b, x)
  {
    var b, c := s.breakers[x.equipmentId], t.breakers[x.equipmentId];
    assert BreakersMatch(m, b, c);
    var key := Key(x.equipmentId, SensorOf(b, x));
    assert MapSeq(m, []) == [];
    assert Lookup(t.windows, key) == MapSeq(m, Lookup(s.windows, key));
    PushMatches(m, Lookup(s.windows, key), x.value);
  }

  lemma BreakerMatches(m: Scale, b: Breaker, c: Breaker, x: Sample, y: Sample, window: seq<real>, stamps: seq<real>)
    requires BreakersMatch(m, b, c) && y == x.(value := Map(m, x.value)) && window != [] && stamps != []
    ensures BreakersMatch(m, NextBreaker(b, x, window, stamps), NextBreaker(c, y, MapSeq(m, window), stamps))
    ensures AlertsMatch(m, RaisedAlerts(b, NextBreaker(b, x, window, stamps), x),
                        RaisedAlerts(c, NextBreaker(c, y, MapSeq(m, window), stamps), y))
  {
    MapZScore(m, window, x.deviation);
    MapSlope(m, window, stamps);
    EvaluateMatches(m, b.profile, c.profile, x.value, ZScore(window, x.deviation), Slope(window, stamps));
    PushMatches(m, b.recent, x.value);
  }

  lemma FeedMatches(m: Scale, s: DetectorState, t: DetectorState, x: Sample, y: Sample)
    requires Match(m, s, t) && y == x.(value := Map(m, x.value)) && x.equipmentId in s.breakers
    ensures Match(m, Feed(s, x), Feed(t, y))
  {
    NextMatches(m, s, t, x, y);
    var b, c := s.breakers[x.equipmentId], t.breakers[x.equipmentId];
    var window, stamps := NextWindow(s, b, x), NextStamps(s, b, x);
    BreakerMatches(m, b, c, x, y, window, stamps);
    var next, after := NextBreaker(b, x, window, stamps), NextBreaker(c, y, MapSeq(m, window), stamps);
    PutMatches(m, s, t, x.equipmentId, next, after, Key(x.equipmentId, SensorOf(b, x)), window);
    AlertsConcat(m, s.alerts, t.alerts, RaisedAlerts(b, next, x), RaisedAlerts(c, after, y));
  }

  /** Matching entries keep matching maps. */
  lemma PutMatches(m: Scale, s: DetectorState, t: DetectorState, eq: string, b: Breaker, c: Breaker,
                   key: string, window: seq<real>)
    requires Match(m, s, t) && BreakersMatch(m, b, c)
    ensures BreakerMapsMatch(m, s.breakers[eq := b], t.breakers[eq := c])
    ensures WindowsMatch(m, s.windows[key := window], t.windows[key := MapSeq(m, window)])
  {
  }

  lemma AlertsConcat(m: Scale, a: seq<Alert>, b: seq<Alert>, c: seq<Alert>, d: seq<Alert>)
    requires AlertsMatch(m, a, b) && AlertsMatch(m, c, d)
    ensures AlertsMatch(m, a + c, b + d)
  {
  }

  lemma KeysMatch(m: Scale, s: DetectorState, t: DetectorState, eqs: set<string>)
    requires BreakerMapsMatch(m, s.breakers, t.breakers) && eqs <= s.breakers.Keys
    ensures WindowKeys(t.breakers, eqs) == WindowKeys(s.breakers, eqs)
  {
    assert forall eq :: eq in eqs ==> t.breakers[eq].profile.sensorId == s.breakers[eq].profile.sensorId;
  }

  lemma ReloadMatches(m: Scale, s: DetectorState, t: DetectorState, graph: map<string, Profile>)
    requires Match(m, s, t)
    ensures Match(m, DoReload(s, graph), DoReload(t, MapGraph(m, graph)))
  {
    var mapped := MapGraph(m, graph);
    KeysMatch(m, s, t, s.breakers.Keys - graph.Keys);
    assert t.breakers.Keys - mapped.Keys == s.breakers.Keys - graph.Keys;
    RemovedMatch(m, s.windows, t.windows, WindowKeys(s.breakers, s.breakers.Keys - graph.Keys));
    ReloadBreakersMatch(m, s.breakers, t.breakers, graph);
    assert ProfileMapsMatch(m, graph, mapped);
  }

  lemma RemovedMatch(m: Scale, ws: map<string, seq<real>>, vs: map<string, seq<real>>, keys: set<string>)
    requires WindowsMatch(m, ws, vs)
    ensures WindowsMatch(m, ws - keys, vs - keys)
  {
  }

  lemma ReloadedMatches(m: Scale, bs: map<string, Breaker>, cs: map<string, Breaker>, eq: string, p: Profile)
    requires BreakerMapsMatch(m, bs, cs)
    ensures BreakersMatch(m, Reloaded(bs, eq, p), Reloaded(cs, eq, MapProfile(m, p)))
  {
    NewProfileMatches(m, p);
    if eq in bs {
      assert BreakersMatch(m, bs[eq], cs[eq]);
    }
  }

  lemma ReloadBreakersMatch(m: Scale, bs: map<string, Breaker>, cs: map<string, Breaker>, graph: map<string, Profile>)
    requires BreakerMapsMatch(m, bs, cs)
    ensures BreakerMapsMatch(m, ReloadBreakers(bs, graph), ReloadBreakers(cs, MapGraph(m, graph)))
  {
    forall eq | eq in graph
      ensures BreakersMatch(m, Reloaded(bs, eq, graph[eq]), Reloaded(cs, eq, MapProfile(m, graph[eq])))
    {
      ReloadedMatches(m, bs, cs, eq, graph[eq]);
    }
  }

  lemma NewProfileMatches(m: Scale, p: Profile)
    ensures ProfilesMatch(m, p, MapProfile(m, p))
    ensures BreakersMatch(m, NewBreaker(p), NewBreaker(MapProfile(m, p)))
  {
    assert MapSeq(m, []) == [];
  }

  lemma ClearedMatches(m: Scale, ws: map<string, seq<real>>, vs: map<string, seq<real>>, keys: set<string>)
    requires WindowsMatch(m, ws, vs)
    ensures WindowsMatch(m, Cleared(ws, keys), Cleared(vs, keys))
  {
    assert MapSeq(m, []) == [];
  }

  lemma ResetOneMatches(m: Scale, s: DetectorState, t: DetectorState, target: Option<string>, eq: string)
    requires eq in s.breakers && eq in t.breakers && BreakersMatch(m, s.breakers[eq], t.breakers[eq])
    requires !(target.Some? && (target.value !in s.breakers || target.value !in t.breakers))
    ensures eq in DoReset(s, target).breakers && eq in DoReset(t, target).breakers
    ensures BreakersMatch(m, DoReset(s, target).breakers[eq], DoReset(t, target).breakers[eq])
  {
    assert MapSeq(m, []) == [];
    assert eq in Targets(s, target) <==> eq in Targets(t, target);
    assert BreakersMatch(m, ResetBreaker(s.breakers[eq]), ResetBreaker(t.breakers[eq]));
  }

  lemma ResetBreakersMatch(m: Scale, s: DetectorState, t: DetectorState, target: Option<string>)
    requires BreakerMapsMatch(m, s.breakers, t.breakers) && !(target.Some? && target.value !in s.breakers)
    ensures BreakerMapsMatch(m, DoReset(s, target).breakers, DoReset(t, target).breakers)
  {
    forall eq | eq in s.breakers
      ensures BreakersMatch(m, DoReset(s, target).breakers[eq], DoReset(t, target).breakers[eq])
    {
      ResetOneMatches(m, s, t, target, eq);
    }
  }

  lemma ResetMatches(m: Scale, s: DetectorState, t: DetectorState, target: Option<string>)
    requires Match(m, s, t)
    ensures Match(m, DoReset(s, target), DoReset(t, target))
  {
    if !(target.Some? && target.value !in s.breakers) {
      var targets := Targets(s, target);
      assert targets == Targets(t, target);
      KeysMatch(m, s, t, targets);
      ClearedMatches(m, s.windows, t.windows, WindowKeys(s.breakers, targets));
      ResetBreakersMatch(m, s, t, target);
    }
  }

  /** A registry is never empty after a reload, so the mapped one is loaded as it is. */
  lemma MappedIsLoaded(m: Scale, graph: map<string, Profile>)
    ensures Loaded(MapGraph(m, Loaded(graph))) == MapGraph(m, Loaded(graph))
  {
    assert "IH-250" in DEFAULT_PROFILES;
    var eq :| eq in Loaded(graph);
    assert eq in MapGraph(m, Loaded(graph));
  }

  lemma StepMatches(m: Scale, s: DetectorState, t: DetectorState, i: Input)
    requires Match(m, s, t)
    ensures Match(m, Step(s, i), Step(t, MapInput(m, i)))
    ensures Legal(s, i) ==> Legal(t, MapInput(m, i))
  {
    match i
    case Telemetered(x) =>
      var y := x.(value := Map(m, x.value));
      RegisterMatches(m, s, t, x, y);
      var s', t' := Register(s, x), Register(t, y);
      if x.equipmentId in s'.breakers {
        FeedMatches(m, s', t', x, y);
        NextMatches(m, s', t', x, y);
        MapZScore(m, NextWindow(s', s'.breakers[x.equipmentId], x), x.deviation);
      }
    case Reload(graph) =>
      MappedIsLoaded(m, graph);
      ReloadMatches(m, s, t, Loaded(graph));
    case Reset(target) => ResetMatches(m, s, t, target);
  }

  lemma {:induction false} RunsMatch(m: Scale, inputs: seq<Input>)
    ensures Match(m, Run(inputs), Run(MapInputs(m, inputs)))
  {
    if inputs != [] {
      var n := |inputs| - 1;
      RunsMatch(m, inputs[..n]);
      assert MapInputs(m, inputs)[..n] == MapInputs(m, inputs[..n]);
      StepMatches(m, Run(inputs[..n]), Run(MapInputs(m, inputs[..n])), inputs[n]);
    }
  }

  /** The two-run symmetry: after every prefix of the run, the mapped run has the same breakers in the same
      states with the same Z-scores, and it raised alerts at the same points with the same severities;
      a legal run is mapped to a legal run. */
  lemma ScaleInvariance(m: Scale, inputs: seq<Input>, n: nat)
    requires n <= |inputs|
    ensures
      var s, t := Run(inputs[..n]), Run(MapInputs(m, inputs)[..n]);
      && t.breakers.Keys == s.breakers.Keys
      && (forall eq :: eq in s.breakers ==>
            t.breakers[eq].state == s.breakers[eq].state && t.breakers[eq].z == s.breakers[eq].z)
      && AlertsMatch(m, s.alerts, t.alerts)
    ensures LegalRun(inputs) ==> LegalRun(MapInputs(m, inputs))
  {
    RunsMatch(m, inputs[..n]);
    assert MapInputs(m, inputs)[..n] == MapInputs(m, inputs[..n]);
    if LegalRun(inputs) {
      LegalRunsMatch(m, inputs);
    }
  }

  lemma {:induction false} LegalRunsMatch(m: Scale, inputs: seq<Input>)
    requires LegalRun(inputs)
    ensures LegalRun(MapInputs(m, inputs))
  {
    if inputs != [] {
      var n := |inputs| - 1;
      LegalRunsMatch(m, inputs[..n]);
      RunsMatch(m, inputs[..n]);
      assert MapInputs(m, inputs)[..n] == MapInputs(m, inputs[..n]);
      StepMatches(m, Run(inputs[..n]), Run(MapInputs(m, inputs[..n])), inputs[n]);
    }
  }
}
