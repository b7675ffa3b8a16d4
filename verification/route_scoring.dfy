/** Per-route scoring of the AI route selector: three time- and shape-dependent
    heuristic sub-scores, min/max normalisation of distance and duration across
    the candidate batch, and the weighted total. Scores are exact reals. */
module RouteScoring {
  import opened Optional
  import opened CampusTime

  /** One leg of a directions-provider route; `stepCount` is the length of its
      `steps` array, `None` when the field is missing. */
  datatype Leg = Leg(stepCount: Option<nat>)

  /** A directions-provider route: `distance` in metres, `duration` in seconds,
      and the optional `legs` array. */
  datatype Route = Route(distance: real, duration: real, legs: Option<seq<Leg>>)

  /** The five score components, each meant to lie in [0, 1] with 1 best. */
  datatype Breakdown = Breakdown(
    distance: real,
    duration: real,
    pedestrianTraffic: real,
    pathQuality: real,
    accessibility: real)

  datatype Score = Score(totalScore: real, breakdown: Breakdown)

  /** One multiplier per score component. */
  datatype Weights = Weights(
    distance: real,
    duration: real,
    pedestrianTraffic: real,
    pathQuality: real,
    accessibility: real)

  /** Caller-supplied overrides: any subset of the weight keys. */
  datatype Preferences = Preferences(
    distance: Option<real>,
    duration: Option<real>,
    pedestrianTraffic: Option<real>,
    pathQuality: Option<real>,
    accessibility: Option<real>)

  /** The module-level baseline `SCORING_WEIGHTS`. */
  const DefaultWeights := Weights(0.30, 0.25, 0.20, 0.15, 0.10)

  /** The empty override object `{}`. */
  const NoPreferences := Preferences(None, None, None, None, None)

  /** A complete weight table passed as overrides. */
  function AsPreferences(w: Weights): Preferences
  {
    Preferences(Some(w.distance), Some(w.duration), Some(w.pedestrianTraffic),
                Some(w.pathQuality), Some(w.accessibility))
  }

  function WeightSum(w: Weights): real
  {
    w.distance + w.duration + w.pedestrianTraffic + w.pathQuality + w.accessibility
  }

  /** Non-negative weights summing to one. */
  predicate WeightsValid(w: Weights)
  {
    && w.distance >= 0.0 && w.duration >= 0.0 && w.pedestrianTraffic >= 0.0
    && w.pathQuality >= 0.0 && w.accessibility >= 0.0
    && WeightSum(w) == 1.0
  }

  /** `{ ...base, ...prefs }`: each key present in `prefs` replaces the base value. */
  function MergeWeights(base: Weights, prefs: Preferences): (w: Weights)
    ensures prefs == NoPreferences ==> w == base
    ensures prefs.distance.Some? ==> w.distance == prefs.distance.value
    ensures prefs.distance.None? ==> w.distance == base.distance
    ensures prefs.duration.Some? ==> w.duration == prefs.duration.value
    ensures prefs.duration.None? ==> w.duration == base.duration
    ensures prefs.pedestrianTraffic.Some? ==> w.pedestrianTraffic == prefs.pedestrianTraffic.value
    ensures prefs.pedestrianTraffic.None? ==> w.pedestrianTraffic == base.pedestrianTraffic
    ensures prefs.pathQuality.Some? ==> w.pathQuality == prefs.pathQuality.value
    ensures prefs.pathQuality.None? ==> w.pathQuality == base.pathQuality
    ensures prefs.accessibility.Some? ==> w.accessibility == prefs.accessibility.value
    ensures prefs.accessibility.None? ==> w.accessibility == base.accessibility
  {
    Weights(prefs.distance.GetOr(base.distance),
            prefs.duration.GetOr(base.duration),
            prefs.pedestrianTraffic.GetOr(base.pedestrianTraffic),
            prefs.pathQuality.GetOr(base.pathQuality),
            prefs.accessibility.GetOr(base.accessibility))
  }

  /** Overriding every key yields exactly the overriding table. */
  lemma MergeFullOverride(base: Weights, w: Weights)
    ensures MergeWeights(base, AsPreferences(w)) == w
  {
  }

  /** One weighted component: a score in [0, 1] contributes at most its weight. */
  function Weighted(score: real, weight: real): (r: real)
    ensures 0.0 <= score <= 1.0 && 0.0 <= weight ==> 0.0 <= r <= weight
    ensures score == 0.0 ==> r == 0.0
    ensures score == 1.0 ==> r == weight
  {
    ProductWithinWeight(score, weight);
    score * weight
  }

  lemma ProductWithinWeight(x: real, w: real)
    ensures 0.0 <= x <= 1.0 && 0.0 <= w ==> 0.0 <= x * w <= w
  {
    if 0.0 <= x <= 1.0 && 0.0 <= w {
      NonNegProduct(x, w);
      NonNegProduct(1.0 - x, w);
      assert w - x * w == (1.0 - x) * w;
    }
  }

  lemma NonNegProduct(a: real, b: real)
    requires 0.0 <= a && 0.0 <= b
    ensures 0.0 <= a * b
  {
  }

  /** The weighted sum of the five components. */
  function WeightedTotal(b: Breakdown, w: Weights): real
  {
    Weighted(b.distance, w.distance) + Weighted(b.duration, w.duration)
    + Weighted(b.pedestrianTraffic, w.pedestrianTraffic) + Weighted(b.pathQuality, w.pathQuality)
    + Weighted(b.accessibility, w.accessibility)
  }

  function Max(a: real, b: real): (r: real)
    ensures r >= a && r >= b && (r == a || r == b)
  {
    if a >= b then a else b
  }

  function Min(a: real, b: real): (r: real)
    ensures r <= a && r <= b && (r == a || r == b)
  {
    if a <= b then a else b
  }

  /** Estimated crowding: busy at class changes during peak hours, and short
      routes are assumed to be the crowded ones at class changes. The 0.1 floor
      is never reached: the lowest value the rules produce is 0.4. */
  function PedestrianTrafficScore(route: Route, clock: Clock): (r: real)
    ensures 0.4 <= r <= 1.0
    ensures !IsClassChangeTime(clock.minute) && !IsPeakHours(clock.hour) ==> r == 1.0
    ensures !IsClassChangeTime(clock.minute) && IsPeakHours(clock.hour) ==> r == 0.8
    ensures IsClassChangeTime(clock.minute) && !IsPeakHours(clock.hour) ==>
              r == (if route.distance < 500.0 then 0.8 else 1.0)
    ensures IsClassChangeTime(clock.minute) && IsPeakHours(clock.hour) ==>
              r == (if route.distance < 500.0 then 0.4 else 0.6)
  {
    var classChange := IsClassChangeTime(clock.minute);
    var peak := IsPeakHours(clock.hour);
    var crowd := if classChange && peak then 0.4 else if peak then 0.2 else 0.0;
    var rush := if classChange && route.distance < 500.0 then 0.2 else 0.0;
    Max(0.1, 1.0 - crowd - rush)
  }

  /** Path quality: shorter campus paths are assumed better kept; after dark a
      short route is assumed lit and a long one is penalised; around midday a
      shade bonus applies. The [0.1, 1.0] clamp never binds: results lie in [0.3, 1.0]. */
  function PathQualityScore(route: Route, hour: int): (r: real)
    ensures 0.3 <= r <= 1.0
    ensures IsDarkForPaths(hour) ==> (route.distance < 400.0 <==> r >= 0.9)
    ensures !IsDarkForPaths(hour) && !IsMidday(hour) ==>
              r == (if route.distance < 300.0 then 0.7 else if route.distance < 600.0 then 0.6 else 0.5)
    ensures !IsDarkForPaths(hour) && IsMidday(hour) ==>
              r == (if route.distance < 300.0 then 0.8 else if route.distance < 600.0 then 0.7 else 0.6)
    ensures IsDarkForPaths(hour) ==>
              r == (if route.distance < 300.0 then 1.0 else if route.distance < 400.0 then 0.9
                    else if route.distance < 600.0 then 0.4 else 0.3)
  {
    var d := route.distance;
    var lengthBonus := if d < 300.0 then 0.2 else if d < 600.0 then 0.1 else 0.0;
    var timeBonus :=
      if IsDarkForPaths(hour) then (if d < 400.0 then 0.3 else -0.2)
      else if IsMidday(hour) then 0.1
      else 0.0;
    Max(0.1, Min(1.0, 0.5 + lengthBonus + timeBonus))
  }

  /** For a fixed hour, a longer route never has better path quality. */
  lemma PathQualityAntitone(r1: Route, r2: Route, hour: int)
    requires r1.distance <= r2.distance
    ensures PathQualityScore(r1, hour) >= PathQualityScore(r2, hour)
  {
  }

  /** `route.legs?.[0]?.steps || []`, by length. */
  function StepCount(route: Route): nat
  {
    match route.legs
    case None => 0
    case Some(legs) => if |legs| == 0 then 0 else legs[0].stepCount.GetOr(0)
  }

  /** `steps / (distance / 1000) < 3` under IEEE arithmetic: a zero distance makes
      the quotient Infinity or NaN, neither of which is below 3. */
  function FewTurns(steps: nat, distance: real): (r: bool)
    ensures distance > 0.0 ==> (r <==> 1000.0 * steps as real < 3.0 * distance)
    ensures distance < 0.0 ==> r
    ensures distance == 0.0 ==> !r
  {
    if distance == 0.0 then false
    else
      var turnsPerKm := steps as real / (distance / 1000.0);
      assert turnsPerKm * distance == 1000.0 * steps as real;
      turnsPerKm < 3.0
  }

  /** Accessibility: short routes and routes with few turns per kilometre score
      higher. The [0.3, 1.0] clamp never binds: results lie in [0.7, 1.0]. */
  function AccessibilityScore(route: Route): (r: real)
    ensures 0.7 <= r <= 1.0
    ensures r == 1.0 <==> route.distance < 400.0 && FewTurns(StepCount(route), route.distance)
    ensures r == 0.7 <==> route.distance >= 400.0 && !FewTurns(StepCount(route), route.distance)
    ensures route.distance < 400.0 && !FewTurns(StepCount(route), route.distance) ==> r == 0.9
    ensures route.distance >= 400.0 && FewTurns(StepCount(route), route.distance) ==> r == 0.8
    ensures route.distance == 0.0 ==> r == 0.9
    ensures route.distance >= 400.0 ==>
              (r == 0.8 <==> 1000.0 * StepCount(route) as real < 3.0 * route.distance)
  {
    var shortBonus := if route.distance < 400.0 then 0.2 else 0.0;
    var turnBonus := if FewTurns(StepCount(route), route.distance) then 0.1 else 0.0;
    Max(0.3, Min(1.0, 0.7 + shortBonus + turnBonus))
  }

  /** Inverted min/max scaling: the smallest value of the batch maps to 1 and the
      largest to 0; a batch where all values agree maps everything to 0.5. */
  function Normalize(value: real, min: real, max: real): (r: real)
    ensures max == min ==> r == 0.5
    ensures min < max && min <= value <= max ==> 0.0 <= r <= 1.0
    ensures min != max && value == min ==> r == 1.0
    ensures min != max && value == max ==> r == 0.0
  {
    if max == min then 0.5 else (max - value) / (max - min)
  }

  /** Away from a tie the score is the share of the batch's span that lies above
      the value: `(max - value) / (max - min)`. */
  lemma NormalizeAffine(value: real, min: real, max: real)
    requires min != max
    ensures Normalize(value, min, max) * (max - min) == max - value
  {
  }

  /** The value halfway between the batch extremes scores one half. */
  lemma NormalizeMidpoint(min: real, max: real)
    requires min < max
    ensures Normalize((min + max) / 2.0, min, max) == 0.5
  {
    var span := max - min;
    assert max - (min + max) / 2.0 == span / 2.0;
    assert (span / 2.0) / span == 0.5;
  }

  /** Within a batch, a larger raw value never normalises to a higher score. */
  lemma NormalizeAntitone(v1: real, v2: real, min: real, max: real)
    requires min < max && v1 <= v2
    ensures Normalize(v1, min, max) >= Normalize(v2, min, max)
  {
    var span := max - min;
    assert (max - v1) / span - (max - v2) / span == (v2 - v1) / span;
  }

  /** `Math.min(...xs)` for a non-empty list. */
  function MinOf(xs: seq<real>): (m: real)
    requires |xs| > 0
    ensures m in xs
    ensures forall x :: x in xs ==> m <= x
  {
    if |xs| == 1 then xs[0]
    else
      var rest := MinOf(xs[1..]);
      assert forall x :: x in xs ==> x == xs[0] || x in xs[1..];
      Min(xs[0], rest)
  }

  /** `Math.max(...xs)` for a non-empty list. */
  function MaxOf(xs: seq<real>): (m: real)
    requires |xs| > 0
    ensures m in xs
    ensures forall x :: x in xs ==> x <= m
  {
    if |xs| == 1 then xs[0]
    else
      var rest := MaxOf(xs[1..]);
      assert forall x :: x in xs ==> x == xs[0] || x in xs[1..];
      Max(xs[0], rest)
  }

  function Distances(routes: seq<Route>): (ds: seq<real>)
    ensures |ds| == |routes|
    ensures forall i :: 0 <= i < |routes| ==> ds[i] == routes[i].distance
  {
    seq(|routes|, i requires 0 <= i < |routes| => routes[i].distance)
  }

  function Durations(routes: seq<Route>): (ds: seq<real>)
    ensures |ds| == |routes|
    ensures forall i :: 0 <= i < |routes| ==> ds[i] == routes[i].duration
  {
    seq(|routes|, i requires 0 <= i < |routes| => routes[i].duration)
  }

  /** Scores `route` against the min/max of `batch` with the default weights
      overridden by `prefs`. The total is always the weighted sum of the
      breakdown, so it cannot drift from its components. */
  function ScoreRoute(route: Route, batch: seq<Route>, prefs: Preferences, clock: Clock): (s: Score)
    requires |batch| > 0
    ensures s.totalScore == WeightedTotal(s.breakdown, MergeWeights(DefaultWeights, prefs))
    ensures s.breakdown.pedestrianTraffic == PedestrianTrafficScore(route, clock)
    ensures s.breakdown.pathQuality == PathQualityScore(route, clock.hour)
    ensures s.breakdown.accessibility == AccessibilityScore(route)
    ensures s.breakdown.distance == Normalize(route.distance, MinOf(Distances(batch)), MaxOf(Distances(batch)))
    ensures s.breakdown.duration == Normalize(route.duration, MinOf(Durations(batch)), MaxOf(Durations(batch)))
    ensures 0.4 <= s.breakdown.pedestrianTraffic <= 1.0
    ensures 0.3 <= s.breakdown.pathQuality <= 1.0
    ensures 0.7 <= s.breakdown.accessibility <= 1.0
    ensures route in batch ==> 0.0 <= s.breakdown.distance <= 1.0 && 0.0 <= s.breakdown.duration <= 1.0
    ensures (forall x :: x in batch ==> x.distance == route.distance) ==> s.breakdown.distance == 0.5
    ensures (forall x :: x in batch ==> x.duration == route.duration) ==> s.breakdown.duration == 0.5
    ensures route in batch && (forall x :: x in batch ==> route.distance <= x.distance)
            && (exists x :: x in batch && x.distance != route.distance)
            ==> s.breakdown.distance == 1.0
    ensures route in batch && (forall x :: x in batch ==> x.distance <= route.distance)
            && (exists x :: x in batch && x.distance != route.distance)
            ==> s.breakdown.distance == 0.0
    ensures route in batch && (forall x :: x in batch ==> route.duration <= x.duration)
            && (exists x :: x in batch && x.duration != route.duration)
            ==> s.breakdown.duration == 1.0
    ensures route in batch && (forall x :: x in batch ==> x.duration <= route.duration)
            && (exists x :: x in batch && x.duration != route.duration)
            ==> s.breakdown.duration == 0.0
  {
    var ds := Distances(batch);
    var ts := Durations(batch);
    var minDistance := MinOf(ds);
    var maxDistance := MaxOf(ds);
    var minDuration := MinOf(ts);
    var maxDuration := MaxOf(ts);
    BatchExtremes(route, batch);
    var b := Breakdown(
      Normalize(route.distance, minDistance, maxDistance),
      Normalize(route.duration, minDuration, maxDuration),
      PedestrianTrafficScore(route, clock),
      PathQualityScore(route, clock.hour),
      AccessibilityScore(route));
    Score(WeightedTotal(b, MergeWeights(DefaultWeights, prefs)), b)
  }

  /** Facts about the batch extremes that `ScoreRoute` relies on. */
  lemma BatchExtremes(route: Route, batch: seq<Route>)
    requires |batch| > 0
    ensures route in batch ==>
              MinOf(Distances(batch)) <= route.distance <= MaxOf(Distances(batch))
              && MinOf(Durations(batch)) <= route.duration <= MaxOf(Durations(batch))
    ensures (forall x :: x in batch ==> x.distance == route.distance) ==>
              MinOf(Distances(batch)) == MaxOf(Distances(batch))
    ensures (forall x :: x in batch ==> x.duration == route.duration) ==>
              MinOf(Durations(batch)) == MaxOf(Durations(batch))
    ensures route in batch && (exists x :: x in batch && x.distance != route.distance) ==>
              MinOf(Distances(batch)) != MaxOf(Distances(batch))
    ensures route in batch && (exists x :: x in batch && x.duration != route.duration) ==>
              MinOf(Durations(batch)) != MaxOf(Durations(batch))
  {
    if route in batch {
      MemberWithinExtremes(route, batch);
    }
    if forall x :: x in batch ==> x.distance == route.distance {
      UniformExtremes(Distances(batch), route.distance);
    }
    if forall x :: x in batch ==> x.duration == route.duration {
      UniformExtremes(Durations(batch), route.duration);
    }
    if route in batch && exists x :: x in batch && x.distance != route.distance {
      var x :| x in batch && x.distance != route.distance;
      MemberWithinExtremes(route, batch);
      MemberWithinExtremes(x, batch);
    }
    if route in batch && exists x :: x in batch && x.duration != route.duration {
      var x :| x in batch && x.duration != route.duration;
      MemberWithinExtremes(route, batch);
      MemberWithinExtremes(x, batch);
    }
  }

  /** Within one batch, a shorter route never scores lower on distance and a
      quicker one never scores lower on duration: both are scaled inverted. */
  lemma ScoreRouteMonotone(r1: Route, r2: Route, batch: seq<Route>, prefs: Preferences, clock: Clock)
    requires r1 in batch && r2 in batch
    ensures r1.distance <= r2.distance ==>
              ScoreRoute(r1, batch, prefs, clock).breakdown.distance
              >= ScoreRoute(r2, batch, prefs, clock).breakdown.distance
    ensures r1.duration <= r2.duration ==>
              ScoreRoute(r1, batch, prefs, clock).breakdown.duration
              >= ScoreRoute(r2, batch, prefs, clock).breakdown.duration
  {
    var minDistance, maxDistance := MinOf(Distances(batch)), MaxOf(Distances(batch));
    var minDuration, maxDuration := MinOf(Durations(batch)), MaxOf(Durations(batch));
    MemberWithinExtremes(r1, batch);
    MemberWithinExtremes(r2, batch);
    if r1.distance <= r2.distance && minDistance < maxDistance {
      NormalizeAntitone(r1.distance, r2.distance, minDistance, maxDistance);
    }
    if r1.duration <= r2.duration && minDuration < maxDuration {
      NormalizeAntitone(r1.duration, r2.duration, minDuration, maxDuration);
    }
  }

  lemma MemberWithinExtremes(route: Route, batch: seq<Route>)
    requires route in batch
    ensures MinOf(Distances(batch)) <= route.distance <= MaxOf(Distances(batch))
    ensures MinOf(Durations(batch)) <= route.duration <= MaxOf(Durations(batch))
  {
    var ds := Distances(batch);
    var ts := Durations(batch);
    var i :| 0 <= i < |batch| && batch[i] == route;
    assert ds[i] in ds && ts[i] in ts;
  }

  lemma UniformExtremes(xs: seq<real>, v: real)
    requires |xs| > 0
    requires forall i :: 0 <= i < |xs| ==> xs[i] == v
    ensures MinOf(xs) == v == MaxOf(xs)
  {
  }

  /** The breakdown of a route scored against a batch of two, in terms of the
      pair's extremes. */
  lemma ScoreInPair(route: Route, a: Route, b: Route, prefs: Preferences, clock: Clock)
    ensures ScoreRoute(route, [a, b], prefs, clock).breakdown ==
              Breakdown(Normalize(route.distance, Min(a.distance, b.distance), Max(a.distance, b.distance)),
                        Normalize(route.duration, Min(a.duration, b.duration), Max(a.duration, b.duration)),
                        PedestrianTrafficScore(route, clock),
                        PathQualityScore(route, clock.hour),
                        AccessibilityScore(route))
  {
    assert Distances([a, b]) == [a.distance, b.distance];
    assert Durations([a, b]) == [a.duration, b.duration];
    assert [a.distance, b.distance][1..] == [b.distance];
    assert [a.duration, b.duration][1..] == [b.duration];
  }

  /** With valid weights, every component in [0, 1] gives a total in [0, 1]. */
  lemma TotalWithinUnit(b: Breakdown, w: Weights)
    requires WeightsValid(w)
    requires 0.0 <= b.distance <= 1.0 && 0.0 <= b.duration <= 1.0
    requires 0.0 <= b.pedestrianTraffic <= 1.0 && 0.0 <= b.pathQuality <= 1.0
    requires 0.0 <= b.accessibility <= 1.0
    ensures 0.0 <= WeightedTotal(b, w) <= 1.0
  {
  }

  /** A member of its own batch, scored with valid merged weights, has a total in [0, 1]. */
  lemma ScoreWithinUnit(route: Route, batch: seq<Route>, prefs: Preferences, clock: Clock)
    requires route in batch
    requires WeightsValid(MergeWeights(DefaultWeights, prefs))
    ensures 0.0 <= ScoreRoute(route, batch, prefs, clock).totalScore <= 1.0
  {
    var s := ScoreRoute(route, batch, prefs, clock);
    TotalWithinUnit(s.breakdown, MergeWeights(DefaultWeights, prefs));
  }

  /** The baseline table is valid, so scoring with no overrides stays in [0, 1]. */
  lemma DefaultWeightsValid()
    ensures WeightsValid(DefaultWeights)
    ensures WeightsValid(MergeWeights(DefaultWeights, NoPreferences))
  {
  }

  /** Weights used between classes during peak hours: get there fast, avoid crowds. */
  const ClassChangeWeights := Weights(0.20, 0.35, 0.30, 0.10, 0.05)

  /** Weights used at night: lit main paths and easy navigation first. */
  const NightWeights := Weights(0.20, 0.10, 0.05, 0.40, 0.25)

  /** The time-dependent weight table: the class-change rule wins over the night
      rule, and any other time uses the baseline. Every row is a valid weighting,
      and each row puts its largest weight on the concern of its time of day. */
  function TimeBasedPreferences(clock: Clock): (w: Weights)
    ensures WeightsValid(w)
    ensures IsClassChangeTime(clock.minute) && IsPeakHours(clock.hour) ==>
              w == ClassChangeWeights && HeaviestIs(w, w.duration)
    ensures !(IsClassChangeTime(clock.minute) && IsPeakHours(clock.hour))
            && IsNightForWeights(clock.hour) ==>
              w == NightWeights && HeaviestIs(w, w.pathQuality)
    ensures !(IsClassChangeTime(clock.minute) && IsPeakHours(clock.hour))
            && !IsNightForWeights(clock.hour) ==>
              w == DefaultWeights && HeaviestIs(w, w.distance)
  {
    if IsClassChangeTime(clock.minute) && clock.hour >= 8 && clock.hour <= 17 then
      ClassChangeWeights
    else if clock.hour >= 20 || clock.hour <= 6 then
      NightWeights
    else
      DefaultWeights
  }

  /** `top` is at least every weight of `w`. */
  predicate HeaviestIs(w: Weights, top: real)
  {
    top >= w.distance && top >= w.duration && top >= w.pedestrianTraffic
    && top >= w.pathQuality && top >= w.accessibility
  }
}
