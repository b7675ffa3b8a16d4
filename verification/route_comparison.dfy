/** Head-to-head comparison of two routes and the one-line reason shown for the
    recommendation. The reason lookup as written reads breakdown keys that the
    scorer never produces; those read as `undefined`, their differences are NaN,
    and NaN never wins a `>` comparison. `DetermineMainReason` models that lookup
    and `CompareRoutes` uses it; `IntendedMainReason` is the lookup over the real
    keys, used by `CompareRoutesIntended`. */
module RouteComparison {
  import opened Optional
  import opened CampusTime
  import opened RouteScoring
  import opened JsValues

  /** The value slot of the reduce accumulator, which starts at -Infinity. */
  datatype Bound = NegInfinity | Value(value: real)

  /** Reading `breakdown[key]`: the five component keys exist, anything else is undefined. */
  function Field(b: Breakdown, key: string): (r: Option<real>)
    ensures r.Some? <==> key in {"distance", "duration", "pedestrianTraffic", "pathQuality", "accessibility"}
  {
    if key == "distance" then Some(b.distance)
    else if key == "duration" then Some(b.duration)
    else if key == "pedestrianTraffic" then Some(b.pedestrianTraffic)
    else if key == "pathQuality" then Some(b.pathQuality)
    else if key == "accessibility" then Some(b.accessibility)
    else None
  }

  /** `a - b` on possibly undefined operands: NaN unless both are numbers. */
  function Minus(a: Option<real>, b: Option<real>): Num
  {
    if a.Some? && b.Some? then Finite(a.value - b.value) else NaN
  }

  /** The keys of the `differences` object as written, in insertion order. */
  const DifferenceKeys: seq<string> := ["traffic", "duration", "safety", "roadQuality", "distance"]

  /** The keys the breakdown actually has, in the order of the reasons table. */
  const BreakdownKeys: seq<string> := ["pedestrianTraffic", "duration", "pathQuality", "accessibility", "distance"]

  /** `Object.entries(differences)` for a differences object built over `keys`. */
  function Differences(keys: seq<string>, better: Breakdown, worse: Breakdown): (ds: seq<(string, Num)>)
    ensures |ds| == |keys|
    ensures forall i :: 0 <= i < |ds| ==>
              ds[i] == (keys[i], Minus(Field(better, keys[i]), Field(worse, keys[i])))
  {
    seq(|keys|, i requires 0 <= i < |keys| =>
      (keys[i], Minus(Field(better, keys[i]), Field(worse, keys[i]))))
  }

  /** `value > max.value`, which is false whenever `value` is NaN. */
  predicate Exceeds(v: Num, b: Bound)
  {
    v.Finite? && (b.NegInfinity? || v.value > b.value)
  }

  /** Entry `i` has the greatest number of `entries`, and no earlier entry ties it. */
  ghost predicate FirstGreatest(entries: seq<(string, Num)>, i: int)
  {
    && 0 <= i < |entries|
    && entries[i].1.Finite?
    && (forall j :: 0 <= j < |entries| && entries[j].1.Finite? ==> entries[j].1.value <= entries[i].1.value)
    && (forall j :: 0 <= j < i && entries[j].1.Finite? ==> entries[j].1.value < entries[i].1.value)
  }

  /** The `reduce` over the entries, from `{ key: '', value: -Infinity }`: it keeps
      the first entry with the greatest number and ignores NaN. */
  function MaxEntry(entries: seq<(string, Num)>): (r: (string, Bound))
    ensures r.1.NegInfinity? <==> forall j :: 0 <= j < |entries| ==> entries[j].1.NaN?
    ensures r.1.NegInfinity? ==> r.0 == ""
    ensures r.1.Value? ==>
              exists i :: FirstGreatest(entries, i) && r == (entries[i].0, Value(entries[i].1.value))
    decreases |entries|
  {
    if |entries| == 0 then ("", NegInfinity)
    else
      var init := entries[..|entries| - 1];
      var acc := MaxEntry(init);
      var last := entries[|entries| - 1];
      assert forall j :: 0 <= j < |init| ==> init[j] == entries[j];
      if Exceeds(last.1, acc.1) then
        assert FirstGreatest(entries, |entries| - 1);
        (last.0, Value(last.1.value))
      else
        KeepEarlierGreatest(entries, acc);
        acc
  }

  /** When the last entry does not exceed the accumulator of the earlier ones,
      the earlier first-greatest entry stays first-greatest. */
  lemma KeepEarlierGreatest(entries: seq<(string, Num)>, acc: (string, Bound))
    requires |entries| > 0
    requires !Exceeds(entries[|entries| - 1].1, acc.1)
    requires acc.1.Value? ==>
               exists i :: FirstGreatest(entries[..|entries| - 1], i)
                           && acc == (entries[i].0, Value(entries[i].1.value))
    ensures acc.1.Value? ==>
              exists i :: FirstGreatest(entries, i) && acc == (entries[i].0, Value(entries[i].1.value))
  {
    if acc.1.Value? {
      var init := entries[..|entries| - 1];
      var i :| FirstGreatest(init, i) && acc == (entries[i].0, Value(entries[i].1.value));
      assert forall j :: 0 <= j < |init| ==> init[j] == entries[j];
      assert FirstGreatest(entries, i);
    }
  }

  /** The sentence shown for each breakdown key. */
  function ReasonFor(key: string): string
  {
    if key == "pedestrianTraffic" then "less crowded path"
    else if key == "duration" then "faster walking time"
    else if key == "pathQuality" then "better path conditions (paved/lit)"
    else if key == "accessibility" then "easier navigation"
    else if key == "distance" then "shorter walking distance"
    else "overall better conditions"
  }

  /** `determineMainReason`: only the duration and distance differences are numbers,
      so the reason is the distance one exactly when the distance advantage is
      strictly larger, and the duration one otherwise (the earlier key wins ties). */
  function DetermineMainReason(better: Breakdown, worse: Breakdown): (r: string)
    ensures r == "shorter walking distance" <==>
              better.distance - worse.distance > better.duration - worse.duration
    ensures r == "faster walking time" <==>
              better.distance - worse.distance <= better.duration - worse.duration
  {
    MainKey(better, worse);
    ReasonFor(MaxEntry(Differences(DifferenceKeys, better, worse)).0)
  }

  /** Of the five differences only duration (second) and distance (last) are numbers. */
  lemma MainKey(better: Breakdown, worse: Breakdown)
    ensures MaxEntry(Differences(DifferenceKeys, better, worse)).0 ==
              if better.distance - worse.distance > better.duration - worse.duration
              then "distance" else "duration"
  {
    var ds := Differences(DifferenceKeys, better, worse);
    assert ds[1] == ("duration", Finite(better.duration - worse.duration));
    assert ds[4] == ("distance", Finite(better.distance - worse.distance));
    assert ds[0].1.NaN? && ds[2].1.NaN? && ds[3].1.NaN?;
    var best := MaxEntry(ds);
    var i :| FirstGreatest(ds, i) && best == (ds[i].0, Value(ds[i].1.value));
    assert i == 1 || i == 4;
  }

  /** How much `better` gains over `worse` on one component. */
  function Gain(better: Breakdown, worse: Breakdown, key: string): real
    requires key in BreakdownKeys
  {
    Field(better, key).value - Field(worse, key).value
  }

  /** The reason lookup over the breakdown's real keys: the reason of the first
      component (in the reasons-table order) with the greatest gain. */
  function IntendedMainReason(better: Breakdown, worse: Breakdown): (r: string)
    ensures exists i :: && 0 <= i < |BreakdownKeys|
                        && r == ReasonFor(BreakdownKeys[i])
                        && (forall j :: 0 <= j < |BreakdownKeys| ==>
                              Gain(better, worse, BreakdownKeys[j]) <= Gain(better, worse, BreakdownKeys[i]))
                        && (forall j :: 0 <= j < i ==>
                              Gain(better, worse, BreakdownKeys[j]) < Gain(better, worse, BreakdownKeys[i]))
    ensures r != "overall better conditions"
  {
    IntendedKeyIsFirstGreatest(better, worse);
    BreakdownKeysHaveReasons();
    ReasonFor(MaxEntry(Differences(BreakdownKeys, better, worse)).0)
  }

  /** Each real key has a sentence of its own. */
  lemma BreakdownKeysHaveReasons()
    ensures forall i :: 0 <= i < |BreakdownKeys| ==> ReasonFor(BreakdownKeys[i]) != "overall better conditions"
  {
  }

  /** Every difference over the real keys is a number, so the reduce lands on the
      first key with the greatest gain. */
  lemma IntendedKeyIsFirstGreatest(better: Breakdown, worse: Breakdown)
    ensures exists i :: && 0 <= i < |BreakdownKeys|
                        && MaxEntry(Differences(BreakdownKeys, better, worse)).0 == BreakdownKeys[i]
                        && (forall j :: 0 <= j < |BreakdownKeys| ==>
                              Gain(better, worse, BreakdownKeys[j]) <= Gain(better, worse, BreakdownKeys[i]))
                        && (forall j :: 0 <= j < i ==>
                              Gain(better, worse, BreakdownKeys[j]) < Gain(better, worse, BreakdownKeys[i]))
  {
    var ds := Differences(BreakdownKeys, better, worse);
    assert forall j :: 0 <= j < |ds| ==> ds[j].1 == Finite(Gain(better, worse, BreakdownKeys[j]));
    var best := MaxEntry(ds);
    var i :| FirstGreatest(ds, i) && best == (ds[i].0, Value(ds[i].1.value));
    assert best.0 == BreakdownKeys[i];
  }

  /** A component whose gain beats every other component's is the one named. */
  lemma IntendedReasonNamesDominantGain(better: Breakdown, worse: Breakdown, k: nat)
    requires k < |BreakdownKeys|
    requires forall j :: 0 <= j < |BreakdownKeys| && j != k ==>
               Gain(better, worse, BreakdownKeys[j]) < Gain(better, worse, BreakdownKeys[k])
    ensures IntendedMainReason(better, worse) == ReasonFor(BreakdownKeys[k])
  {
    var r := IntendedMainReason(better, worse);
    var i :| && 0 <= i < |BreakdownKeys|
             && r == ReasonFor(BreakdownKeys[i])
             && (forall j :: 0 <= j < |BreakdownKeys| ==>
                   Gain(better, worse, BreakdownKeys[j]) <= Gain(better, worse, BreakdownKeys[i]));
    assert i == k;
  }

  /** Two breakdowns that differ mostly in crowding: as written the reason given
      is the walking time, although the crowding gain is twelve times larger. */
  lemma CrowdingAdvantageMisreported()
    ensures var better := Breakdown(0.5, 0.55, 1.0, 0.7, 0.8);
            var worse := Breakdown(0.5, 0.5, 0.4, 0.7, 0.8);
            && DetermineMainReason(better, worse) == "faster walking time"
            && IntendedMainReason(better, worse) == "less crowded path"
  {
    var better := Breakdown(0.5, 0.55, 1.0, 0.7, 0.8);
    var worse := Breakdown(0.5, 0.5, 0.4, 0.7, 0.8);
    IntendedReasonNamesDominantGain(better, worse, 0);
  }

  datatype Choice = Route1 | Route2

  /** `compareRoutes`, with the scores and differences kept as exact numbers. */
  datatype Comparison = Comparison(
    recommendation: Choice,
    reason: string,
    timeDifferenceMinutes: real,
    distanceDifferenceKm: real,
    score1: real,
    score2: real)

  function Abs(x: real): (r: real)
    ensures r >= 0.0 && (r == x || r == -x)
  {
    if x < 0.0 then -x else x
  }

  /** The comparison with the reason sentence chosen by `mainReason` from the
      winner's and the loser's breakdowns. */
  function CompareWith(route1: Route, route2: Route, batch: seq<Route>, clock: Clock,
                       mainReason: (Breakdown, Breakdown) -> string): (c: Comparison)
    requires |batch| > 0
    ensures c.score1 == ScoreRoute(route1, batch, NoPreferences, clock).totalScore
    ensures c.score2 == ScoreRoute(route2, batch, NoPreferences, clock).totalScore
    ensures c.recommendation == Route1 <==> c.score1 > c.score2
    ensures c.recommendation == Route1 ==>
              c.reason == mainReason(ScoreRoute(route1, batch, NoPreferences, clock).breakdown,
                                     ScoreRoute(route2, batch, NoPreferences, clock).breakdown)
    ensures c.recommendation == Route2 ==>
              c.reason == mainReason(ScoreRoute(route2, batch, NoPreferences, clock).breakdown,
                                     ScoreRoute(route1, batch, NoPreferences, clock).breakdown)
    ensures c.timeDifferenceMinutes >= 0.0
    ensures c.timeDifferenceMinutes * 60.0 == Abs(route1.duration - route2.duration)
    ensures c.distanceDifferenceKm >= 0.0
    ensures c.distanceDifferenceKm * 1000.0 == Abs(route1.distance - route2.distance)
  {
    var s1 := ScoreRoute(route1, batch, NoPreferences, clock);
    var s2 := ScoreRoute(route2, batch, NoPreferences, clock);
    var timeDiff := Abs(route1.duration - route2.duration) / 60.0;
    var distDiff := Abs(route1.distance - route2.distance) / 1000.0;
    if s1.totalScore > s2.totalScore then
      Comparison(Route1, mainReason(s1.breakdown, s2.breakdown), timeDiff, distDiff,
                 s1.totalScore, s2.totalScore)
    else
      Comparison(Route2, mainReason(s2.breakdown, s1.breakdown), timeDiff, distDiff,
                 s1.totalScore, s2.totalScore)
  }

  /** `compareRoutes`: scores both routes against `batch` with the baseline weights
      and recommends route 1 only when it scores strictly higher; ties go to
      route 2. The reason is the one the lookup as written gives, so it is always
      the walking-time or the walking-distance sentence. */
  function CompareRoutes(route1: Route, route2: Route, batch: seq<Route>, clock: Clock): (c: Comparison)
    requires |batch| > 0
    ensures c.score1 == ScoreRoute(route1, batch, NoPreferences, clock).totalScore
    ensures c.score2 == ScoreRoute(route2, batch, NoPreferences, clock).totalScore
    ensures c.recommendation == Route1 <==> c.score1 > c.score2
    ensures c.recommendation == Route1 ==>
              c.reason == DetermineMainReason(ScoreRoute(route1, batch, NoPreferences, clock).breakdown,
                                              ScoreRoute(route2, batch, NoPreferences, clock).breakdown)
    ensures c.recommendation == Route2 ==>
              c.reason == DetermineMainReason(ScoreRoute(route2, batch, NoPreferences, clock).breakdown,
                                              ScoreRoute(route1, batch, NoPreferences, clock).breakdown)
    ensures c.reason == "faster walking time" || c.reason == "shorter walking distance"
    ensures c.timeDifferenceMinutes >= 0.0
    ensures c.timeDifferenceMinutes * 60.0 == Abs(route1.duration - route2.duration)
    ensures c.distanceDifferenceKm >= 0.0
    ensures c.distanceDifferenceKm * 1000.0 == Abs(route1.distance - route2.distance)
  {
    CompareWith(route1, route2, batch, clock, DetermineMainReason)
  }

  /** The same comparison with the corrected reason lookup over the breakdown's
      real keys: the reason names the component where the winner gains most, and
      is never the catch-all sentence. */
  function CompareRoutesIntended(route1: Route, route2: Route, batch: seq<Route>, clock: Clock): (c: Comparison)
    requires |batch| > 0
    ensures c.score1 == ScoreRoute(route1, batch, NoPreferences, clock).totalScore
    ensures c.score2 == ScoreRoute(route2, batch, NoPreferences, clock).totalScore
    ensures c.recommendation == Route1 <==> c.score1 > c.score2
    ensures c.recommendation == Route1 ==>
              c.reason == IntendedMainReason(ScoreRoute(route1, batch, NoPreferences, clock).breakdown,
                                             ScoreRoute(route2, batch, NoPreferences, clock).breakdown)
    ensures c.recommendation == Route2 ==>
              c.reason == IntendedMainReason(ScoreRoute(route2, batch, NoPreferences, clock).breakdown,
                                             ScoreRoute(route1, batch, NoPreferences, clock).breakdown)
    ensures c.reason != "overall better conditions"
  {
    CompareWith(route1, route2, batch, clock, IntendedMainReason)
  }

  /** Two routes of equal length and equal walking time at 10:10: the one with no
      turns wins on accessibility alone, yet as written the reason given is the
      walking time, which is the same for both. The corrected lookup names the
      easier navigation. */
  lemma EqualTimesReportedAsFaster()
    ensures var a := Route(400.0, 300.0, Some([Leg(Some(0))]));
            var b := Route(400.0, 300.0, Some([Leg(Some(10))]));
            var c := CompareRoutes(a, b, [a, b], Clock(10, 10));
            var d := CompareRoutesIntended(a, b, [a, b], Clock(10, 10));
            && a.duration == b.duration
            && c.recommendation == Route1 && c.reason == "faster walking time"
            && d.recommendation == Route1 && d.reason == "easier navigation"
  {
    EqualTimesAsWritten();
    EqualTimesIntended();
  }

  /** As written, the equal-times pair is explained by the walking time. */
  lemma EqualTimesAsWritten()
    ensures var a := Route(400.0, 300.0, Some([Leg(Some(0))]));
            var b := Route(400.0, 300.0, Some([Leg(Some(10))]));
            var c := CompareRoutes(a, b, [a, b], Clock(10, 10));
            c.recommendation == Route1 && c.reason == "faster walking time"
  {
    EqualTimesScores();
  }

  /** With the corrected lookup, the equal-times pair is explained by accessibility. */
  lemma EqualTimesIntended()
    ensures var a := Route(400.0, 300.0, Some([Leg(Some(0))]));
            var b := Route(400.0, 300.0, Some([Leg(Some(10))]));
            var d := CompareRoutesIntended(a, b, [a, b], Clock(10, 10));
            d.recommendation == Route1 && d.reason == "easier navigation"
  {
    var a := Route(400.0, 300.0, Some([Leg(Some(0))]));
    var b := Route(400.0, 300.0, Some([Leg(Some(10))]));
    EqualTimesScores();
    IntendedReasonNamesDominantGain(ScoreRoute(a, [a, b], NoPreferences, Clock(10, 10)).breakdown,
                                    ScoreRoute(b, [a, b], NoPreferences, Clock(10, 10)).breakdown, 3);
  }

  /** The two breakdowns and totals of the equal-times pair. */
  lemma EqualTimesScores()
    ensures var a := Route(400.0, 300.0, Some([Leg(Some(0))]));
            var b := Route(400.0, 300.0, Some([Leg(Some(10))]));
            && ScoreRoute(a, [a, b], NoPreferences, Clock(10, 10)).breakdown == Breakdown(0.5, 0.5, 0.8, 0.6, 0.8)
            && ScoreRoute(b, [a, b], NoPreferences, Clock(10, 10)).breakdown == Breakdown(0.5, 0.5, 0.8, 0.6, 0.7)
            && ScoreRoute(a, [a, b], NoPreferences, Clock(10, 10)).totalScore == 0.605
            && ScoreRoute(b, [a, b], NoPreferences, Clock(10, 10)).totalScore == 0.595
  {
    var a := Route(400.0, 300.0, Some([Leg(Some(0))]));
    var b := Route(400.0, 300.0, Some([Leg(Some(10))]));
    ScoreInPair(a, a, b, NoPreferences, Clock(10, 10));
    ScoreInPair(b, a, b, NoPreferences, Clock(10, 10));
  }

  /** Swapping the arguments never makes both calls recommend the same physical
      route unless the scores tie, in which case each call picks its second argument. */
  lemma CompareRoutesSwap(route1: Route, route2: Route, batch: seq<Route>, clock: Clock)
    requires |batch| > 0
    ensures var c := CompareRoutes(route1, route2, batch, clock);
            var d := CompareRoutes(route2, route1, batch, clock);
            (c.recommendation == Route1 ==> d.recommendation == Route2)
            && (c.score1 == c.score2 ==> c.recommendation == Route2 && d.recommendation == Route2)
  {
  }
}
