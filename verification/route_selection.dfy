/** Selection of the best route: every candidate is scored against the whole
    batch, the scored list is sorted by descending total with a stable sort, and
    the head is the winner while the rest are the ranked alternatives. */
module RouteSelection {
  import opened Optional
  import opened CampusTime
  import opened RouteScoring

  datatype Scored = Scored(route: Route, score: Score)

  /** The winner, its score, and the remaining candidates best first. */
  datatype Selection = Selection(route: Route, score: Score, alternatives: seq<Scored>)

  /** Every candidate paired with its score against the whole batch, in input order. */
  function ScoreAll(routes: seq<Route>, prefs: Preferences, clock: Clock): (r: seq<Scored>)
    requires |routes| > 0
    ensures |r| == |routes|
    ensures forall i :: 0 <= i < |routes| ==>
              r[i].route == routes[i] && r[i].score == ScoreRoute(routes[i], routes, prefs, clock)
  {
    seq(|routes|, i requires 0 <= i < |routes| =>
      Scored(routes[i], ScoreRoute(routes[i], routes, prefs, clock)))
  }

  function Totals(xs: seq<Scored>): (ks: seq<real>)
    ensures |ks| == |xs|
    ensures forall i :: 0 <= i < |xs| ==> ks[i] == xs[i].score.totalScore
  {
    seq(|xs|, i requires 0 <= i < |xs| => xs[i].score.totalScore)
  }

  /** The order a stable descending sort by `keys` produces on positions: `i` goes
      before `j` when its key is larger, or the keys tie and `i` came first.
      This is the order `Array.prototype.sort` (stable since ECMAScript 2019)
      yields for the comparator `(a, b) => b - a`. */
  predicate Before(keys: seq<real>, i: nat, j: nat)
  {
    i < |keys| && j < |keys| && (keys[i] > keys[j] || (keys[i] == keys[j] && i < j))
  }

  predicate SortedBy(keys: seq<real>, order: seq<nat>)
  {
    forall p, q :: 0 <= p < q < |order| ==> Before(keys, order[p], order[q])
  }

  predicate InRange(n: nat, order: seq<nat>)
  {
    forall p :: 0 <= p < |order| ==> order[p] < n
  }

  predicate Distinct(order: seq<nat>)
  {
    forall p, q :: 0 <= p < q < |order| ==> order[p] != order[q]
  }

  lemma BeforeTransitive(keys: seq<real>, i: nat, j: nat, k: nat)
    requires Before(keys, i, j) && Before(keys, j, k)
    ensures Before(keys, i, k)
  {
  }

  /** Prepending a position that goes before every element keeps a list sorted. */
  lemma ConsSorted(keys: seq<real>, h: nat, t: seq<nat>)
    requires SortedBy(keys, t)
    requires forall q :: 0 <= q < |t| ==> Before(keys, h, t[q])
    ensures SortedBy(keys, [h] + t)
  {
    var r := [h] + t;
    forall p, q | 0 <= p < q < |r|
      ensures Before(keys, r[p], r[q])
    {
      if p > 0 {
        assert r[p] == t[p - 1] && r[q] == t[q - 1];
      } else {
        assert r[q] == t[q - 1];
      }
    }
  }

  /** Places position `x` into the sorted `t`. */
  function Insert(keys: seq<real>, x: nat, t: seq<nat>): (r: seq<nat>)
    requires x < |keys| && InRange(|keys|, t) && SortedBy(keys, t) && x !in t
    ensures multiset(r) == multiset(t) + multiset{x}
    ensures |r| == |t| + 1
    ensures InRange(|keys|, r)
    ensures SortedBy(keys, r)
    decreases |t|
  {
    if |t| == 0 || Before(keys, x, t[0]) then
      InsertAtHead(keys, x, t);
      [x] + t
    else
      assert t == [t[0]] + t[1..];
      var rest := Insert(keys, x, t[1..]);
      InsertBehindHead(keys, x, t, rest);
      [t[0]] + rest
  }

  lemma InsertAtHead(keys: seq<real>, x: nat, t: seq<nat>)
    requires x < |keys| && SortedBy(keys, t)
    requires |t| == 0 || Before(keys, x, t[0])
    ensures SortedBy(keys, [x] + t)
  {
    forall q | 0 <= q < |t|
      ensures Before(keys, x, t[q])
    {
      if q > 0 {
        BeforeTransitive(keys, x, t[0], t[q]);
      }
    }
    ConsSorted(keys, x, t);
  }

  lemma InsertBehindHead(keys: seq<real>, x: nat, t: seq<nat>, rest: seq<nat>)
    requires x < |keys| && |t| > 0 && t[0] < |keys| && SortedBy(keys, t) && x != t[0]
    requires !Before(keys, x, t[0])
    requires SortedBy(keys, rest)
    requires multiset(rest) == multiset(t[1..]) + multiset{x}
    ensures SortedBy(keys, [t[0]] + rest)
  {
    forall q | 0 <= q < |rest|
      ensures Before(keys, t[0], rest[q])
    {
      assert rest[q] in multiset(rest);
      if rest[q] != x {
        assert rest[q] in t[1..];
        var k :| 0 <= k < |t[1..]| && t[1..][k] == rest[q];
        assert t[k + 1] == rest[q];
      }
    }
    ConsSorted(keys, t[0], rest);
  }

  /** Insertion sort of the positions `s` by `Before`. */
  function SortPositions(keys: seq<real>, s: seq<nat>): (r: seq<nat>)
    requires InRange(|keys|, s) && Distinct(s)
    ensures multiset(r) == multiset(s)
    ensures |r| == |s|
    ensures InRange(|keys|, r)
    ensures SortedBy(keys, r)
  {
    if |s| == 0 then []
    else
      assert s == [s[0]] + s[1..];
      var t := SortPositions(keys, s[1..]);
      assert s[0] !in multiset(s[1..]);
      Insert(keys, s[0], t)
  }

  /** The positions 0 .. n-1 in order. */
  function Range(n: nat): (r: seq<nat>)
    ensures |r| == n
    ensures forall p :: 0 <= p < n ==> r[p] == p
  {
    seq(n, i requires 0 <= i < n => i)
  }

  /** The elements of `xs` at the positions `order`. */
  function Apply<T>(xs: seq<T>, order: seq<nat>): (r: seq<T>)
    requires InRange(|xs|, order)
    ensures |r| == |order|
    ensures forall p :: 0 <= p < |order| ==> r[p] == xs[order[p]]
  {
    if |order| == 0 then [] else [xs[order[0]]] + Apply(xs, order[1..])
  }

  /** Inserting a position adds exactly that position's element. */
  lemma {:induction false} ApplyInsert<T>(xs: seq<T>, keys: seq<real>, x: nat, t: seq<nat>)
    requires |xs| == |keys|
    requires x < |keys| && InRange(|keys|, t) && SortedBy(keys, t) && x !in t
    ensures multiset(Apply(xs, Insert(keys, x, t))) == multiset(Apply(xs, t)) + multiset{xs[x]}
    decreases |t|
  {
    if |t| == 0 || Before(keys, x, t[0]) {
      assert Insert(keys, x, t) == [x] + t;
      assert Apply(xs, [x] + t) == [xs[x]] + Apply(xs, t);
    } else {
      ApplyInsert(xs, keys, x, t[1..]);
      var rest := Insert(keys, x, t[1..]);
      assert Insert(keys, x, t) == [t[0]] + rest;
      assert Apply(xs, [t[0]] + rest) == [xs[t[0]]] + Apply(xs, rest);
      assert Apply(xs, t) == [xs[t[0]]] + Apply(xs, t[1..]);
    }
  }

  /** Sorting the positions permutes the elements they pick. */
  lemma {:induction false} ApplySort<T>(xs: seq<T>, keys: seq<real>, s: seq<nat>)
    requires |xs| == |keys|
    requires InRange(|keys|, s) && Distinct(s)
    ensures multiset(Apply(xs, SortPositions(keys, s))) == multiset(Apply(xs, s))
  {
    if |s| > 0 {
      assert s == [s[0]] + s[1..];
      assert s[0] !in multiset(s[1..]);
      var t := SortPositions(keys, s[1..]);
      ApplySort(xs, keys, s[1..]);
      ApplyInsert(xs, keys, s[0], t);
      assert Apply(xs, s) == [xs[s[0]]] + Apply(xs, s[1..]);
    }
  }

  /** The sorted positions of a scored batch: a permutation of 0 .. n-1. */
  function RankOrder(scored: seq<Scored>): (order: seq<nat>)
    ensures |order| == |scored|
    ensures multiset(order) == multiset(Range(|scored|))
    ensures InRange(|scored|, order)
    ensures SortedBy(Totals(scored), order)
  {
    SortPositions(Totals(scored), Range(|scored|))
  }

  /** The scored batch, best first, equal totals in input order. */
  function Ranked(scored: seq<Scored>): (r: seq<Scored>)
    ensures |r| == |scored|
    ensures forall p, q :: 0 <= p < q < |r| ==> r[p].score.totalScore >= r[q].score.totalScore
    ensures forall x :: x in r ==> x in scored
  {
    var order := RankOrder(scored);
    var r := Apply(scored, order);
    assert forall p, q :: 0 <= p < q < |r| ==> Before(Totals(scored), order[p], order[q]);
    r
  }

  /** The head of the ranking is at least every scored candidate. */
  lemma HeadIsMaximal(scored: seq<Scored>)
    requires |scored| > 0
    ensures forall k :: 0 <= k < |scored| ==>
              scored[k].score.totalScore <= Ranked(scored)[0].score.totalScore
  {
    var order := RankOrder(scored);
    forall k | 0 <= k < |scored|
      ensures scored[k].score.totalScore <= Ranked(scored)[0].score.totalScore
    {
      assert Range(|scored|)[k] == k;
      assert k in multiset(Range(|scored|));
      assert k in multiset(order);
      var p :| 0 <= p < |order| && order[p] == k;
      if p > 0 {
        assert Before(Totals(scored), order[0], order[p]);
      }
    }
  }

  /** `sel` is a correct answer for the batch `rs`: the winner and every
      alternative are candidates paired with their own scores, there is one
      alternative per other candidate, the winner scores at least as much as every
      candidate, and the alternatives are in descending order of score. */
  ghost predicate IsSelectionOf(sel: Selection, rs: seq<Route>, prefs: Preferences, clock: Clock)
  {
    && |rs| > 0
    && |sel.alternatives| == |rs| - 1
    && sel.route in rs
    && Scored(sel.route, sel.score) in ScoreAll(rs, prefs, clock)
    && (forall a :: a in sel.alternatives ==> a.route in rs && a in ScoreAll(rs, prefs, clock))
    && (forall a :: a in sel.alternatives ==> a.score.totalScore <= sel.score.totalScore)
    && (forall p, q :: 0 <= p < q < |sel.alternatives| ==>
          sel.alternatives[p].score.totalScore >= sel.alternatives[q].score.totalScore)
    && (forall x :: x in rs ==> ScoreRoute(x, rs, prefs, clock).totalScore <= sel.score.totalScore)
  }

  /** `selectBestRoute`: no selection for a missing or empty list; otherwise the
      highest-scoring candidate wins and the others follow in descending order. */
  function SelectBestRoute(routes: Option<seq<Route>>, prefs: Preferences, clock: Clock): (r: Option<Selection>)
    ensures r.None? <==> routes.None? || |routes.value| == 0
    ensures r.Some? ==> IsSelectionOf(r.value, routes.value, prefs, clock)
    ensures r.Some? && |routes.value| == 1 ==>
              && r.value.route == routes.value[0]
              && r.value.alternatives == []
              && r.value.score.breakdown.distance == 0.5
              && r.value.score.breakdown.duration == 0.5
  {
    if routes.None? || |routes.value| == 0 then None
    else if |routes.value| == 1 then Some(SoleSelection(routes.value, prefs, clock))
    else Some(RankedSelection(routes.value, prefs, clock))
  }

  /** A single candidate is selected with no alternatives; it is both the
      shortest and the longest, so its distance and duration scores are 0.5. */
  function SoleSelection(rs: seq<Route>, prefs: Preferences, clock: Clock): (sel: Selection)
    requires |rs| == 1
    ensures IsSelectionOf(sel, rs, prefs, clock)
    ensures sel.route == rs[0] && sel.alternatives == []
    ensures sel.score.breakdown.distance == 0.5 && sel.score.breakdown.duration == 0.5
  {
    assert forall x :: x in rs ==> x == rs[0];
    assert ScoreAll(rs, prefs, clock)[0] == Scored(rs[0], ScoreRoute(rs[0], rs, prefs, clock));
    Selection(rs[0], ScoreRoute(rs[0], rs, prefs, clock), [])
  }

  /** Several candidates: the head of the ranking wins, the rest are the alternatives. */
  function RankedSelection(rs: seq<Route>, prefs: Preferences, clock: Clock): (sel: Selection)
    requires |rs| > 1
    ensures IsSelectionOf(sel, rs, prefs, clock)
  {
    var ranked := Ranked(ScoreAll(rs, prefs, clock));
    RankingFacts(rs, prefs, clock);
    RankedTail(ScoreAll(rs, prefs, clock));
    Selection(ranked[0].route, ranked[0].score, ranked[1..])
  }

  /** The tail of a ranking is itself in descending order and below its head. */
  lemma RankedTail(scored: seq<Scored>)
    requires |scored| > 1
    ensures var ranked := Ranked(scored);
            && (forall a :: a in ranked[1..] ==> a.score.totalScore <= ranked[0].score.totalScore)
            && (forall p, q :: 0 <= p < q < |ranked[1..]| ==>
                  ranked[1..][p].score.totalScore >= ranked[1..][q].score.totalScore)
  {
    var ranked := Ranked(scored);
    forall a | a in ranked[1..]
      ensures a.score.totalScore <= ranked[0].score.totalScore
    {
      var k :| 0 <= k < |ranked[1..]| && ranked[1..][k] == a;
      assert ranked[k + 1] == a;
    }
  }

  /** What the multi-candidate branch of `SelectBestRoute` needs about the ranking. */
  lemma RankingFacts(rs: seq<Route>, prefs: Preferences, clock: Clock)
    requires |rs| > 0
    ensures forall x :: x in rs ==>
              ScoreRoute(x, rs, prefs, clock).totalScore
              <= Ranked(ScoreAll(rs, prefs, clock))[0].score.totalScore
    ensures var ranked := Ranked(ScoreAll(rs, prefs, clock));
            && ranked[0].route in rs
            && ranked[0] in ScoreAll(rs, prefs, clock)
            && forall y :: y in ranked[1..] ==> y.route in rs && y in ScoreAll(rs, prefs, clock)
  {
    var scored := ScoreAll(rs, prefs, clock);
    HeadIsMaximal(scored);
    forall x | x in rs
      ensures ScoreRoute(x, rs, prefs, clock).totalScore <= Ranked(scored)[0].score.totalScore
    {
      var i :| 0 <= i < |rs| && rs[i] == x;
      assert scored[i].score == ScoreRoute(x, rs, prefs, clock);
    }
    var ranked := Ranked(scored);
    ScoredRoutesInBatch(rs, scored, ranked);
    assert ranked[0] in ranked;
    assert forall y :: y in ranked[1..] ==> y in ranked;
  }

  lemma ScoredRoutesInBatch(rs: seq<Route>, scored: seq<Scored>, sub: seq<Scored>)
    requires |scored| == |rs|
    requires forall i :: 0 <= i < |rs| ==> scored[i].route == rs[i]
    requires forall x :: x in sub ==> x in scored
    ensures forall y :: y in sub ==> y.route in rs
  {
    forall y | y in sub
      ensures y.route in rs
    {
      var k :| 0 <= k < |scored| && scored[k] == y;
      assert rs[k] == y.route;
    }
  }

  /** The routes of a scored list, in order. */
  function RoutesOf(xs: seq<Scored>): (rs: seq<Route>)
    ensures |rs| == |xs|
    ensures forall i :: 0 <= i < |xs| ==> rs[i] == xs[i].route
  {
    seq(|xs|, i requires 0 <= i < |xs| => xs[i].route)
  }

  /** The ranking is the stable sort of the scored batch: it is the batch read at
      the permuted positions `RankOrder`, so it is a permutation of the batch, and
      candidates with equal totals keep their input order. */
  lemma RankedIsStablePermutation(scored: seq<Scored>)
    ensures forall p :: 0 <= p < |scored| ==> Ranked(scored)[p] == scored[RankOrder(scored)[p]]
    ensures multiset(Ranked(scored)) == multiset(scored)
    ensures forall p, q ::
              (0 <= p < q < |scored|
               && Ranked(scored)[p].score.totalScore == Ranked(scored)[q].score.totalScore)
              ==> RankOrder(scored)[p] < RankOrder(scored)[q]
  {
    RankedAt(scored);
    RankedIsPermutation(scored);
    RankedIsStable(scored);
  }

  lemma RankedAt(scored: seq<Scored>)
    ensures forall p :: 0 <= p < |scored| ==> Ranked(scored)[p] == scored[RankOrder(scored)[p]]
  {
  }

  lemma RankedIsPermutation(scored: seq<Scored>)
    ensures multiset(Ranked(scored)) == multiset(scored)
  {
    var n := |scored|;
    ApplySort(scored, Totals(scored), Range(n));
    assert Apply(scored, Range(n)) == scored;
  }

  lemma RankedIsStable(scored: seq<Scored>)
    ensures forall p, q ::
              (0 <= p < q < |scored|
               && Ranked(scored)[p].score.totalScore == Ranked(scored)[q].score.totalScore)
              ==> RankOrder(scored)[p] < RankOrder(scored)[q]
  {
    var keys := Totals(scored);
    var order := RankOrder(scored);
    RankedAt(scored);
    forall p, q | 0 <= p < q < |scored|
      && Ranked(scored)[p].score.totalScore == Ranked(scored)[q].score.totalScore
      ensures order[p] < order[q]
    {
      assert Before(keys, order[p], order[q]);
    }
  }

  /** The winner followed by the alternatives is exactly the ranking of the batch,
      in the single-candidate branch as well. */
  lemma SelectionIsRanking(rs: seq<Route>, prefs: Preferences, clock: Clock)
    requires |rs| > 0
    ensures var sel := SelectBestRoute(Some(rs), prefs, clock).value;
            [Scored(sel.route, sel.score)] + sel.alternatives == Ranked(ScoreAll(rs, prefs, clock))
  {
    if |rs| == 1 {
      SoleSelectionIsRanking(rs, prefs, clock);
    } else {
      RankedSelectionIsRanking(rs, prefs, clock);
    }
  }

  lemma RankedSelectionIsRanking(rs: seq<Route>, prefs: Preferences, clock: Clock)
    requires |rs| > 1
    ensures var sel := RankedSelection(rs, prefs, clock);
            [Scored(sel.route, sel.score)] + sel.alternatives == Ranked(ScoreAll(rs, prefs, clock))
  {
    var ranked := Ranked(ScoreAll(rs, prefs, clock));
    assert ranked == [ranked[0]] + ranked[1..];
  }

  lemma SoleSelectionIsRanking(rs: seq<Route>, prefs: Preferences, clock: Clock)
    requires |rs| == 1
    ensures var sel := SoleSelection(rs, prefs, clock);
            [Scored(sel.route, sel.score)] + sel.alternatives == Ranked(ScoreAll(rs, prefs, clock))
  {
    var scored := ScoreAll(rs, prefs, clock);
    RankedIsStablePermutation(scored);
    assert RankOrder(scored) == [0];
  }

  /** The routes of the ranking are those of the batch, permuted by `RankOrder`. */
  lemma RoutesOfRanked(rs: seq<Route>, scored: seq<Scored>)
    requires |scored| == |rs|
    requires forall i :: 0 <= i < |rs| ==> scored[i].route == rs[i]
    ensures forall p :: 0 <= p < |rs| ==> Ranked(scored)[p].route == rs[RankOrder(scored)[p]]
    ensures multiset(RoutesOf(Ranked(scored))) == multiset(rs)
  {
    var order := RankOrder(scored);
    RankedIsStablePermutation(scored);
    assert RoutesOf(Ranked(scored)) == Apply(rs, order);
    ApplySort(rs, Totals(scored), Range(|rs|));
    assert Apply(rs, Range(|rs|)) == rs;
  }

  /** `selectBestRoute` returns a stable permutation of its input: every candidate
      appears exactly as often as it was given, each output position names the
      input position it came from, and equal totals keep their input order. */
  lemma SelectionIsStablePermutation(rs: seq<Route>, prefs: Preferences, clock: Clock)
    requires |rs| > 0
    ensures var sel := SelectBestRoute(Some(rs), prefs, clock).value;
            var all := [Scored(sel.route, sel.score)] + sel.alternatives;
            var order := RankOrder(ScoreAll(rs, prefs, clock));
            && multiset(order) == multiset(Range(|rs|))
            && multiset(RoutesOf(all)) == multiset(rs)
            && multiset(all) == multiset(ScoreAll(rs, prefs, clock))
            && (forall p :: 0 <= p < |all| ==> all[p].route == rs[order[p]])
            && (forall p, q ::
                  (0 <= p < q < |all| && all[p].score.totalScore == all[q].score.totalScore)
                  ==> order[p] < order[q])
  {
    var scored := ScoreAll(rs, prefs, clock);
    SelectionIsRanking(rs, prefs, clock);
    RankedIsStablePermutation(scored);
    RoutesOfRanked(rs, scored);
  }

  /** Of two candidates, the one with the strictly higher total wins and the
      other is the only alternative. */
  lemma StrictWinnerOfTwo(a: Route, b: Route, prefs: Preferences, clock: Clock)
    requires ScoreRoute(b, [a, b], prefs, clock).totalScore < ScoreRoute(a, [a, b], prefs, clock).totalScore
    ensures var sel := SelectBestRoute(Some([a, b]), prefs, clock).value;
            && sel.route == a
            && sel.score == ScoreRoute(a, [a, b], prefs, clock)
            && sel.alternatives == [Scored(b, ScoreRoute(b, [a, b], prefs, clock))]
  {
    var rs := [a, b];
    var sa := Scored(a, ScoreRoute(a, rs, prefs, clock));
    var sb := Scored(b, ScoreRoute(b, rs, prefs, clock));
    ScoreAllPair(a, b, prefs, clock);
    RankedSelectionOfPair(rs, prefs, clock, sa, sb);
    SelectBestIsRankedSelection(rs, prefs, clock);
  }

  lemma ScoreAllPair(a: Route, b: Route, prefs: Preferences, clock: Clock)
    ensures ScoreAll([a, b], prefs, clock)
            == [Scored(a, ScoreRoute(a, [a, b], prefs, clock)), Scored(b, ScoreRoute(b, [a, b], prefs, clock))]
  {
    var rs := [a, b];
    var scored := ScoreAll(rs, prefs, clock);
    assert scored[0] == Scored(rs[0], ScoreRoute(rs[0], rs, prefs, clock));
    assert scored[1] == Scored(rs[1], ScoreRoute(rs[1], rs, prefs, clock));
  }

  lemma RankedSelectionOfPair(rs: seq<Route>, prefs: Preferences, clock: Clock, x: Scored, y: Scored)
    requires |rs| == 2 && ScoreAll(rs, prefs, clock) == [x, y]
    requires y.score.totalScore < x.score.totalScore
    ensures RankedSelection(rs, prefs, clock) == Selection(x.route, x.score, [y])
  {
    RankedPair(x, y);
    assert Ranked([x, y])[1..] == [y];
  }

  lemma SelectBestIsRankedSelection(rs: seq<Route>, prefs: Preferences, clock: Clock)
    requires |rs| > 1
    ensures SelectBestRoute(Some(rs), prefs, clock) == Some(RankedSelection(rs, prefs, clock))
  {
  }

  /** Ranking two scored candidates with different totals puts the higher first. */
  lemma RankedPair(x: Scored, y: Scored)
    requires y.score.totalScore < x.score.totalScore
    ensures Ranked([x, y]) == [x, y]
  {
    RankedIsStablePermutation([x, y]);
    OrderedPair(x, y, Ranked([x, y]));
  }

  /** A descending arrangement of two scored candidates with different totals
      puts the higher one first. */
  lemma OrderedPair(x: Scored, y: Scored, ranked: seq<Scored>)
    requires y.score.totalScore < x.score.totalScore
    requires multiset(ranked) == multiset([x, y])
    requires |ranked| == 2 && ranked[0].score.totalScore >= ranked[1].score.totalScore
    ensures ranked == [x, y]
  {
    assert ranked[0] in multiset(ranked) && ranked[1] in multiset(ranked);
    assert x in multiset(ranked) && y in multiset(ranked);
    assert ranked == [ranked[0], ranked[1]];
  }

  /** Two candidates at 10:10 with the baseline weights: the shorter one wins
      0.62 to 0.555 although the other is faster. */
  lemma ShorterRouteWinsScenario()
    ensures var a := Route(400.0, 300.0, Some([Leg(Some(2))]));
            var b := Route(800.0, 250.0, Some([Leg(Some(10))]));
            var r := SelectBestRoute(Some([a, b]), NoPreferences, Clock(10, 10));
            && r.Some?
            && r.value.route == a
            && r.value.score.totalScore == 0.62
            && r.value.alternatives == [Scored(b, ScoreRoute(b, [a, b], NoPreferences, Clock(10, 10)))]
            && r.value.alternatives[0].score.totalScore == 0.555
  {
    ScenarioScores();
    StrictWinnerOfTwo(Route(400.0, 300.0, Some([Leg(Some(2))])), Route(800.0, 250.0, Some([Leg(Some(10))])),
                      NoPreferences, Clock(10, 10));
  }

  /** The two scenario totals. */
  lemma ScenarioScores()
    ensures var a := Route(400.0, 300.0, Some([Leg(Some(2))]));
            var b := Route(800.0, 250.0, Some([Leg(Some(10))]));
            && ScoreRoute(a, [a, b], NoPreferences, Clock(10, 10)).totalScore == 0.62
            && ScoreRoute(b, [a, b], NoPreferences, Clock(10, 10)).totalScore == 0.555
  {
    ScenarioShorterScore();
    ScenarioFasterScore();
  }

  /** The shorter route: best on distance, worst on duration. */
  lemma ScenarioShorterScore()
    ensures var a := Route(400.0, 300.0, Some([Leg(Some(2))]));
            var b := Route(800.0, 250.0, Some([Leg(Some(10))]));
            var s := ScoreRoute(a, [a, b], NoPreferences, Clock(10, 10));
            s.breakdown == Breakdown(1.0, 0.0, 0.8, 0.6, 0.7) && s.totalScore == 0.62
  {
    var a := Route(400.0, 300.0, Some([Leg(Some(2))]));
    var b := Route(800.0, 250.0, Some([Leg(Some(10))]));
    ScoreInPair(a, a, b, NoPreferences, Clock(10, 10));
  }

  /** The faster route: best on duration, worst on distance. */
  lemma ScenarioFasterScore()
    ensures var a := Route(400.0, 300.0, Some([Leg(Some(2))]));
            var b := Route(800.0, 250.0, Some([Leg(Some(10))]));
            var s := ScoreRoute(b, [a, b], NoPreferences, Clock(10, 10));
            s.breakdown == Breakdown(0.0, 1.0, 0.8, 0.5, 0.7) && s.totalScore == 0.555
  {
    var a := Route(400.0, 300.0, Some([Leg(Some(2))]));
    var b := Route(800.0, 250.0, Some([Leg(Some(10))]));
    ScoreInPair(b, a, b, NoPreferences, Clock(10, 10));
  }
}
