/** Route calculation for display: argument coercion, coordinate validation, the
    straight-line fallback route and the mapping of a directions-provider reply.
    The HTTP request itself is replaced by its outcome, passed in as a parameter. */
module NavigationUtils {
  import opened Optional
  import opened JsValues
  import opened Geo

  /** The array literal `[0, 0]`. */
  const ZeroPair := Array([Number(Finite(0.0)), Number(Finite(0.0))])

  /** The JavaScript array `[lon, lat]` for a point. */
  function PairOf(p: Point): JsValue
  {
    Array([Number(Finite(p.lon)), Number(Finite(p.lat))])
  }

  /** `isValidCoordinate`: an array of exactly two numbers, neither NaN. No range
      check is made. Valid values are exactly the encodings of points. */
  function IsValidCoordinate(v: JsValue): (ok: bool)
    ensures ok <==> exists p :: v == PairOf(p)
  {
    ValidPairIsPoint(v);
    && v.Array? && |v.items| == 2
    && v.items[0].Number? && v.items[1].Number?
    && v.items[0].n.Finite? && v.items[1].n.Finite?
  }

  /** A two-element array of non-NaN numbers is the array form of a point. */
  lemma ValidPairIsPoint(v: JsValue)
    ensures && v.Array? && |v.items| == 2
            && v.items[0].Number? && v.items[1].Number?
            && v.items[0].n.Finite? && v.items[1].n.Finite?
            ==> v == PairOf(Point(v.items[0].n.value, v.items[1].n.value))
  {
    if v.Array? && |v.items| == 2 {
      assert v.items == [v.items[0], v.items[1]];
    }
  }

  /** The point a validated coordinate denotes, `[0, 0]` for anything else. */
  function SafePoint(v: JsValue): (p: Point)
    ensures IsValidCoordinate(v) ==> PairOf(p) == v
    ensures !IsValidCoordinate(v) ==> p == NullIsland
  {
    if IsValidCoordinate(v) then Point(v.items[0].n.value, v.items[1].n.value) else NullIsland
  }

  /** Reading a point back from its array form is the identity. */
  lemma SafePointOfPair(p: Point)
    ensures IsValidCoordinate(PairOf(p)) && SafePoint(PairOf(p)) == p
  {
  }

  /** How `calculateRoute` reads an endpoint argument: an array of length two is
      taken as it is, an object whose `coordinates` is such an array gives that
      array, and anything else becomes `[0, 0]`. The contents are not inspected. */
  function CoerceEndpoint(v: JsValue): (c: JsValue)
    ensures c.Array? && |c.items| == 2
    ensures c == v || (v.Object? && v.coordinates == Some(c)) || c == ZeroPair
    ensures v.Array? && |v.items| == 2 ==> c == v
    ensures !v.Array? && !v.Object? ==> c == ZeroPair
    ensures v.Array? && |v.items| != 2 ==> c == ZeroPair
    ensures WrapsPair(v) ==> c == v.coordinates.value
    ensures v.Object? && !WrapsPair(v) ==> c == ZeroPair
  {
    if v.Array? then
      if |v.items| == 2 then v else ZeroPair
    else if WrapsPair(v) then
      v.coordinates.value
    else
      ZeroPair
  }

  /** An object whose `coordinates` is an array of length two. */
  predicate WrapsPair(v: JsValue)
  {
    v.Object? && v.coordinates.Some? && v.coordinates.value.Array? && |v.coordinates.value.items| == 2
  }

  /** Coercing twice is coercing once: the result is already an endpoint pair. */
  lemma CoerceIdempotent(v: JsValue)
    ensures CoerceEndpoint(CoerceEndpoint(v)) == CoerceEndpoint(v)
  {
  }

  /** A point reaches the route calculation unchanged whether it is passed as its
      array or wrapped in an object's `coordinates`. */
  lemma CoercedPointRoundTrip(p: Point)
    ensures SafePoint(CoerceEndpoint(PairOf(p))) == p
    ensures SafePoint(CoerceEndpoint(Object(Some(PairOf(p))))) == p
  {
    SafePointOfPair(p);
  }

  /** The display form of a route: kilometres, whole minutes and the polyline. */
  datatype RouteResult = RouteResult(distanceKm: real, durationMinutes: int, coordinates: seq<Point>)

  /** `Math.ceil` on an ordinary number. */
  function Ceil(x: real): (n: int)
    ensures n as real >= x
    ensures (n - 1) as real < x
  {
    -((-x).Floor)
  }

  /** `Math.max(1, Math.ceil(km / 5 * 60))`: the whole minutes a 5 km/h walk of
      `km` takes, and at least one. */
  function WalkingMinutes(km: real): (m: int)
    ensures m >= 1
    ensures m as real >= km / 5.0 * 60.0
    ensures m > 1 ==> (m - 1) as real < km / 5.0 * 60.0
  {
    var c := Ceil(km / 5.0 * 60.0);
    if c >= 1 then c else 1
  }

  /** 86 m at 5 km/h is 1.032 minutes, which rounds up to 2. */
  lemma ShortWalkRoundsUp()
    ensures WalkingMinutes(0.086) == 2
  {
  }

  /** `getFallbackRoute`: invalid endpoints are replaced by `[0, 0]`; identical
      endpoints give a zero route; otherwise the straight-line distance and the
      walking time at 5 km/h. The polyline is always the two safe endpoints. */
  function FallbackRoute(origin: JsValue, destination: JsValue, distance: DistanceKm): (r: RouteResult)
    ensures r.coordinates == [SafePoint(origin), SafePoint(destination)]
    ensures SafePoint(origin) == SafePoint(destination) ==>
              r.distanceKm == 0.0 && r.durationMinutes == 0
    ensures SafePoint(origin) != SafePoint(destination) ==>
              && r.distanceKm == distance(SafePoint(origin), SafePoint(destination))
              && r.durationMinutes >= 1
              && r.durationMinutes == WalkingMinutes(r.distanceKm)
  {
    var from := SafePoint(origin);
    var to := SafePoint(destination);
    if from == to then
      RouteResult(0.0, 0, [from, to])
    else
      var km := distance(from, to);
      RouteResult(km, WalkingMinutes(km), [from, to])
  }

  /** Two malformed endpoints both become `[0, 0]`, so the fallback is an empty
      route however different the inputs were. */
  lemma MalformedEndpointsGiveEmptyRoute(origin: JsValue, destination: JsValue, distance: DistanceKm)
    requires !IsValidCoordinate(origin) && !IsValidCoordinate(destination)
    ensures FallbackRoute(origin, destination, distance) == RouteResult(0.0, 0, [NullIsland, NullIsland])
  {
  }

  /** One route of a directions reply; each field may be missing. */
  datatype ProviderRoute = ProviderRoute(
    distance: Option<real>,
    duration: Option<real>,
    geometry: Option<seq<Point>>)

  /** The outcome of the directions request: a transport or HTTP failure, or a
      parsed body whose `routes` may be missing. */
  datatype Response = Failed | Received(routes: Option<seq<ProviderRoute>>)

  /** The first reply route for display: metres to kilometres, seconds rounded up
      to whole minutes, missing or zero values read as zero, and a missing
      geometry replaced by the straight segment between the endpoints. */
  function MapProviderRoute(route: ProviderRoute, from: Point, to: Point): (r: RouteResult)
    ensures (route.distance.None? || route.distance == Some(0.0)) ==> r.distanceKm == 0.0
    ensures route.distance.Some? ==> r.distanceKm * 1000.0 == route.distance.value
    ensures (route.duration.None? || route.duration == Some(0.0)) ==> r.durationMinutes == 0
    ensures route.duration.Some? && route.duration.value != 0.0 ==>
              && (r.durationMinutes * 60) as real >= route.duration.value
              && ((r.durationMinutes - 1) * 60) as real < route.duration.value
    ensures route.geometry.None? ==> r.coordinates == [from, to]
    ensures route.geometry.Some? ==> r.coordinates == route.geometry.value
  {
    var km := if route.distance.Some? && route.distance.value != 0.0 then route.distance.value / 1000.0 else 0.0;
    var minutes := if route.duration.Some? && route.duration.value != 0.0 then Ceil(route.duration.value / 60.0) else 0;
    RouteResult(km, minutes, route.geometry.GetOr([from, to]))
  }

  /** `calculateRoute` with the access token's presence and the provider's reply as
      parameters, so the configuration is assumed present. Every failure path
      after the token read ends in the fallback route. */
  function CalculateRoute(origin: JsValue, destination: JsValue, hasToken: bool,
                          response: Response, distance: DistanceKm): (r: RouteResult)
    ensures origin in {Undefined, Null} || destination in {Undefined, Null} ==>
              r == RouteResult(0.0, 0, [NullIsland, NullIsland])
    ensures !(origin in {Undefined, Null} || destination in {Undefined, Null})
            && (!hasToken || response.Failed? || !Usable(response)
                || !IsValidCoordinate(CoerceEndpoint(origin))
                || !IsValidCoordinate(CoerceEndpoint(destination))) ==>
              r == FallbackRoute(CoerceEndpoint(origin), CoerceEndpoint(destination), distance)
    ensures !(origin in {Undefined, Null} || destination in {Undefined, Null})
            && hasToken && Usable(response)
            && IsValidCoordinate(CoerceEndpoint(origin))
            && IsValidCoordinate(CoerceEndpoint(destination)) ==>
              r == MapProviderRoute(response.routes.value[0],
                                    SafePoint(CoerceEndpoint(origin)),
                                    SafePoint(CoerceEndpoint(destination)))
  {
    if origin == Undefined || origin == Null || destination == Undefined || destination == Null then
      FallbackRoute(ZeroPair, ZeroPair, distance)
    else
      var from := CoerceEndpoint(origin);
      var to := CoerceEndpoint(destination);
      if !hasToken then
        FallbackRoute(from, to, distance)
      else if !IsValidCoordinate(from) || !IsValidCoordinate(to) then
        FallbackRoute(from, to, distance)
      else if !Usable(response) then
        FallbackRoute(from, to, distance)
      else
        MapProviderRoute(response.routes.value[0], SafePoint(from), SafePoint(to))
  }

  /** `data.routes && data.routes[0]`: a reply with at least one route. */
  predicate Usable(response: Response)
  {
    response.Received? && response.routes.Some? && |response.routes.value| > 0
  }
}
