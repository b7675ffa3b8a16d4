/** The static campus building directory and its three queries: by type, by a
    case-insensitive text match, and by distance from the user. */
module CampusBuildings {
  import opened Optional
  import opened Geo
  import opened Text
  import opened Seqs

  /** One building; `kind` is the source's `type` field. */
  datatype Building = Building(
    id: string,
    name: string,
    kind: string,
    coordinates: Point,
    facilities: seq<string>,
    openHours: string,
    floors: nat,
    hasElevator: bool,
    hasRamp: bool)

  /** Map styling for a building type. */
  datatype TypeStyle = TypeStyle(icon: string, color: string)

  const Buildings: seq<Building> := [
    Building("library", "Main Library", "academic", Point(77.4375, 12.8632),
             ["Study Rooms", "Computer Lab", "Printing", "WiFi"], "8:00 AM - 10:00 PM", 4, true, true),
    Building("engineering", "Engineering Building", "academic", Point(77.4380, 12.8628),
             ["Labs", "Classrooms", "Workshop"], "7:00 AM - 8:00 PM", 5, true, true),
    Building("cafeteria", "Student Cafeteria", "dining", Point(77.4372, 12.8635),
             ["Food Court", "Seating", "ATM"], "7:00 AM - 9:00 PM", 2, false, true),
    Building("admin", "Administration Building", "administrative", Point(77.4385, 12.8630),
             ["Admissions", "Accounts", "Records"], "9:00 AM - 5:00 PM", 3, true, true),
    Building("sports", "Sports Complex", "recreation", Point(77.4368, 12.8625),
             ["Gym", "Courts", "Track", "Pool"], "6:00 AM - 9:00 PM", 2, false, true),
    Building("hostel-a", "Hostel Block A", "residential", Point(77.4390, 12.8638),
             ["Rooms", "Common Room", "Laundry"], "24/7", 4, true, true),
    Building("medical", "Medical Center", "health", Point(77.4378, 12.8633),
             ["Clinic", "Pharmacy", "Emergency"], "24/7", 1, false, true),
    Building("auditorium", "Main Auditorium", "event", Point(77.4382, 12.8627),
             ["Hall", "Stage", "Green Room"], "Event Based", 2, true, true)
  ]

  const BuildingTypes: map<string, TypeStyle> := map[
    "academic" := TypeStyle("school", "#4285F4"),
    "dining" := TypeStyle("restaurant", "#EA4335"),
    "administrative" := TypeStyle("business", "#FBBC04"),
    "recreation" := TypeStyle("fitness", "#34A853"),
    "residential" := TypeStyle("home", "#9C27B0"),
    "health" := TypeStyle("medical", "#E91E63"),
    "event" := TypeStyle("calendar", "#FF9800")
  ]

  /** Every building of the shipped directory has a styled type. */
  lemma DirectoryTypesStyled()
    ensures forall i :: 0 <= i < |Buildings| ==> Buildings[i].kind in BuildingTypes
  {
  }

  /** A building's `id`, the key the directory is meant to be unique on. */
  function BuildingId(b: Building): string
  {
    b.id
  }

  /** No two buildings of the shipped directory share an id. */
  lemma BuildingIdsDistinct()
    ensures DistinctBy(Buildings, BuildingId)
  {
  }

  /** `getBuildingsByType`: exactly the buildings of that type, in directory
      order and with their multiplicity; the app passes `Buildings`. */
  function BuildingsByType(directory: seq<Building>, kind: string): (r: seq<Building>)
    ensures forall b :: b in r <==> b in directory && b.kind == kind
    ensures Subseq(r, directory)
    ensures forall b: Building :: b.kind == kind ==> multiset(r)[b] == multiset(directory)[b]
  {
    var ofKind := (b: Building) => b.kind == kind;
    FilterIsSubseq(directory, ofKind);
    Filter(directory, ofKind)
  }

  /** The search condition: the lower-cased query occurs in the lower-cased name, type
      or one of the facilities. */
  predicate MatchesQuery(b: Building, query: string)
  {
    || ContainsIgnoringCase(b.name, query)
    || ContainsIgnoringCase(b.kind, query)
    || exists f :: f in b.facilities && ContainsIgnoringCase(f, query)
  }

  /** `searchBuildings`: the matching buildings, in directory order. */
  function SearchBuildings(directory: seq<Building>, query: string): (r: seq<Building>)
    ensures forall b :: b in r <==> b in directory && MatchesQuery(b, query)
    ensures Subseq(r, directory)
    ensures forall b :: MatchesQuery(b, query) ==> multiset(r)[b] == multiset(directory)[b]
  {
    var lowerQuery := Lower(query);
    var matches := (b: Building) =>
      || Contains(Lower(b.name), lowerQuery)
      || Contains(Lower(b.kind), lowerQuery)
      || exists f :: f in b.facilities && Contains(Lower(f), lowerQuery);
    FilterIsSubseq(directory, matches);
    Filter(directory, matches)
  }

  /** Re-casing the query does not change the result. */
  lemma SearchIgnoresCase(directory: seq<Building>, q1: string, q2: string)
    requires SameIgnoringCase(q1, q2)
    ensures SearchBuildings(directory, q1) == SearchBuildings(directory, q2)
  {
  }

  /** Searching for a query and for its lower-case form gives the same list. */
  lemma SearchLowerCaseQuery(directory: seq<Building>, query: string)
    ensures SearchBuildings(directory, Lower(query)) == SearchBuildings(directory, query)
  {
    LowerIdempotent(query);
  }

  /** The empty query matches every building. */
  lemma EmptySearchListsAll(directory: seq<Building>)
    ensures SearchBuildings(directory, "") == directory
  {
    var matches := (b: Building) =>
      || Contains(Lower(b.name), Lower(""))
      || Contains(Lower(b.kind), Lower(""))
      || exists f :: f in b.facilities && Contains(Lower(f), Lower(""));
    FilterAll(directory, matches);
  }

  /** The radius used when the caller passes none. */
  const DefaultRadiusKm: real := 0.5

  /** `getNearbyBuildings`: the buildings within the radius (0.5 km when omitted)
      of the user, in directory order; the app passes `Buildings`. */
  function NearbyBuildings(directory: seq<Building>, user: Point, radiusKm: Option<real>,
                           distance: DistanceKm): (r: seq<Building>)
    ensures forall b :: b in r <==>
              b in directory && distance(user, b.coordinates) <= radiusKm.GetOr(DefaultRadiusKm)
    ensures radiusKm.None? ==>
              forall b :: b in r <==> b in directory && distance(user, b.coordinates) <= 0.5
    ensures Subseq(r, directory)
    ensures forall b: Building :: distance(user, b.coordinates) <= radiusKm.GetOr(DefaultRadiusKm) ==>
              multiset(r)[b] == multiset(directory)[b]
  {
    var radius := radiusKm.GetOr(DefaultRadiusKm);
    var near := (b: Building) => distance(user, b.coordinates) <= radius;
    FilterIsSubseq(directory, near);
    Filter(directory, near)
  }

  /** A wider radius keeps every building a narrower one found. */
  lemma NearbyMonotone(directory: seq<Building>, user: Point, r1: real, r2: real, distance: DistanceKm)
    requires r1 <= r2
    ensures forall b :: b in NearbyBuildings(directory, user, Some(r1), distance) ==>
              b in NearbyBuildings(directory, user, Some(r2), distance)
  {
  }

  /** Every query on the shipped directory lists each building at most once:
      the ids of its result are distinct. */
  lemma ShippedQueriesHaveDistinctIds(kind: string, query: string, user: Point, radiusKm: Option<real>,
                                      distance: DistanceKm)
    ensures DistinctBy(BuildingsByType(Buildings, kind), BuildingId)
    ensures DistinctBy(SearchBuildings(Buildings, query), BuildingId)
    ensures DistinctBy(NearbyBuildings(Buildings, user, radiusKm, distance), BuildingId)
  {
    BuildingIdsDistinct();
    SubseqDistinct(BuildingsByType(Buildings, kind), Buildings, BuildingId);
    SubseqDistinct(SearchBuildings(Buildings, query), Buildings, BuildingId);
    SubseqDistinct(NearbyBuildings(Buildings, user, radiusKm, distance), Buildings, BuildingId);
  }
}
