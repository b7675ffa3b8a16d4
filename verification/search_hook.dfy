/** The landmark search box as a state machine: the hook's four pieces of state
    and the transitions its handlers perform. */
module SearchHook {
  import opened Optional
  import opened Geo
  import opened Text
  import opened Seqs

  /** A landmark; `kind` is the source's `type` field. */
  datatype Landmark = Landmark(id: string, name: string, coordinates: Point, kind: string,
                               description: Option<string>)

  /** The catalog the app ships with. */
  const Landmarks: seq<Landmark> := [
    Landmark("1", "Main Academic Building", Point(77.4379, 12.8631), "academic", None),
    Landmark("2", "Central Library", Point(77.4385, 12.8638), "library", None),
    Landmark("3", "Student Center & Cafeteria", Point(77.4372, 12.8625), "food", None),
    Landmark("4", "Sports Complex & Gymnasium", Point(77.4390, 12.8645), "sports", None),
    Landmark("5", "Science & Research Block", Point(77.4365, 12.8620), "academic", None),
    Landmark("6", "Administration Building", Point(77.4380, 12.8640), "admin", None),
    Landmark("7", "Computer Science Department", Point(77.4370, 12.8635), "academic", None),
    Landmark("8", "Campus Bookstore", Point(77.4378, 12.8633), "shopping", None)
  ]

  /** A landmark's `id`. */
  function LandmarkId(l: Landmark): string
  {
    l.id
  }

  /** No two landmarks of the shipped catalog share an id. */
  lemma LandmarkIdsDistinct()
    ensures DistinctBy(Landmarks, LandmarkId)
  {
  }

  datatype SearchState = SearchState(query: string, results: seq<Landmark>, showResults: bool, focused: bool)

  /** The hook's initial state. */
  const Initial := SearchState("", [], false, false)

  /** The filter condition: name, a non-empty description, or type contains the query,
      ignoring case. */
  predicate LandmarkMatches(l: Landmark, query: string)
  {
    || ContainsIgnoringCase(l.name, query)
    || (l.description.Some? && l.description.value != "" && ContainsIgnoringCase(l.description.value, query))
    || ContainsIgnoringCase(l.kind, query)
  }

  /** `handleSearch`: records the query; a non-empty query shows the matching
      landmarks in catalog order, the empty query hides and empties the list. */
  function HandleSearch(s: SearchState, catalog: seq<Landmark>, query: string): (t: SearchState)
    ensures t.query == query
    ensures t.focused == s.focused
    ensures |query| == 0 ==> t.results == [] && !t.showResults
    ensures |query| > 0 ==>
              && t.showResults
              && (forall l :: l in t.results <==> l in catalog && LandmarkMatches(l, query))
              && Subseq(t.results, catalog)
              && (forall l :: LandmarkMatches(l, query) ==> multiset(t.results)[l] == multiset(catalog)[l])
  {
    if |query| > 0 then
      var matches := (l: Landmark) => LandmarkMatches(l, query);
      FilterIsSubseq(catalog, matches);
      SearchState(query, Filter(catalog, matches), true, s.focused)
    else
      SearchState(query, [], false, s.focused)
  }

  /** Queries that differ only in case find the same landmarks. */
  lemma SearchIgnoresCase(s: SearchState, catalog: seq<Landmark>, q1: string, q2: string)
    requires SameIgnoringCase(q1, q2)
    ensures HandleSearch(s, catalog, q1).results == HandleSearch(s, catalog, q2).results
  {
    assert |q1| == |Lower(q1)| == |q2|;
    if |q1| > 0 {
      FilterCongruent(catalog, (l: Landmark) => LandmarkMatches(l, q1), (l: Landmark) => LandmarkMatches(l, q2));
    }
  }

  /** Every landmark with a non-empty name is found by searching for that name. */
  lemma FoundByOwnName(s: SearchState, catalog: seq<Landmark>, l: Landmark)
    requires l in catalog && |l.name| > 0
    ensures l in HandleSearch(s, catalog, l.name).results
  {
    assert Contains(Lower(l.name), Lower(l.name));
  }

  /** `clearSearch`: back to the initial state, whatever came before. */
  function ClearSearch(s: SearchState): (t: SearchState)
    ensures t == Initial
    ensures t.query == "" && t.results == [] && !t.showResults && !t.focused
  {
    SearchState("", [], false, false)
  }

  /** Clearing forgets a search completely. */
  lemma ClearForgetsSearch(s: SearchState, catalog: seq<Landmark>, query: string)
    ensures ClearSearch(HandleSearch(s, catalog, query)) == ClearSearch(s)
  {
  }

  /** `handleSelectResult`: the query becomes the chosen name and the list and the
      focus are dropped; the results themselves stay. */
  function SelectResult(s: SearchState, chosen: Landmark): (t: SearchState)
    ensures t.query == chosen.name
    ensures !t.showResults && !t.focused
    ensures t.results == s.results
  {
    s.(query := chosen.name, showResults := false, focused := false)
  }

  /** Picking a listed result puts its name in the box; searching that name again
      lists the result once more. */
  lemma SelectedResultIsFoundAgain(s: SearchState, catalog: seq<Landmark>, query: string, chosen: Landmark)
    requires chosen in HandleSearch(s, catalog, query).results && |chosen.name| > 0
    ensures var t := SelectResult(HandleSearch(s, catalog, query), chosen);
            && !t.showResults
            && chosen in HandleSearch(t, catalog, t.query).results
  {
    FoundByOwnName(s, catalog, chosen);
  }

  /** `showAllLocations`: the full catalog, shown. */
  function ShowAllLocations(s: SearchState, catalog: seq<Landmark>): (t: SearchState)
    ensures t.results == catalog && t.showResults
    ensures t.query == s.query && t.focused == s.focused
  {
    s.(results := catalog, showResults := true)
  }

  /** Every search result is among the locations the full listing shows. */
  lemma SearchNarrowsFullListing(s: SearchState, catalog: seq<Landmark>, query: string)
    ensures forall l :: l in HandleSearch(s, catalog, query).results ==> l in ShowAllLocations(s, catalog).results
  {
  }

  /** `setIsSearchFocused`. */
  function SetFocused(s: SearchState, focused: bool): (t: SearchState)
    ensures t.focused == focused
    ensures t.query == s.query && t.results == s.results && t.showResults == s.showResults
  {
    s.(focused := focused)
  }

  /** Searching the shipped catalog lists each landmark at most once. */
  lemma ShippedSearchHasDistinctIds(s: SearchState, query: string)
    ensures DistinctBy(HandleSearch(s, Landmarks, query).results, LandmarkId)
  {
    LandmarkIdsDistinct();
    if |query| > 0 {
      SubseqDistinct(HandleSearch(s, Landmarks, query).results, Landmarks, LandmarkId);
    }
  }
}
