/** Saved routes, favourite places and recent searches: three JSON lists kept in
    the device's key-value store. The store is a map from key to list; record ids
    and timestamps, which the app takes from the clock, are parameters. */
module SavedRoutes {
  import opened Optional
  import opened Seqs

  /** A stored JSON object with string-valued fields. Object spread is map union:
      later fields replace earlier ones. */
  type Record = map<string, string>

  /** The key-value store, each key holding a parsed JSON array. */
  type Storage = map<string, seq<Record>>

  const SavedRoutesKey: string := "@campus_nav_saved_routes"
  const FavoritePlacesKey: string := "@campus_nav_favorites"
  const RecentSearchesKey: string := "@campus_nav_recent"

  const MaxSavedRoutes: nat := 20
  const MaxRecentSearches: nat := 10

  /** `getItem` followed by `data ? JSON.parse(data) : []`. */
  function Read(store: Storage, key: string): (r: seq<Record>)
    ensures key !in store ==> r == []
    ensures key in store ==> r == store[key]
  {
    if key in store then store[key] else []
  }

  /** `record.id`, undefined when absent. */
  function IdOf(r: Record): Option<string>
  {
    if "id" in r then Some(r["id"]) else None
  }

  /** `record.name`, undefined when absent. */
  function NameOf(r: Record): Option<string>
  {
    if "name" in r then Some(r["name"]) else None
  }

  /** `list.slice(0, n)`. */
  function Take(s: seq<Record>, n: nat): (r: seq<Record>)
    ensures |r| == if |s| <= n then |s| else n
    ensures r == s[..|r|]
  {
    if |s| <= n then s else s[..n]
  }

  /** `{ id: freshId, ...fields, [stampKey]: now }`: the caller's own `id` wins over
      the fresh one, the timestamp wins over the caller's. */
  function Stamp(fields: Record, freshId: string, stampKey: string, now: string): (r: Record)
    ensures IdOf(r) == Some(if stampKey == "id" then now else if "id" in fields then fields["id"] else freshId)
    ensures stampKey in r && r[stampKey] == now
    ensures forall k :: k in fields && k != stampKey ==> k in r && r[k] == fields[k]
    ensures r.Keys == fields.Keys + {"id", stampKey}
  {
    map["id" := freshId] + fields + map[stampKey := now]
  }

  /** `saveRoute`: the new record goes first and the list is cut to its 20 most
      recent entries. Returns the store and the new record. */
  function SaveRoute(store: Storage, route: Record, freshId: string, now: string): (r: (Storage, Record))
    ensures var before := Read(store, SavedRoutesKey);
            var after := Read(r.0, SavedRoutesKey);
            && |after| == (if |before| + 1 <= MaxSavedRoutes then |before| + 1 else MaxSavedRoutes)
            && after[0] == r.1
            && after[1..] == before[..|after| - 1]
    ensures r.1 == Stamp(route, freshId, "savedAt", now)
    ensures forall k :: k != SavedRoutesKey ==> Read(r.0, k) == Read(store, k)
  {
    var newRoute := Stamp(route, freshId, "savedAt", now);
    var before := Read(store, SavedRoutesKey);
    var updated := Take([newRoute] + before, MaxSavedRoutes);
    assert updated[1..] == before[..|updated| - 1];
    (store[SavedRoutesKey := updated], newRoute)
  }

  /** `getSavedRoutes`: the stored list, or the empty list when nothing is stored. */
  function GetSavedRoutes(store: Storage): (r: seq<Record>)
    ensures SavedRoutesKey !in store ==> r == []
    ensures SavedRoutesKey in store ==> r == store[SavedRoutesKey]
  {
    Read(store, SavedRoutesKey)
  }

  /** The records of `list` whose id is not `id`, in order. */
  function WithoutId(list: seq<Record>, id: string): (r: seq<Record>)
    ensures forall x :: x in r ==> IdOf(x) != Some(id)
    ensures forall x :: IdOf(x) != Some(id) ==> multiset(r)[x] == multiset(list)[x]
    ensures |r| <= |list|
  {
    Filter(list, (x: Record) => IdOf(x) != Some(id))
  }

  /** `deleteRoute`: drops exactly the saved routes with that id, keeps every other
      record as often as it was there and in its order, and reports success. */
  function DeleteRoute(store: Storage, routeId: string): (r: (Storage, bool))
    ensures r.1
    ensures Read(r.0, SavedRoutesKey) == WithoutId(Read(store, SavedRoutesKey), routeId)
    ensures forall k :: k != SavedRoutesKey ==> Read(r.0, k) == Read(store, k)
  {
    (store[SavedRoutesKey := WithoutId(Read(store, SavedRoutesKey), routeId)], true)
  }

  /** What `WithoutId` keeps stays in order. */
  lemma WithoutIdPreservesOrder(list: seq<Record>, id: string)
    ensures Subseq(WithoutId(list, id), list)
  {
    FilterIsSubseq(list, (x: Record) => IdOf(x) != Some(id));
  }

  /** After deleting an id no saved route carries it, and every saved route with
      another id is still listed. */
  lemma DeleteThenGone(store: Storage, routeId: string)
    ensures forall x :: x in GetSavedRoutes(DeleteRoute(store, routeId).0) ==> IdOf(x) != Some(routeId)
    ensures forall x :: x in GetSavedRoutes(store) && IdOf(x) != Some(routeId) ==>
              x in GetSavedRoutes(DeleteRoute(store, routeId).0)
  {
    var before := GetSavedRoutes(store);
    forall x | x in before && IdOf(x) != Some(routeId)
      ensures x in GetSavedRoutes(DeleteRoute(store, routeId).0)
    {
      assert multiset(WithoutId(before, routeId))[x] == multiset(before)[x];
    }
  }

  /** `addFavorite`: prepends, with neither a cap nor a duplicate check. */
  function AddFavorite(store: Storage, place: Record, freshId: string, now: string): (r: (Storage, Record))
    ensures Read(r.0, FavoritePlacesKey) == [r.1] + Read(store, FavoritePlacesKey)
    ensures |Read(r.0, FavoritePlacesKey)| == |Read(store, FavoritePlacesKey)| + 1
    ensures r.1 == Stamp(place, freshId, "addedAt", now)
    ensures forall k :: k != FavoritePlacesKey ==> Read(r.0, k) == Read(store, k)
  {
    var newFavorite := Stamp(place, freshId, "addedAt", now);
    (store[FavoritePlacesKey := [newFavorite] + Read(store, FavoritePlacesKey)], newFavorite)
  }

  /** `getFavorites`: the stored list, or the empty list when nothing is stored. */
  function GetFavorites(store: Storage): (r: seq<Record>)
    ensures FavoritePlacesKey !in store ==> r == []
    ensures FavoritePlacesKey in store ==> r == store[FavoritePlacesKey]
  {
    Read(store, FavoritePlacesKey)
  }

  /** `removeFavorite`: drops every favourite with that id. */
  function RemoveFavorite(store: Storage, placeId: string): (r: (Storage, bool))
    ensures r.1
    ensures Read(r.0, FavoritePlacesKey) == WithoutId(Read(store, FavoritePlacesKey), placeId)
    ensures forall k :: k != FavoritePlacesKey ==> Read(r.0, k) == Read(store, k)
  {
    (store[FavoritePlacesKey := WithoutId(Read(store, FavoritePlacesKey), placeId)], true)
  }

  /** `isFavorite`: some favourite carries the id; equivalently, removing that
      id would shorten the favourites list. */
  function IsFavorite(store: Storage, placeId: string): (b: bool)
    ensures b <==> |GetFavorites(RemoveFavorite(store, placeId).0)| < |GetFavorites(store)|
  {
    FilterShorter(Read(store, FavoritePlacesKey), (x: Record) => IdOf(x) != Some(placeId));
    exists f :: f in Read(store, FavoritePlacesKey) && IdOf(f) == Some(placeId)
  }

  /** After removing an id it is no longer a favourite. */
  lemma RemoveThenNotFavorite(store: Storage, placeId: string)
    ensures !IsFavorite(RemoveFavorite(store, placeId).0, placeId)
  {
  }

  /** A freshly added place is a favourite under the id it was stored with. */
  lemma AddThenFavorite(store: Storage, place: Record, freshId: string, now: string)
    ensures var (s, rec) := AddFavorite(store, place, freshId, now);
            IdOf(rec).Some? && IsFavorite(s, IdOf(rec).value)
  {
    var (s, rec) := AddFavorite(store, place, freshId, now);
    assert rec in Read(s, FavoritePlacesKey);
  }

  /** `addRecentSearch`: earlier searches with the same name (both nameless counts
      as the same) are dropped, the search goes first, and ten are kept. */
  function AddRecentSearch(store: Storage, search: Record): (r: (Storage, bool))
    ensures r.1
    ensures var before := Read(store, RecentSearchesKey);
            var after := Read(r.0, RecentSearchesKey);
            var others := OtherSearches(before, search);
            && |after| == (if |others| + 1 <= MaxRecentSearches then |others| + 1 else MaxRecentSearches)
            && after[0] == search
            && after[1..] == others[..|after| - 1]
            && (forall i :: 0 < i < |after| ==> NameOf(after[i]) != NameOf(search))
            && Subseq(after[1..], before)
    ensures forall k :: k != RecentSearchesKey ==> Read(r.0, k) == Read(store, k)
  {
    (store[RecentSearchesKey := RecentList(Read(store, RecentSearchesKey), search)], true)
  }

  /** The earlier searches under another name than `search`: all of them, each
      as often as before, in their old order. */
  function OtherSearches(before: seq<Record>, search: Record): (r: seq<Record>)
    ensures forall x :: x in r <==> x in before && NameOf(x) != NameOf(search)
    ensures forall x :: NameOf(x) != NameOf(search) ==> multiset(r)[x] == multiset(before)[x]
    ensures Subseq(r, before)
  {
    var keep := (x: Record) => NameOf(x) != NameOf(search);
    FilterIsSubseq(before, keep);
    Filter(before, keep)
  }

  /** The new recent-searches list: `search`, then the earlier entries with a
      different name, cut to ten. */
  function RecentList(before: seq<Record>, search: Record): (updated: seq<Record>)
    ensures var others := OtherSearches(before, search);
            && |updated| == (if |others| + 1 <= MaxRecentSearches then |others| + 1 else MaxRecentSearches)
            && updated[1..] == others[..|updated| - 1]
    ensures 0 < |updated| <= MaxRecentSearches
    ensures updated[0] == search
    ensures forall i :: 0 < i < |updated| ==> NameOf(updated[i]) != NameOf(search)
    ensures Subseq(updated[1..], before)
  {
    var others := OtherSearches(before, search);
    var updated := Take([search] + others, MaxRecentSearches);
    TakeAfterPrepend(search, others, MaxRecentSearches);
    RecentTailInOrder(before, others, updated, search);
    updated
  }

  /** Cutting `[x] + s` to `n > 0` entries keeps `x` first and a prefix of `s` behind it. */
  lemma TakeAfterPrepend(x: Record, s: seq<Record>, n: nat)
    requires n > 0
    ensures var t := Take([x] + s, n);
            && |t| == (if |s| + 1 <= n then |s| + 1 else n)
            && t[0] == x
            && t[1..] == s[..|t| - 1]
  {
    var t := Take([x] + s, n);
    assert t[1..] == ([x] + s)[1..|t|];
  }

  lemma RecentTailInOrder(before: seq<Record>, others: seq<Record>, updated: seq<Record>, search: Record)
    requires others == OtherSearches(before, search)
    requires 0 < |updated| <= |others| + 1 && updated[1..] == others[..|updated| - 1]
    ensures Subseq(updated[1..], before)
    ensures forall i :: 0 < i < |updated| ==> NameOf(updated[i]) != NameOf(search)
  {
    PrefixOfSubseq(others, before, |updated| - 1);
    forall i | 0 < i < |updated|
      ensures NameOf(updated[i]) != NameOf(search)
    {
      assert updated[i] == others[i - 1];
      assert updated[i] in others;
    }
  }

  /** `getRecentSearches`: the stored list, or the empty list when nothing is stored. */
  function GetRecentSearches(store: Storage): (r: seq<Record>)
    ensures RecentSearchesKey !in store ==> r == []
    ensures RecentSearchesKey in store ==> r == store[RecentSearchesKey]
  {
    Read(store, RecentSearchesKey)
  }

  /** `clearRecentSearches`: `removeItem` on the recent-searches key. */
  function ClearRecentSearches(store: Storage): (r: (Storage, bool))
    ensures r.1
    ensures RecentSearchesKey !in r.0
    ensures forall k :: k != RecentSearchesKey ==> Read(r.0, k) == Read(store, k)
  {
    (store - {RecentSearchesKey}, true)
  }

  /** After clearing, reading the recent searches yields the empty list. */
  lemma ClearThenEmpty(store: Storage)
    ensures GetRecentSearches(ClearRecentSearches(store).0) == []
  {
  }

  /** A new search appears exactly once in the list afterwards. */
  lemma AddedSearchOccursOnce(store: Storage, search: Record)
    ensures var after := GetRecentSearches(AddRecentSearch(store, search).0);
            |Filter(after, (x: Record) => NameOf(x) == NameOf(search))| == 1
  {
    var after := GetRecentSearches(AddRecentSearch(store, search).0);
    var same := (x: Record) => NameOf(x) == NameOf(search);
    assert after == [after[0]] + after[1..];
    FilterNone(after[1..], same);
  }

  lemma {:induction false} FilterNone(s: seq<Record>, p: Record -> bool)
    requires forall i :: 0 <= i < |s| ==> !p(s[i])
    ensures Filter(s, p) == []
  {
    if |s| > 0 {
      FilterNone(s[1..], p);
    }
  }
}
