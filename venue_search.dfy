/**
 * `GET /api/venues/search`: a text search when a query is given (topped up
 * by a nearby search when it finds fewer than five places), a nearby search
 * when only coordinates are given, and a 400 when there is neither.
 */
module VenueSearch {
  import opened Wrappers
  import opened JsStrings
  import opened Query
  import opened GooglePlaces

  /** The query-string parameters the handler reads; `None` for an absent one. */
  datatype Params = Params(
    query: Option<string>, lat: Option<string>, lng: Option<string>,
    radius: Option<string>, kind: Option<string>, keyword: Option<string>)

  /** Coordinates as given in the query string. */
  datatype Location = Location(lat: string, lng: string)

  /** A call of `searchPlaces` or `searchNearbyPlaces`; a `None` radius stands for `NaN`. */
  datatype Call =
    | TextSearch(query: string, location: Option<Location>, radius: Option<int>, kind: Option<string>)
    | NearbySearch(near: Location, radius: Option<int>, kind: Option<string>, keyword: Option<string>)

  const DefaultRadius: string := "5000"

  const Required: string := "Either query or location (lat/lng) is required"

  /** A text search with fewer results than this is topped up by a nearby search. */
  const FewResults: nat := 5

  /** `parseInt(radius || '5000')`. */
  function Radius(radius: Option<string>): (r: Option<int>)
    ensures Truthy(radius) ==> r == ParseInt(radius.value)
  {
    ParseInt(if Truthy(radius) then radius.value else DefaultRadius)
  }

  /** Without a radius parameter the searches cover 5000 metres. */
  lemma DefaultRadiusIs5000(radius: Option<string>)
    requires !Truthy(radius)
    ensures Radius(radius) == Some(5000)
  {
    assert Decimal(5000) + "" == DefaultRadius;
    ParseIntDecimal(5000, "");
  }

  /** `x || undefined` for an optional string parameter. */
  function OrUndefined(x: Option<string>): (r: Option<string>)
    ensures r.Some? <==> Truthy(x)
    ensures r.Some? ==> r == x
  {
    if Truthy(x) then x else None
  }

  /** The coordinates, when both are given and non-empty. */
  function Located(p: Params): (loc: Option<Location>)
    ensures loc.Some? <==> Truthy(p.lat) && Truthy(p.lng)
    ensures loc.Some? ==> loc.value == Location(p.lat.value, p.lng.value)
  {
    if Truthy(p.lat) && Truthy(p.lng) then Some(Location(p.lat.value, p.lng.value)) else None
  }

  /** The place ids of a list of places (`undefined` ids included). */
  function Ids(places: seq<Place>): set<Option<string>> {
    set i | 0 <= i < |places| :: places[i].placeId
  }

  /** Selects the places whose id is not among `ids`. */
  function NotListed(ids: set<Option<string>>): Place -> bool {
    (x: Place) => x.placeId !in ids
  }

  /** The text results followed by the nearby results whose id the text results do not have. */
  function Merge(places: seq<Place>, nearby: seq<Place>): (r: seq<Place>)
    ensures |places| <= |r| <= |places| + |nearby|
  {
    places + Filter(nearby, NotListed(Ids(places)))
  }

  /**
   * The merge keeps the text results first and unchanged, adds only nearby
   * places with a new id, and leaves out no nearby place with a new id.
   */
  lemma MergeSpec(places: seq<Place>, nearby: seq<Place>)
    ensures var r := Merge(places, nearby);
      && r[..|places|] == places
      && (forall i :: |places| <= i < |r| ==> r[i] in nearby && r[i].placeId !in Ids(places))
      && (forall j :: 0 <= j < |nearby| && nearby[j].placeId !in Ids(places) ==> nearby[j] in r)
  {
    var added := Filter(nearby, NotListed(Ids(places)));
    var r := Merge(places, nearby);
    FilterMembers(nearby, NotListed(Ids(places)));
    forall i | |places| <= i < |r| ensures r[i] in nearby && r[i].placeId !in Ids(places) {
      assert r[i] == added[i - |places|];
    }
    forall j | 0 <= j < |nearby| && nearby[j].placeId !in Ids(places) ensures nearby[j] in r {
      assert NotListed(Ids(places))(nearby[j]);
    }
  }

  /**
   * The added nearby places keep their order: what precedes a nearby place
   * is added before it, what follows it after it.
   */
  lemma MergeInOrder(places: seq<Place>, a: seq<Place>, t: Place, b: seq<Place>)
    ensures Merge(places, a + [t] + b) ==
      Merge(places, a) + (if t.placeId !in Ids(places) then [t] else []) + Merge(places, b)[|places|..]
  {
    var keep := NotListed(Ids(places));
    FilterAppend(a + [t], b, keep);
    FilterSnoc(a, t, keep);
    assert (places + Filter(b, keep))[|places|..] == Filter(b, keep);
  }

  /** Merging the same nearby results a second time adds nothing. */
  lemma MergeIdempotent(places: seq<Place>, nearby: seq<Place>)
    ensures Merge(Merge(places, nearby), nearby) == Merge(places, nearby)
  {
    var r := Merge(places, nearby);
    MergeSpec(places, nearby);
    forall j | 0 <= j < |nearby| ensures !NotListed(Ids(r))(nearby[j]) {
      if nearby[j].placeId in Ids(places) {
        var i :| 0 <= i < |places| && places[i].placeId == nearby[j].placeId;
        assert r[i] == places[i];
      } else {
        var i :| 0 <= i < |r| && r[i] == nearby[j];
        assert r[i].placeId in Ids(r);
      }
    }
    FilterNone(nearby, NotListed(Ids(r)));
  }

  /**
   * The handler. `search` stands for the two service calls (which turn every
   * failure into an empty list); `calls` records the ones made, in order.
   */
  method Get(p: Params, search: Call -> seq<Place>) returns (res: Response<seq<Place>>, calls: seq<Call>)
    ensures !Truthy(p.query) && Located(p).None? ==> res == Error(400, Required) && calls == []
    ensures Truthy(p.query) ==>
      var loc, radius, kind := Located(p), Radius(p.radius), OrUndefined(p.kind);
      var first := TextSearch(p.query.value, loc, radius, kind);
      var found := search(first);
      if |found| < FewResults && loc.Some? && kind.Some? then
        var second := NearbySearch(loc.value, radius, kind, p.query);
        calls == [first, second] && res == Ok(200, Merge(found, search(second)))
      else
        calls == [first] && res == Ok(200, found)
    ensures !Truthy(p.query) && Located(p).Some? ==>
      var only := NearbySearch(Located(p).value, Radius(p.radius), OrUndefined(p.kind), OrUndefined(p.keyword));
      calls == [only] && res == Ok(200, search(only))
  {
    var radius := Radius(p.radius);
    var kind := OrUndefined(p.kind);
    if !Truthy(p.query) && (!Truthy(p.lat) || !Truthy(p.lng)) {
      return Error(400, Required), [];
    }
    var places: seq<Place> := [];
    if Truthy(p.query) {
      var location := Located(p);
      var first := TextSearch(p.query.value, location, radius, kind);
      places := search(first);
      calls := [first];
      if |places| < FewResults && location.Some? && kind.Some? {
        var second := NearbySearch(location.value, radius, kind, p.query);
        var nearby := search(second);
        calls := [first, second];
        places := Merge(places, nearby);
      }
    } else if Truthy(p.lat) && Truthy(p.lng) {
      var only := NearbySearch(Location(p.lat.value, p.lng.value), radius, kind, OrUndefined(p.keyword));
      places := search(only);
      calls := [only];
    }
    res := Ok(200, places);
  }
}
