/**
 * The pure part of `lib/services/googlePlaces.ts`: how a Places API reply
 * becomes the app's `Place` (photo URLs, address and city fallbacks,
 * coordinates) and which reply statuses count as results.
 */
module GooglePlaces {
  import opened Wrappers
  import opened JsStrings

  const PhotoBase: string := "https://maps.googleapis.com/maps/api/place/photo?maxwidth="

  const DefaultPhotoWidth: nat := 400

  /** The width formatPlace asks for. */
  const PlacePhotoWidth: nat := 800

  /** At most this many photos are kept per place. */
  const MaxPhotos: nat := 5

  /** `getPhotoUrl(reference, maxWidth)` under the key `key`. */
  function PhotoUrl(reference: string, maxWidth: nat, key: string): (url: string)
    ensures |url| == |PhotoBase| + |Decimal(maxWidth)| + |ReferenceParam| + |reference| + |KeyParam| + |key|
    ensures StartsWith(url, PhotoBase)
    ensures url[|PhotoBase|..|PhotoBase| + |Decimal(maxWidth)|] == Decimal(maxWidth)
    ensures var at := |PhotoBase| + |Decimal(maxWidth)| + |ReferenceParam|;
      url[at..at + |reference|] == reference
    ensures url[|url| - |key|..] == key
  {
    var width := Decimal(maxWidth);
    var head := PhotoBase + width + ReferenceParam;
    var url := head + (reference + (KeyParam + key));
    assert url[..|head|] == head && head[..|PhotoBase|] == PhotoBase;
    assert head[|PhotoBase|..|PhotoBase| + |width|] == width;
    assert url[|head|..] == reference + (KeyParam + key);
    url
  }

  const ReferenceParam: string := "&photo_reference="

  const KeyParam: string := "&key="

  /** Different references give different URLs: the URL names the photo. */
  lemma PhotoUrlInjective(r1: string, r2: string, maxWidth: nat, key: string)
    requires PhotoUrl(r1, maxWidth, key) == PhotoUrl(r2, maxWidth, key)
    ensures r1 == r2
  {
  }

  // ---------------------------------------------------------------- formatPlace

  datatype LatLng = LatLng(lat: real, lng: real)

  /** The fields of a Places API result that `formatPlace` reads; absent fields are `None`. */
  datatype RawPlace = RawPlace(
    placeId: Option<string>,
    name: Option<string>,
    formattedAddress: Option<string>,
    vicinity: Option<string>,
    rating: Option<real>,
    priceLevel: Option<int>,
    photoReferences: Option<seq<string>>,
    types: Option<seq<string>>,
    location: Option<LatLng>,
    openNow: Option<bool>,
    phone: Option<string>,
    website: Option<string>)

  datatype Place = Place(
    placeId: Option<string>,
    name: Option<string>,
    address: string,
    city: Option<string>,
    rating: Option<real>,
    priceLevel: Option<int>,
    photoUrl: Option<string>,
    photos: seq<string>,
    types: seq<string>,
    coordinates: Option<LatLng>,
    openNow: Option<bool>,
    phone: Option<string>,
    website: Option<string>)

  /**
   * `extractCity(address)`: the second-to-last comma-separated part, trimmed;
   * nothing for an empty address or one without a comma.
   */
  function ExtractCity(address: Option<string>): (city: Option<string>)
    ensures !Truthy(address) ==> city.None?
    ensures Truthy(address) ==> (city.Some? <==> ',' in address.value)
  {
    if !Truthy(address) then None
    else
      var parts := Split(address.value, ',');
      SplitInTwo(address.value, ',');
      if |parts| >= 2 then Some(Trim(parts[|parts| - 2])) else None
  }

  /** For an address written as comma-separated parts, the city is the trimmed second-to-last part. */
  lemma ExtractCityOfParts(parts: seq<string>)
    requires |parts| >= 2
    requires forall i :: 0 <= i < |parts| ==> ',' !in parts[i]
    ensures ExtractCity(Some(Join(parts, ','))) == Some(Trim(parts[|parts| - 2]))
  {
    SplitJoin(parts, ',');
    CityOfSplit(Join(parts, ','), parts);
  }

  /** The city of an address whose split is known. */
  lemma CityOfSplit(address: string, parts: seq<string>)
    requires Split(address, ',') == parts && |parts| >= 2
    ensures ExtractCity(Some(address)) == Some(Trim(parts[|parts| - 2]))
  {
    SplitEmpty(address, ',');
    assert Truthy(Some(address));
    var city := Trim(parts[|parts| - 2]);
    assert ExtractCity(Some(address)) == Some(city);
  }

  /** The photo URLs formatPlace keeps: the first five references at width 800. */
  function PlacePhotos(references: Option<seq<string>>, key: string): (photos: seq<string>)
    ensures references.None? ==> photos == []
    ensures references.Some? ==> |photos| == if |references.value| < MaxPhotos then |references.value| else MaxPhotos
    ensures references.Some? ==>
      forall i :: 0 <= i < |photos| ==> photos[i] == PhotoUrl(references.value[i], PlacePhotoWidth, key)
  {
    if references.None? then []
    else
      var kept := if |references.value| < MaxPhotos then references.value else references.value[..MaxPhotos];
      seq(|kept|, i requires 0 <= i < |kept| => PhotoUrl(kept[i], PlacePhotoWidth, key))
  }

  /** `formatPlace(place)`. */
  function FormatPlace(p: RawPlace, key: string): (q: Place)
    ensures q.photos == PlacePhotos(p.photoReferences, key) && |q.photos| <= MaxPhotos
    ensures q.photoUrl == if q.photos == [] then None else Some(q.photos[0])
    ensures Truthy(p.formattedAddress) ==> q.address == p.formattedAddress.value
    ensures !Truthy(p.formattedAddress) && Truthy(p.vicinity) ==> q.address == p.vicinity.value
    ensures !Truthy(p.formattedAddress) && !Truthy(p.vicinity) ==> q.address == ""
    ensures q.city == ExtractCity(p.formattedAddress)
    ensures q.types == p.types.GetOr([])
    ensures q.coordinates.Some? <==> p.location.Some?
    ensures q.coordinates == p.location && q.priceLevel == p.priceLevel && q.openNow == p.openNow
    ensures q.phone == p.phone && q.website == p.website
    ensures q.placeId == p.placeId && q.name == p.name && q.rating == p.rating
  {
    var photos := PlacePhotos(p.photoReferences, key);
    Place(
      p.placeId, p.name,
      if Truthy(p.formattedAddress) then p.formattedAddress.value
      else if Truthy(p.vicinity) then p.vicinity.value else "",
      ExtractCity(p.formattedAddress),
      p.rating, p.priceLevel,
      if photos == [] then None else Some(photos[0]),
      photos,
      p.types.GetOr([]),
      p.location,
      p.openNow, p.phone, p.website)
  }

  /** A place with a photo reference gets a photo URL, and that URL is the first reference's. */
  lemma PhotoUrlIsFirstPhoto(p: RawPlace, key: string)
    requires p.photoReferences.Some? && |p.photoReferences.value| > 0
    ensures FormatPlace(p, key).photoUrl == Some(PhotoUrl(p.photoReferences.value[0], PlacePhotoWidth, key))
  {
  }

  // ---------------------------------------------------------------- replies

  /** A reply of the API; `None` stands for a failed fetch or a non-2xx response. */
  datatype Reply = Reply(status: string, results: Option<seq<RawPlace>>)

  /** The statuses that count as a successful search. */
  predicate SearchSucceeded(status: string) {
    status == "OK" || status == "ZERO_RESULTS"
  }

  /** What `searchPlaces` / `searchNearbyPlaces` make of a reply. */
  function SearchResults(reply: Option<Reply>, key: string): (places: seq<Place>)
    ensures reply.None? || !SearchSucceeded(reply.value.status) ==> places == []
    ensures reply.Some? && SearchSucceeded(reply.value.status) ==>
      var raw := reply.value.results.GetOr([]);
      |places| == |raw| && forall i :: 0 <= i < |raw| ==> places[i] == FormatPlace(raw[i], key)
  {
    if reply.None? || !SearchSucceeded(reply.value.status) then []
    else
      var raw := reply.value.results.GetOr([]);
      seq(|raw|, i requires 0 <= i < |raw| => FormatPlace(raw[i], key))
  }

  /** A details reply: the place when the status is exactly `OK`, else nothing. */
  function DetailsResult(reply: Option<(string, RawPlace)>, key: string): (place: Option<Place>)
    ensures place.Some? <==> reply.Some? && reply.value.0 == "OK"
    ensures place.Some? ==> place.value == FormatPlace(reply.value.1, key)
  {
    if reply.Some? && reply.value.0 == "OK" then Some(FormatPlace(reply.value.1, key)) else None
  }

  /** ZERO_RESULTS is a search success but not a details success. */
  lemma ZeroResultsOnlyForSearches(p: RawPlace, key: string)
    ensures SearchResults(Some(Reply("ZERO_RESULTS", None)), key) == []
    ensures DetailsResult(Some(("ZERO_RESULTS", p)), key).None?
    ensures SearchResults(Some(Reply("ZERO_RESULTS", Some([p]))), key) == [FormatPlace(p, key)]
  {
  }
}
