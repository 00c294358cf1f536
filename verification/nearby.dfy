/** `get_nearby_places`: the places search around a site's zipcode,
    memoized by zipcode, and the line printed for each result. */
module Nearby {
  import opened Common
  import opened Sites

  const PlacesEndpoint := "http://www.mapquestapi.com/search/v2/radius"

  /** A JSON member as the formatting code reads it: absent (subscripting
      raises KeyError), `null`, or a string. */
  datatype Field = Absent | Null | Str(s: string)

  /** The `fields` object of one search result. */
  datatype PlaceFields = PlaceFields(category: Field, address: Field, city: Field)

  /** One entry of `searchResults`; `fields` is `None` when the member is absent. */
  datatype Place = Place(name: Field, fields: Option<PlaceFields>)

  /** The decoded response; `searchResults` is `None` when the member is absent. */
  datatype PlacesResponse = PlacesResponse(searchResults: Option<seq<Place>>)

  /** The request issued for an origin zipcode, with its fixed parameters. */
  function PlacesRequest(origin: string): (q: Request)
    ensures q.Radius? && q.endpoint == PlacesEndpoint && q.origin == origin
    ensures q.radius == 10 && q.maxMatches == 10
    ensures q.ambiguities == "ignore" && q.outFormat == "json"
  {
    Radius(PlacesEndpoint, origin, 10, 10, "ignore", "json")
  }

  /** Python truthiness of a present member: `null` and "" are false. */
  predicate Truthy(f: Field) {
    f.Str? && f.s != ""
  }

  /** The member's text when truthy, `default` otherwise. */
  function OrDefault(f: Field, default: string): (r: string)
    ensures Truthy(f) ==> r == f.s
    ensures !Truthy(f) ==> r == default
  {
    if Truthy(f) then f.s else default
  }

  /** How an f-string renders the `name` member: JSON null prints as None. */
  function Rendered(f: Field): string
    requires !f.Absent?
  {
    if f.Null? then "None" else f.s
  }

  /** Every member the formatting code subscripts is present. */
  predicate Readable(p: Place) {
    && p.fields.Some?
    && !p.fields.value.category.Absent?
    && !p.fields.value.address.Absent?
    && !p.fields.value.city.Absent?
    && !p.name.Absent?
  }

  /** The printed line for one result:
      "- name (category): address, city", with "no category",
      "no address" and "no city" standing for falsy members. */
  function FormatPlace(p: Place): (r: Result<string>)
    ensures r.Ok? <==> Readable(p)
    ensures r.Err? ==> r.error == KeyError
  {
    if !Readable(p) then Err(KeyError)
    else
      var f := p.fields.value;
      Ok("- " + Rendered(p.name) + " (" + OrDefault(f.category, "no category") + "): "
         + OrDefault(f.address, "no address") + ", " + OrDefault(f.city, "no city"))
  }

  /** What the loop printed, and the exception that stopped it, if any. */
  datatype Printed = Printed(lines: seq<string>, failure: Option<Error>)

  /** The printing loop over the results: one line per result, in order,
      up to the first result that raises. */
  function FormatPlaces(places: seq<Place>): (r: Printed)
    ensures |r.lines| <= |places|
    ensures forall i :: 0 <= i < |r.lines| ==> FormatPlace(places[i]) == Ok(r.lines[i])
    ensures r.failure.None? <==> |r.lines| == |places|
    ensures r.failure.Some? ==> FormatPlace(places[|r.lines|]) == Err(r.failure.value)
  {
    if places == [] then Printed([], None)
    else
      match FormatPlace(places[0])
      case Err(e) => Printed([], Some(e))
      case Ok(line) =>
        var rest := FormatPlaces(places[1..]);
        Printed([line] + rest.lines, rest.failure)
  }

  /** The lines printed for a response; without `searchResults` the
      subscript raises before anything is printed. */
  function Render(response: PlacesResponse): (r: Printed)
    ensures response.searchResults.None? ==> r == Printed([], Some(KeyError))
    ensures response.searchResults.Some? ==> r == FormatPlaces(response.searchResults.value)
  {
    match response.searchResults
    case None => Printed([], Some(KeyError))
    case Some(places) => FormatPlaces(places)
  }

  /** The result of `get_nearby_places`: the response (or the exception the
      printing loop raised), the printed lines, the zipcode cache afterwards
      and the requests issued. */
  datatype Nearby = Nearby(value: Result<PlacesResponse>, lines: seq<string>,
                           cache: map<string, PlacesResponse>, requests: seq<Request>)

  /** `get_nearby_places`: the response for the site's zipcode comes from
      the cache when present, otherwise from the places search, and is
      stored before printing. Both paths print the same lines for the same
      response and return the cached entry. */
  function GetNearbyPlaces(site: NationalSite, cache: map<string, PlacesResponse>,
                           search: string -> PlacesResponse): (r: Nearby)
    ensures site.zipcode in cache ==> r.cache == cache && r.requests == []
    ensures site.zipcode !in cache ==> && r.cache == cache[site.zipcode := search(site.zipcode)]
                                       && r.requests == [PlacesRequest(site.zipcode)]
    ensures site.zipcode in r.cache && r.lines == Render(r.cache[site.zipcode]).lines
    ensures r.value.Ok? <==> Render(r.cache[site.zipcode]).failure.None?
    ensures r.value.Ok? ==> r.value.value == r.cache[site.zipcode]
    ensures r.value.Err? ==> r.value.error == KeyError
    ensures Extends(cache, r.cache)
  {
    var zip := site.zipcode;
    var hit := zip in cache;
    var cache' := if hit then cache else cache[zip := search(zip)];
    var requests := if hit then [] else [PlacesRequest(zip)];
    var printed := Render(cache'[zip]);
    match printed.failure
    case Some(e) => Nearby(Err(e), printed.lines, cache', requests)
    case None => Nearby(Ok(cache'[zip]), printed.lines, cache', requests)
  }

  /** A repeated lookup for the same zipcode prints the same lines and
      returns the same response, without a request or a cache change. */
  lemma GetNearbyPlacesIdempotent(site: NationalSite, cache: map<string, PlacesResponse>,
                                  search: string -> PlacesResponse)
    ensures var first := GetNearbyPlaces(site, cache, search);
            var second := GetNearbyPlaces(site, first.cache, search);
            && second.lines == first.lines
            && second.value == first.value
            && second.cache == first.cache
            && second.requests == []
  {
  }

  /** A hit on an entry equal to what the search returns prints exactly
      what the miss would have printed. */
  lemma HitAndMissPrintAlike(site: NationalSite, cache: map<string, PlacesResponse>,
                             search: string -> PlacesResponse)
    requires site.zipcode in cache && cache[site.zipcode] == search(site.zipcode)
    ensures var hit := GetNearbyPlaces(site, cache, search);
            var miss := GetNearbyPlaces(site, cache - {site.zipcode}, search);
            hit.lines == miss.lines && hit.value == miss.value && hit.requests == []
  {
    assert (cache - {site.zipcode})[site.zipcode := search(site.zipcode)] == cache;
  }

  /** The tail of the line is the address (or "no address"), ", " and the
      city (or "no city"): a truthy member prints its own text, a falsy one
      its default. */
  lemma MissingMembersPrintDefaults(p: Place)
    requires Readable(p)
    ensures var line := FormatPlace(p).value;
            var f := p.fields.value;
            var city := OrDefault(f.city, "no city");
            var addr := OrDefault(f.address, "no address");
            && line[..2] == "- "
            && |line| >= |city| + 2 + |addr|
            && line[|line| - |city|..] == city
            && line[|line| - |city| - 2..|line| - |city|] == ", "
            && line[|line| - |city| - 2 - |addr|..|line| - |city| - 2] == addr
            && (!Truthy(f.city) ==> line[|line| - 7..] == "no city")
            && (Truthy(f.city) ==> line[|line| - |f.city.s|..] == f.city.s)
            && (!Truthy(f.address) ==> line[|line| - |city| - 12..|line| - |city|] == "no address, ")
            && (Truthy(f.address) ==> line[|line| - |city| - 2 - |f.address.s|..|line| - |city| - 2] == f.address.s)
  {
  }

  /** The head of the line is "- ", the rendered name, " (", the category
      (or "no category") and "): ", and the address text starts right
      after it. */
  lemma CategoryFollowsName(p: Place)
    requires Readable(p)
    ensures var line := FormatPlace(p).value;
            var f := p.fields.value;
            var name := Rendered(p.name);
            var cat := OrDefault(f.category, "no category");
            var addr := OrDefault(f.address, "no address");
            var city := OrDefault(f.city, "no city");
            && |line| == 2 + |name| + 2 + |cat| + 3 + |addr| + 2 + |city|
            && line[2..2 + |name|] == name
            && line[2 + |name|..4 + |name|] == " ("
            && line[4 + |name|..4 + |name| + |cat|] == cat
            && line[4 + |name| + |cat|..7 + |name| + |cat|] == "): "
            && line[7 + |name| + |cat|..7 + |name| + |cat| + |addr|] == addr
            && (Truthy(f.category) ==> line[4 + |name|..4 + |name| + |f.category.s|] == f.category.s)
            && (!Truthy(f.category) ==> line[4 + |name|..15 + |name|] == "no category")
  {
  }
}
