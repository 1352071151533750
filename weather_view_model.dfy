/** `WeatherViewModel`: the temperature-unit preference, the weather
    background choice, and the city search that backfills missing
    coordinates before publishing the results. */
module ViewModel {
  import opened Wrappers
  import opened Text
  import opened WeatherModel
  import opened CitySearch

  /** `TemperatureUnit`, a string-backed enum. */
  datatype TemperatureUnit = Celsius | Fahrenheit {
    function RawValue(): string {
      match this
      case Celsius => "C"
      case Fahrenheit => "F"
    }
  }

  /** `TemperatureUnit(rawValue:)`: the unit whose raw value is `raw`. */
  function UnitFromRawValue(raw: string): (u: Option<TemperatureUnit>)
    ensures u.Some? ==> u.value.RawValue() == raw
    ensures u.None? ==> forall v: TemperatureUnit :: v.RawValue() != raw
  {
    if raw == "C" then Some(Celsius) else if raw == "F" then Some(Fahrenheit) else None
  }

  /** Reading back a stored raw value gives the unit that was stored. */
  lemma RawValueRoundTrip(u: TemperatureUnit)
    ensures UnitFromRawValue(u.RawValue()) == Some(u)
  {
  }

  /** The unit `toggleTemperatureUnit` switches to. */
  function Toggled(u: TemperatureUnit): (t: TemperatureUnit)
    ensures t != u
  {
    if u == Celsius then Fahrenheit else Celsius
  }

  /** Toggling twice restores the unit. */
  lemma ToggledTwice(u: TemperatureUnit)
    ensures Toggled(Toggled(u)) == u
  {
  }

  /** Coordinates as returned by `fetchCoordinatesForCity`. */
  datatype Coordinate = Coordinate(latitude: real, longitude: real)

  /** A location whose coordinates are both exactly zero: a fallback entry
      waiting for coordinates. */
  predicate LacksCoordinates(loc: Location) {
    loc.lat == 0.0 && loc.lon == 0.0
  }

  /** The single-result request of `fetchCoordinatesForCity`: the name,
      then ", ", then the country code. */
  function CoordinateLookup(loc: Location): (l: Lookup)
    ensures l.limit == 1
    ensures |l.query| == |loc.name| + 2 + |loc.country|
    ensures HasPrefix(l.query, loc.name) && l.query[|loc.name| + 2..] == loc.country
  {
    Lookup(loc.name + ", " + loc.country, 1)
  }

  /** `fetchCoordinatesForCity`: the coordinates of the first result, or
      nothing when the request fails or finds nothing. */
  function FetchCoordinates(loc: Location, geocode: Geocoder): (c: Option<Coordinate>)
    ensures c.Some? <==> geocode(CoordinateLookup(loc)).Some? && geocode(CoordinateLookup(loc)).value != []
    ensures c.Some? ==> var first := geocode(CoordinateLookup(loc)).value[0];
                        c.value == Coordinate(first.lat, first.lon)
  {
    match geocode(CoordinateLookup(loc))
    case Some(found) => if found == [] then None else Some(Coordinate(found[0].lat, found[0].lon))
    case None => None
  }

  /** One step of the backfill loop: name, country and state never
      change; an entry with coordinates, or whose lookup fails or finds
      nothing, is unchanged; otherwise both coordinates come together from
      the first result. */
  function BackfillOne(loc: Location, geocode: Geocoder): (r: Location)
    ensures r.name == loc.name && r.country == loc.country && r.state == loc.state
    ensures !LacksCoordinates(loc) || FetchCoordinates(loc, geocode).None? ==> r == loc
    ensures LacksCoordinates(loc) && FetchCoordinates(loc, geocode).Some? ==>
      Coordinate(r.lat, r.lon) == FetchCoordinates(loc, geocode).value
  {
    if LacksCoordinates(loc) then
      match FetchCoordinates(loc, geocode)
      case Some(c) => Location(loc.name, c.latitude, c.longitude, loc.country, loc.state)
      case None => loc
    else loc
  }

  /** The list after the backfill loop: same length, and every entry that
      already had coordinates is where it was. */
  function Backfilled(locations: seq<Location>, geocode: Geocoder): (r: seq<Location>)
    ensures |r| == |locations|
    ensures forall i :: 0 <= i < |locations| && !LacksCoordinates(locations[i]) ==> r[i] == locations[i]
  {
    seq(|locations|, i requires 0 <= i < |locations| => BackfillOne(locations[i], geocode))
  }

  /** The requests the backfill sends: one per entry without coordinates,
      in list order. */
  function BackfillLookups(locations: seq<Location>): (r: seq<Lookup>)
    ensures |r| <= |locations|
  {
    if locations == [] then []
    else
      var last := locations[|locations| - 1];
      BackfillLookups(locations[..|locations| - 1]) + if LacksCoordinates(last) then [CoordinateLookup(last)] else []
  }

  /** The positions of the entries without coordinates, in increasing
      order. */
  function LackingIndices(locations: seq<Location>): (idx: seq<nat>)
    ensures forall k :: 0 <= k < |idx| ==> idx[k] < |locations| && LacksCoordinates(locations[idx[k]])
    ensures forall k, m :: 0 <= k < m < |idx| ==> idx[k] < idx[m]
    ensures forall i :: 0 <= i < |locations| && LacksCoordinates(locations[i]) ==> i in idx
  {
    if locations == [] then []
    else
      var n := |locations| - 1;
      var init := locations[..n];
      var idx := LackingIndices(init);
      assert forall k :: 0 <= k < |idx| ==> locations[idx[k]] == init[idx[k]];
      assert forall i :: 0 <= i < n ==> locations[i] == init[i];
      idx + if LacksCoordinates(locations[n]) then [n] else []
  }

  /** The backfill sends, in list order, one "name, country" request for
      each entry without coordinates and none for the others: request `k`
      is for the `k`-th entry lacking coordinates. */
  lemma {:induction false} BackfillLookupsSpec(locations: seq<Location>)
    ensures var idx, r := LackingIndices(locations), BackfillLookups(locations);
      |r| == |idx| && forall k :: 0 <= k < |idx| ==> r[k] == CoordinateLookup(locations[idx[k]])
  {
    if locations != [] {
      var n := |locations| - 1;
      var init := locations[..n];
      BackfillLookupsSpec(init);
      var idx := LackingIndices(init);
      assert forall k :: 0 <= k < |idx| ==> locations[idx[k]] == init[idx[k]];
    }
  }

  /** A request is sent exactly for the entries without coordinates. */
  lemma BackfillLookupsMembers(locations: seq<Location>, l: Lookup)
    ensures l in BackfillLookups(locations) <==>
      exists i :: 0 <= i < |locations| && LacksCoordinates(locations[i]) && l == CoordinateLookup(locations[i])
  {
    BackfillLookupsSpec(locations);
    var idx, r := LackingIndices(locations), BackfillLookups(locations);
    if l in r {
      var k :| 0 <= k < |r| && r[k] == l;
      assert LacksCoordinates(locations[idx[k]]);
    }
    if exists i :: 0 <= i < |locations| && LacksCoordinates(locations[i]) && l == CoordinateLookup(locations[i]) {
      var i :| 0 <= i < |locations| && LacksCoordinates(locations[i]) && l == CoordinateLookup(locations[i]);
      var k :| 0 <= k < |idx| && idx[k] == i;
      assert r[k] == l;
    }
  }

  /** What the backfill does to each entry: the list keeps its length and
      order; name, country and state never change; an entry with
      coordinates, or whose lookup fails or finds nothing, is unchanged;
      otherwise both coordinates come together from the first result. */
  lemma BackfillSpec(locations: seq<Location>, geocode: Geocoder)
    ensures |Backfilled(locations, geocode)| == |locations|
    ensures forall i :: 0 <= i < |locations| ==>
      var before, after := locations[i], Backfilled(locations, geocode)[i];
      && after.name == before.name && after.country == before.country && after.state == before.state
      && (!LacksCoordinates(before) ==> after == before)
      && (FetchCoordinates(before, geocode).None? ==> after == before)
      && (LacksCoordinates(before) && FetchCoordinates(before, geocode).Some? ==>
            Coordinate(after.lat, after.lon) == FetchCoordinates(before, geocode).value)
  {
  }

  /** The `for i in 0..<locations.count` loop of `searchCity`. */
  method BackfillCoordinates(locations: seq<Location>, geocode: Geocoder)
    returns (filled: seq<Location>, ghost lookups: seq<Lookup>)
    ensures filled == Backfilled(locations, geocode)
    ensures lookups == BackfillLookups(locations)
  {
    filled := locations;
    lookups := [];
    for i := 0 to |filled|
      invariant |filled| == |locations|
      invariant forall k :: 0 <= k < i ==> filled[k] == BackfillOne(locations[k], geocode)
      invariant forall k :: i <= k < |filled| ==> filled[k] == locations[k]
      invariant lookups == BackfillLookups(locations[..i])
    {
      assert locations[..i + 1][..i] == locations[..i];
      if filled[i].lat == 0.0 && filled[i].lon == 0.0 {
        var request := CoordinateLookup(filled[i]);
        lookups := lookups + [request];
        var coordinates := FetchCoordinates(filled[i], geocode);
        if coordinates.Some? {
          filled := filled[i := Location(filled[i].name, coordinates.value.latitude, coordinates.value.longitude,
                                         filled[i].country, filled[i].state)];
        }
      }
    }
    assert locations[..|locations|] == locations;
  }

  /** The text of the weather conditions that have their own background. */
  const ConditionBackgrounds: map<string, string> :=
    map["clear" := "clear_background", "clouds" := "cloudy_background", "rain" := "rain_background",
        "snow" := "snow_background", "thunderstorm" := "thunder_background"]

  const DefaultBackground: string := "default_background"

  class WeatherViewModel {
    /** The key `NetworkService` is configured with. */
    const apiKey: string
    var weatherData: Option<WeatherResponse>
    var searchResults: seq<Location>
    var errorMessage: Option<string>
    var isLoading: bool
    var temperatureUnit: TemperatureUnit
    var selectedCityName: Option<string>
    /** The "temperatureUnit" entry of the user defaults. */
    var savedUnit: Option<string>

    /** `init()`: restores the saved unit when it is a valid raw value. */
    constructor (apiKey: string, savedUnit: Option<string>)
      ensures this.apiKey == apiKey && this.savedUnit == savedUnit
      ensures weatherData == None && searchResults == [] && errorMessage == None
      ensures !isLoading && selectedCityName == None
      ensures savedUnit.Some? && UnitFromRawValue(savedUnit.value).Some? ==>
                temperatureUnit == UnitFromRawValue(savedUnit.value).value
      ensures savedUnit.None? || UnitFromRawValue(savedUnit.value).None? ==> temperatureUnit == Celsius
    {
      this.apiKey := apiKey;
      this.savedUnit := savedUnit;
      weatherData := None;
      searchResults := [];
      errorMessage := None;
      isLoading := false;
      selectedCityName := None;
      temperatureUnit := Celsius;
      if savedUnit.Some? {
        var unit := UnitFromRawValue(savedUnit.value);
        if unit.Some? {
          temperatureUnit := unit.value;
        }
      }
    }

    /** Switches between Celsius and Fahrenheit and saves the choice. */
    method ToggleTemperatureUnit()
      modifies this
      ensures temperatureUnit == Toggled(old(temperatureUnit))
      ensures savedUnit == Some(temperatureUnit.RawValue())
      ensures weatherData == old(weatherData) && searchResults == old(searchResults)
      ensures errorMessage == old(errorMessage) && isLoading == old(isLoading)
      ensures selectedCityName == old(selectedCityName)
    {
      temperatureUnit := Toggled(temperatureUnit);
      savedUnit := Some(temperatureUnit.RawValue());
    }

    method ClearSearchResults()
      modifies this
      ensures searchResults == []
      ensures weatherData == old(weatherData) && errorMessage == old(errorMessage)
      ensures isLoading == old(isLoading) && temperatureUnit == old(temperatureUnit)
      ensures selectedCityName == old(selectedCityName) && savedUnit == old(savedUnit)
    {
      searchResults := [];
    }

    /** `searchCity(query:)`: clears the results, runs the network search,
        backfills missing coordinates and publishes the list; on an error
        the results stay empty and the error's description is shown. */
    method SearchCity(query: string, geocode: Geocoder)
      modifies this
      ensures !isLoading
      ensures apiKey == PlaceholderApiKey ==>
        searchResults == [] && errorMessage == Some(ErrorDescription(ApiKeyMissing))
      ensures apiKey != PlaceholderApiKey ==> errorMessage == old(errorMessage)
      ensures apiKey != PlaceholderApiKey && AllWhitespace(query) ==> searchResults == []
      ensures apiKey != PlaceholderApiKey && !AllWhitespace(query) ==>
        var cleanQuery := Trim(query);
        searchResults == Backfilled(Relevance.Rank(Gathered(cleanQuery, geocode), Lowercased(cleanQuery)), geocode)
      ensures weatherData == old(weatherData) && temperatureUnit == old(temperatureUnit)
      ensures selectedCityName == old(selectedCityName) && savedUnit == old(savedUnit)
    {
      isLoading := true;
      searchResults := [];
      var outcome, _ := CitySearch.SearchCity(apiKey, query, geocode);
      match outcome {
        case Success(locations) =>
          var filled, _ := BackfillCoordinates(locations, geocode);
          searchResults := filled;
        case Failure(error) =>
          errorMessage := Some(ErrorDescription(error));
      }
      isLoading := false;
    }

    /** `getBackgroundImageName()`: chosen by the lowercased `main` of the
        first weather entry. */
    function GetBackgroundImageName(): (name: string)
      reads this
      ensures weatherData.None? || weatherData.value.weather == [] ==> name == DefaultBackground
      ensures weatherData.Some? && weatherData.value.weather != [] ==>
        var condition := Lowercased(weatherData.value.weather[0].main);
        name == if condition in ConditionBackgrounds then ConditionBackgrounds[condition] else DefaultBackground
    {
      if weatherData.None? || weatherData.value.weather == [] then DefaultBackground
      else
        match Lowercased(weatherData.value.weather[0].main)
        case "clear" => "clear_background"
        case "clouds" => "cloudy_background"
        case "rain" => "rain_background"
        case "snow" => "snow_background"
        case "thunderstorm" => "thunder_background"
        case _ => DefaultBackground
    }
  }
}
