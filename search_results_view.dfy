/** `SearchResultsViewController`: the table of search results. The view
    keeps its own copy of the published results and shows a "no cities
    found" label when that copy is empty. */
module SearchResultsView {
  import opened Wrappers
  import opened Text
  import opened WeatherModel

  /** What selecting a row asks the view model for: the weather at a
      coordinate, with the city name to display. */
  datatype WeatherRequest = WeatherRequest(latitude: real, longitude: real, cityName: string)

  class SearchResultsViewController {
    var locations: seq<Location>
    /** `noResultsLabel.isHidden`. */
    var noResultsHidden: bool
    /** Whether the activity indicator is animating. */
    var activityAnimating: bool

    constructor ()
      ensures locations == [] && noResultsHidden && !activityAnimating
    {
      locations := [];
      noResultsHidden := true;
      activityAnimating := false;
    }

    /** The subscriber to the view model's `searchResults`. */
    method ReceiveResults(results: seq<Location>)
      modifies this
      ensures locations == results
      ensures noResultsHidden <==> results != []
      ensures activityAnimating == old(activityAnimating)
    {
      locations := results;
      noResultsHidden := !(results == []);
    }

    /** The subscriber to the view model's `isLoading`. */
    method ReceiveLoading(isLoading: bool)
      modifies this
      ensures activityAnimating == isLoading
      ensures locations == old(locations) && noResultsHidden == old(noResultsHidden)
    {
      if isLoading {
        activityAnimating := true;
      } else {
        activityAnimating := false;
      }
    }

    /** `numberOfRowsInSection`: one row per location. */
    function NumberOfRows(): (n: nat)
      reads this
      ensures n == |locations|
    {
      |locations|
    }

    /** `cellForRowAt`: the city name, and below it the state (when there is
        a non-empty one) and the country, separated by ", ". */
    method CellContent(row: nat) returns (text: string, secondaryText: string)
      requires row < |locations|
      ensures text == locations[row].name
      ensures var location := locations[row];
        secondaryText == if location.state.Some? && location.state.value != []
                         then location.state.value + ", " + location.country
                         else location.country
    {
      var location := locations[row];
      text := location.name;
      var locationDetails: seq<string> := [];
      if location.state.Some? && location.state.value != [] {
        locationDetails := locationDetails + [location.state.value];
      }
      locationDetails := locationDetails + [location.country];
      if |locationDetails| == 2 {
        JoinPair(locationDetails[0], locationDetails[1], ", ");
      }
      secondaryText := Join(locationDetails, ", ");
    }

    /** `didSelectRowAt`: the weather request for the chosen location. */
    method DidSelectRow(row: nat) returns (request: WeatherRequest)
      requires row < |locations|
      ensures request.latitude == locations[row].lat && request.longitude == locations[row].lon
      ensures request.cityName == locations[row].name
    {
      var location := locations[row];
      request := WeatherRequest(location.lat, location.lon, location.name);
    }
  }
}
