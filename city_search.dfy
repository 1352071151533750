/** `NetworkService.searchCity`: the multi-strategy city search. The
    geocoding HTTP call is a parameter (`Geocoder`); everything around it
    is modelled. */
module CitySearch {
  import opened Wrappers
  import opened Text
  import opened WeatherModel
  import opened Relevance

  datatype NetworkError = InvalidURL | NoData | DecodingError | ServerError(message: string) | ApiKeyMissing

  /** `NetworkError.errorDescription`: the text shown to the user. A server
      error's own message follows a fixed 14-character prefix. */
  function ErrorDescription(e: NetworkError): (r: string)
    ensures e.ServerError? ==> |r| >= 14 && r[14..] == e.message
    ensures !e.ServerError? ==> |r| >= 11 && r[0] != 'S'
  {
    match e
    case InvalidURL => "Invalid URL"
    case NoData => "No data received"
    case DecodingError => "Failed to decode response"
    case ServerError(message) => "Server error: " + message
    case ApiKeyMissing =>
      "API key is missing." + " Please add your OpenWeather API key to NetworkService.swift"
  }

  /** Different errors are described differently, so the shown text
      identifies the error. */
  lemma ErrorDescriptionInjective(e1: NetworkError, e2: NetworkError)
    requires ErrorDescription(e1) == ErrorDescription(e2)
    ensures e1 == e2
  {
    var d := ErrorDescription(e1);
    if e1.ServerError? && e2.ServerError? {
      assert e1.message == d[14..] == e2.message;
    } else if e1.ServerError? || e2.ServerError? {
    } else {
      assert d[0] == ErrorDescription(e1)[0] && |d| == |ErrorDescription(e2)|;
    }
  }

  /** The key value shipped in the source, meaning "not configured". */
  const PlaceholderApiKey: string := "YOUR_API_KEY"

  /** Page size of every search strategy request. */
  const SearchLimit: nat := 100

  /** One request to the geocoding endpoint: the free-text `q` and `limit`. */
  datatype Lookup = Lookup(query: string, limit: nat)

  /** The geocoding call. `None` stands for every way a request can fail:
      a transport error, a status other than 200, a body that does not
      decode. */
  type Geocoder = Lookup -> Option<seq<Location>>

  /** The requests of the three strategies, in the order they are sent:
      the query itself, the query with ", India" appended, and its first
      three characters when it is longer than three; all with the same page
      size. */
  function StrategyLookups(query: string): (ls: seq<Lookup>)
    ensures |ls| == if |query| > 3 then 3 else 2
    ensures forall i :: 0 <= i < |ls| ==> ls[i].limit == SearchLimit
    ensures ls[0].query == query && ls[1].query == query + ", India"
    ensures |query| > 3 ==> ls[2].query == query[..3] && |ls[2].query| == 3
  {
    [Lookup(query, SearchLimit), Lookup(query + ", India", SearchLimit)]
    + if |query| > 3 then [Lookup(query[..3], SearchLimit)] else []
  }

  /** The dedup key of the filters: same name and same country code. */
  predicate SameIdentity(a: Location, b: Location) {
    a.name == b.name && a.country == b.country
  }

  /** Some entry of `acc` has the name and the country of `x`. */
  predicate Known(acc: seq<Location>, x: Location) {
    exists k :: 0 <= k < |acc| && SameIdentity(acc[k], x)
  }

  /** The `filter` of strategies 2 and 3: keeps, in order, the candidates
      whose identity is not among those accumulated before the strategy.
      Candidates are not compared with each other. */
  function NewOnly(acc: seq<Location>, candidates: seq<Location>): (r: seq<Location>)
    ensures |r| <= |candidates|
  {
    if candidates == [] then []
    else (if Known(acc, candidates[0]) then [] else [candidates[0]]) + NewOnly(acc, candidates[1..])
  }

  /** `a` is `b` with some entries removed, the rest in their order. */
  predicate IsSubsequence<T(==)>(a: seq<T>, b: seq<T>) {
    if a == [] then true
    else if b == [] then false
    else (a[0] == b[0] && IsSubsequence(a[1..], b[1..])) || IsSubsequence(a, b[1..])
  }

  /** The filter works candidate by candidate: filtering a concatenation
      concatenates the filtered parts. */
  lemma {:induction false} NewOnlyAppend(acc: seq<Location>, c1: seq<Location>, c2: seq<Location>)
    ensures NewOnly(acc, c1 + c2) == NewOnly(acc, c1) + NewOnly(acc, c2)
  {
    if c1 == [] {
      assert c1 + c2 == c2;
    } else {
      assert (c1 + c2)[1..] == c1[1..] + c2;
      NewOnlyAppend(acc, c1[1..], c2);
    }
  }

  /** A candidate with an unseen identity survives as many times as it is
      offered, repeats included; one with a known identity never does. */
  lemma {:induction false} NewOnlyCount(acc: seq<Location>, candidates: seq<Location>, x: Location)
    ensures multiset(NewOnly(acc, candidates))[x] == if Known(acc, x) then 0 else multiset(candidates)[x]
  {
    if candidates != [] {
      NewOnlyCount(acc, candidates[1..], x);
      assert candidates == [candidates[0]] + candidates[1..];
    }
  }

  /** The survivors keep their order among the candidates. */
  lemma {:induction false} NewOnlyInOrder(acc: seq<Location>, candidates: seq<Location>)
    ensures IsSubsequence(NewOnly(acc, candidates), candidates)
  {
    if candidates != [] {
      NewOnlyInOrder(acc, candidates[1..]);
      var r := NewOnly(acc, candidates);
      var rest := NewOnly(acc, candidates[1..]);
      if !Known(acc, candidates[0]) {
        assert r[0] == candidates[0] && r[1..] == rest;
      } else if rest != [] {
        assert r == rest;
        assert IsSubsequence(r, candidates[1..]);
      }
    }
  }

  /** A candidate survives the filter exactly when no accumulated entry has
      its name and country. */
  lemma {:induction false} NewOnlyKeepsUnseen(acc: seq<Location>, candidates: seq<Location>)
    ensures forall x :: x in NewOnly(acc, candidates) <==> x in candidates && !Known(acc, x)
  {
    if candidates != [] {
      NewOnlyKeepsUnseen(acc, candidates[1..]);
      assert candidates == [candidates[0]] + candidates[1..];
    }
  }

  /** One strategy's effect on the accumulator: nothing on a failed lookup,
      every result for the first strategy (`filtered` false), only new
      identities for the later ones. */
  function Absorb(acc: seq<Location>, outcome: Option<seq<Location>>, filtered: bool): (r: seq<Location>)
    ensures |acc| <= |r| && r[..|acc|] == acc
  {
    match outcome
    case None => acc
    case Some(found) => acc + if filtered then NewOnly(acc, found) else found
  }

  /** Entries already accumulated stay, in place; a failed lookup adds
      nothing; what a strategy adds is exactly its results (the first
      strategy) or, in their order and with their repeats, its results with
      an unseen identity (the later ones). */
  lemma AbsorbSpec(acc: seq<Location>, outcome: Option<seq<Location>>, filtered: bool)
    ensures var r := Absorb(acc, outcome, filtered);
      && |acc| <= |r| && r[..|acc|] == acc
      && (outcome.None? ==> r == acc)
      && (outcome.Some? && !filtered ==> r[|acc|..] == outcome.value)
      && (outcome.Some? ==> IsSubsequence(r[|acc|..], outcome.value))
      && (forall x :: x in r[|acc|..] <==> outcome.Some? && x in outcome.value && (!filtered || !Known(acc, x)))
      && (forall x :: multiset(r[|acc|..])[x] ==
            if outcome.None? || (filtered && Known(acc, x)) then 0 else multiset(outcome.value)[x])
  {
    var r := Absorb(acc, outcome, filtered);
    if outcome.Some? {
      var added := if filtered then NewOnly(acc, outcome.value) else outcome.value;
      assert r[|acc|..] == added;
      NewOnlyKeepsUnseen(acc, outcome.value);
      if filtered {
        NewOnlyInOrder(acc, outcome.value);
        forall x ensures multiset(added)[x] == if Known(acc, x) then 0 else multiset(outcome.value)[x] {
          NewOnlyCount(acc, outcome.value, x);
        }
      } else {
        SubsequenceOfItself(outcome.value);
      }
    } else {
      assert r[|acc|..] == [];
    }
  }

  lemma {:induction false} SubsequenceOfItself<T>(s: seq<T>)
    ensures IsSubsequence(s, s)
  {
    if s != [] {
      SubsequenceOfItself(s[1..]);
    }
  }

  /** The accumulator after the first `n` strategies have run. */
  function Accumulated(query: string, geocode: Geocoder, n: nat): seq<Location>
    requires n <= |StrategyLookups(query)|
  {
    if n == 0 then []
    else Absorb(Accumulated(query, geocode, n - 1), geocode(StrategyLookups(query)[n - 1]), n > 1)
  }

  /** The accumulator after all strategies. */
  function Merged(query: string, geocode: Geocoder): seq<Location> {
    Accumulated(query, geocode, |StrategyLookups(query)|)
  }

  /** Later strategies only ever append: the accumulator after `m`
      strategies is a prefix of the one after `n >= m`. */
  lemma {:induction false} AccumulatedGrows(query: string, geocode: Geocoder, m: nat, n: nat)
    requires m <= n <= |StrategyLookups(query)|
    ensures |Accumulated(query, geocode, m)| <= |Accumulated(query, geocode, n)|
    ensures Accumulated(query, geocode, n)[..|Accumulated(query, geocode, m)|] == Accumulated(query, geocode, m)
  {
    if m < n {
      AccumulatedGrows(query, geocode, m, n - 1);
      var prev := Accumulated(query, geocode, n - 1);
      AbsorbSpec(prev, geocode(StrategyLookups(query)[n - 1]), n > 1);
      assert Accumulated(query, geocode, n)[..|prev|] == prev;
    }
  }

  /** Everything the first strategy finds is kept unfiltered, in order, at
      the front of the merged list, duplicates included. */
  lemma StrategyOneKept(query: string, geocode: Geocoder)
    requires geocode(StrategyLookups(query)[0]).Some?
    ensures var found := geocode(StrategyLookups(query)[0]).value;
      |found| <= |Merged(query, geocode)| && Merged(query, geocode)[..|found|] == found
  {
    AbsorbSpec([], geocode(StrategyLookups(query)[0]), false);
    AccumulatedGrows(query, geocode, 1, |StrategyLookups(query)|);
  }

  /** Strategy `n` (the second or the third) adds nothing when its lookup
      fails, and otherwise adds exactly those of its results whose name and
      country match no entry accumulated by the strategies before it: in
      the order the lookup returned them, each as many times as it was
      returned. */
  lemma LaterStrategyAddsOnlyUnseen(query: string, geocode: Geocoder, n: nat)
    requires 2 <= n <= |StrategyLookups(query)|
    ensures var before := Accumulated(query, geocode, n - 1);
      var after := Accumulated(query, geocode, n);
      var outcome := geocode(StrategyLookups(query)[n - 1]);
      && after[..|before|] == before
      && (outcome.None? ==> after == before)
      && (outcome.Some? ==> IsSubsequence(after[|before|..], outcome.value))
      && (forall x :: x in after[|before|..] <==> outcome.Some? && x in outcome.value && !Known(before, x))
      && (forall x :: multiset(after[|before|..])[x] ==
            if outcome.None? || Known(before, x) then 0 else multiset(outcome.value)[x])
  {
    AbsorbSpec(Accumulated(query, geocode, n - 1), geocode(StrategyLookups(query)[n - 1]), true);
  }

  /** The fixed table of major Indian cities consulted when every strategy
      came back empty. */
  const FallbackCities: seq<string> :=
    ["Mumbai", "Delhi", "Bangalore", "Hyderabad", "Chennai",
     "Kolkata", "Pune", "Ahmedabad", "Jaipur", "Lucknow",
     "Kanpur", "Nagpur", "Indore", "Thane", "Bhopal",
     "Visakhapatnam", "Patna", "Vadodara", "Ghaziabad", "Ludhiana"]

  /** The table cities, in table order, whose lowercased name contains the
      lowercased query. */
  function MatchingCities(cities: seq<string>, queryLower: string): (r: seq<string>)
    ensures |r| <= |cities|
    ensures forall n :: n in r <==> n in cities && Contains(Lowercased(n), queryLower)
  {
    if cities == [] then []
    else (if Contains(Lowercased(cities[0]), queryLower) then [cities[0]] else [])
         + MatchingCities(cities[1..], queryLower)
  }

  /** Filtering the table works name by name: the matches of a
      concatenation are the matches of each part, in order. */
  lemma {:induction false} MatchingCitiesAppend(c1: seq<string>, c2: seq<string>, queryLower: string)
    ensures MatchingCities(c1 + c2, queryLower) == MatchingCities(c1, queryLower) + MatchingCities(c2, queryLower)
  {
    if c1 == [] {
      assert c1 + c2 == c2;
    } else {
      assert (c1 + c2)[1..] == c1[1..] + c2;
      MatchingCitiesAppend(c1[1..], c2, queryLower);
    }
  }

  /** A matching name is kept as many times as the table lists it; any
      other name not at all. */
  lemma {:induction false} MatchingCitiesCount(cities: seq<string>, queryLower: string, n: string)
    ensures multiset(MatchingCities(cities, queryLower))[n] ==
      if Contains(Lowercased(n), queryLower) then multiset(cities)[n] else 0
  {
    if cities != [] {
      MatchingCitiesCount(cities[1..], queryLower, n);
      assert cities == [cities[0]] + cities[1..];
    }
  }

  /** The matches keep their table order. */
  lemma {:induction false} MatchingCitiesInOrder(cities: seq<string>, queryLower: string)
    ensures IsSubsequence(MatchingCities(cities, queryLower), cities)
  {
    if cities != [] {
      MatchingCitiesInOrder(cities[1..], queryLower);
      var r := MatchingCities(cities, queryLower);
      var rest := MatchingCities(cities[1..], queryLower);
      if Contains(Lowercased(cities[0]), queryLower) {
        assert r[0] == cities[0] && r[1..] == rest;
      } else if rest != [] {
        assert r == rest;
        assert IsSubsequence(r, cities[1..]);
      }
    }
  }

  /** The table lists each city once. */
  lemma FallbackCitiesDistinct()
    ensures forall i, j :: 0 <= i < j < |FallbackCities| ==> FallbackCities[i] != FallbackCities[j]
  {
    forall i, j | 0 <= i < j < |FallbackCities|
      ensures FallbackCities[i] != FallbackCities[j]
    {
      var a, b := FallbackCities[i], FallbackCities[j];
      assert |a| != |b| || a[0] != b[0] || a[1] != b[1];
    }
  }

  lemma {:induction false} DistinctCountAtMostOne(names: seq<string>, n: string)
    requires forall i, j :: 0 <= i < j < |names| ==> names[i] != names[j]
    ensures multiset(names)[n] <= 1
  {
    if names != [] {
      DistinctCountAtMostOne(names[1..], n);
      assert names == [names[0]] + names[1..];
      if names[0] == n {
        assert n !in names[1..];
      }
    }
  }

  /** A fallback result: country "IN", no state, and the coordinates (0, 0)
      that mark it for the coordinate backfill. */
  function FallbackLocation(name: string): Location {
    Location(name, 0.0, 0.0, "IN", None)
  }

  function FallbackLocations(names: seq<string>): (r: seq<Location>)
    ensures |r| == |names|
    ensures forall i :: 0 <= i < |names| ==> r[i] == FallbackLocation(names[i])
  {
    seq(|names|, i requires 0 <= i < |names| => FallbackLocation(names[i]))
  }

  /** Each name gives one entry: an entry occurs as often as its name. */
  lemma {:induction false} FallbackLocationsCount(names: seq<string>, n: string)
    ensures multiset(FallbackLocations(names))[FallbackLocation(n)] == multiset(names)[n]
  {
    if names != [] {
      FallbackLocationsCount(names[1..], n);
      assert names == [names[0]] + names[1..];
      assert FallbackLocations(names) == [FallbackLocation(names[0])] + FallbackLocations(names[1..]);
    }
  }

  lemma FallbackLocationsSnoc(names: seq<string>, i: nat)
    requires i < |names|
    ensures FallbackLocations(names[..i + 1]) == FallbackLocations(names[..i]) + [FallbackLocation(names[i])]
  {
  }

  /** The names of a list of locations, in order. */
  function NamesOf(s: seq<Location>): (r: seq<string>)
    ensures |r| == |s| && forall i :: 0 <= i < |s| ==> r[i] == s[i].name
  {
    seq(|s|, i requires 0 <= i < |s| => s[i].name)
  }

  /** What the fallback yields for a query. */
  lemma FallbackEntries(query: string)
    ensures var r := FallbackLocations(MatchingCities(FallbackCities, Lowercased(query)));
      && (forall x :: x in r ==> x.lat == 0.0 && x.lon == 0.0 && x.country == "IN" && x.state == None
                                 && x.name in FallbackCities && Contains(Lowercased(x.name), Lowercased(query)))
      && (forall n :: n in FallbackCities && Contains(Lowercased(n), Lowercased(query)) ==> FallbackLocation(n) in r)
  {
    var names := MatchingCities(FallbackCities, Lowercased(query));
    var r := FallbackLocations(names);
    forall n | n in FallbackCities && Contains(Lowercased(n), Lowercased(query))
      ensures FallbackLocation(n) in r
    {
      var i :| 0 <= i < |names| && names[i] == n;
      assert r[i] == FallbackLocation(n);
    }
  }

  /** The list before sorting: the merged strategy results, or the fallback
      cities when there are none. It is empty only when no strategy found
      anything and no table city matches. */
  function Gathered(query: string, geocode: Geocoder): (r: seq<Location>)
    ensures r == [] <==> (Merged(query, geocode) == [] &&
      forall n :: n in FallbackCities ==> !Contains(Lowercased(n), Lowercased(query)))
  {
    var merged := Merged(query, geocode);
    var names := MatchingCities(FallbackCities, Lowercased(query));
    assert names != [] ==> names[0] in names;
    if merged == [] then FallbackLocations(names) else merged
  }

  /** The fallback table is consulted only when no strategy found
      anything, and then the list holds the table cities that match, each
      exactly once, in table order, each with (0, 0), "IN" and no state. */
  lemma FallbackOnlyWhenNothingFound(query: string, geocode: Geocoder)
    ensures Merged(query, geocode) != [] ==> Gathered(query, geocode) == Merged(query, geocode)
    ensures Merged(query, geocode) == [] ==>
      && (forall x :: x in Gathered(query, geocode) ==>
            x.lat == 0.0 && x.lon == 0.0 && x.country == "IN" && x.state == None
            && x.name in FallbackCities && Contains(Lowercased(x.name), Lowercased(query)))
      && (forall n :: n in FallbackCities && Contains(Lowercased(n), Lowercased(query)) ==>
            multiset(Gathered(query, geocode))[FallbackLocation(n)] == 1)
      && IsSubsequence(NamesOf(Gathered(query, geocode)), FallbackCities)
  {
    FallbackEntries(query);
    FallbackEachOnce(query);
    FallbackInTableOrder(query);
  }

  /** Each matching table city gives exactly one fallback entry. */
  lemma FallbackEachOnce(query: string)
    ensures forall n :: n in FallbackCities && Contains(Lowercased(n), Lowercased(query)) ==>
      multiset(FallbackLocations(MatchingCities(FallbackCities, Lowercased(query))))[FallbackLocation(n)] == 1
  {
    forall n | n in FallbackCities && Contains(Lowercased(n), Lowercased(query))
      ensures multiset(FallbackLocations(MatchingCities(FallbackCities, Lowercased(query))))[FallbackLocation(n)] == 1
    {
      FallbackCityListedOnce(n);
      MatchListedOnce(FallbackCities, Lowercased(query), n);
    }
  }

  lemma MatchListedOnce(cities: seq<string>, queryLower: string, n: string)
    requires n in cities && Contains(Lowercased(n), queryLower) && multiset(cities)[n] <= 1
    ensures multiset(FallbackLocations(MatchingCities(cities, queryLower)))[FallbackLocation(n)] == 1
  {
    FallbackLocationsCount(MatchingCities(cities, queryLower), n);
    MatchingCitiesCount(cities, queryLower, n);
  }

  lemma FallbackCityListedOnce(n: string)
    ensures multiset(FallbackCities)[n] <= 1
  {
    FallbackCitiesDistinct();
    DistinctCountAtMostOne(FallbackCities, n);
  }

  /** The fallback entries follow the table order. */
  lemma FallbackInTableOrder(query: string)
    ensures IsSubsequence(NamesOf(FallbackLocations(MatchingCities(FallbackCities, Lowercased(query)))), FallbackCities)
  {
    var names := MatchingCities(FallbackCities, Lowercased(query));
    MatchingCitiesInOrder(FallbackCities, Lowercased(query));
    assert NamesOf(FallbackLocations(names)) == names;
  }

  /** The merge does not remove duplicates globally: a lookup that returns
      the same city twice leaves both copies in the answer. */
  lemma DuplicatesFromOneLookupSurvive()
    ensures var pune := Location("Pune", 18.52, 73.86, "IN", None);
      var geocode: Geocoder := (l: Lookup) => Some([pune, pune]);
      Rank(Gathered("Pune", geocode), Lowercased("Pune")) == [pune, pune]
  {
    var pune := Location("Pune", 18.52, 73.86, "IN", None);
    var geocode: Geocoder := (l: Lookup) => Some([pune, pune]);
    var a1 := Accumulated("Pune", geocode, 1);
    assert a1 == [pune, pune];
    assert Known(a1, pune) by { assert SameIdentity(a1[0], pune); }
    assert NewOnly(a1, [pune, pune]) == [];
    assert Accumulated("Pune", geocode, 2) == a1;
    assert Accumulated("Pune", geocode, 3) == a1;
    assert Rank([pune], Lowercased("Pune")) == [pune];
    NamePrecedesIrreflexive("Pune", Lowercased("Pune"));
  }

  /** Strategies 1 to 3 of `searchCity` for a trimmed, non-empty query:
      the merged list, and the requests sent, in order. */
  method RunStrategies(cleanQuery: string, geocode: Geocoder)
    returns (allLocations: seq<Location>, ghost lookups: seq<Lookup>)
    ensures allLocations == Merged(cleanQuery, geocode)
    ensures lookups == StrategyLookups(cleanQuery)
  {
    allLocations := [];

    // Strategy 1: the query itself; everything found is kept.
    var exact := Lookup(cleanQuery, SearchLimit);
    var found := geocode(exact);
    lookups := [exact];
    if found.Some? {
      allLocations := allLocations + found.value;
    }
    assert allLocations == Accumulated(cleanQuery, geocode, 1) by {
      assert Accumulated(cleanQuery, geocode, 0) == [];
    }

    // Strategy 2: ", India" appended; only identities not yet seen.
    var india := Lookup(cleanQuery + ", India", SearchLimit);
    found := geocode(india);
    lookups := lookups + [india];
    if found.Some? {
      var newLocations := NewOnly(allLocations, found.value);
      allLocations := allLocations + newLocations;
    }
    assert allLocations == Accumulated(cleanQuery, geocode, 2);

    // Strategy 3: the first three characters, for longer queries.
    if |cleanQuery| > 3 {
      var prefix := Lookup(cleanQuery[..3], SearchLimit);
      found := geocode(prefix);
      lookups := lookups + [prefix];
      if found.Some? {
        var newLocations := NewOnly(allLocations, found.value);
        allLocations := allLocations + newLocations;
      }
      assert allLocations == Accumulated(cleanQuery, geocode, 3);
    }
  }

  /** `searchCity(query:)` with `apiKey` as the configured key. `lookups` is
      the list of geocoding requests sent, in order. */
  method SearchCity(apiKey: string, query: string, geocode: Geocoder)
    returns (result: Result<seq<Location>, NetworkError>, ghost lookups: seq<Lookup>)
    ensures apiKey == PlaceholderApiKey ==> result == Failure(ApiKeyMissing)
    ensures apiKey != PlaceholderApiKey && AllWhitespace(query) ==> result == Success([])
    ensures apiKey != PlaceholderApiKey && !AllWhitespace(query) ==>
      result == Success(Rank(Gathered(Trim(query), geocode), Lowercased(Trim(query))))
    ensures apiKey == PlaceholderApiKey || AllWhitespace(query) ==> lookups == []
    ensures apiKey != PlaceholderApiKey && !AllWhitespace(query) ==>
      lookups == StrategyLookups(Trim(query))
  {
    if apiKey == PlaceholderApiKey {
      return Failure(ApiKeyMissing), [];
    }
    var cleanQuery := Trim(query);
    if cleanQuery == [] {
      return Success([]), [];
    }
    var allLocations;
    allLocations, lookups := RunStrategies(cleanQuery, geocode);

    // Fallback: the table cities that contain the query.
    if allLocations == [] {
      var matchingCities := MatchingCities(FallbackCities, Lowercased(cleanQuery));
      for i := 0 to |matchingCities|
        invariant allLocations == FallbackLocations(matchingCities[..i])
      {
        FallbackLocationsSnoc(matchingCities, i);
        allLocations := allLocations + [FallbackLocation(matchingCities[i])];
      }
      assert matchingCities[..|matchingCities|] == matchingCities;
    }

    var queryLower := Lowercased(cleanQuery);
    allLocations := Rank(allLocations, queryLower);
    return Success(allLocations), lookups;
  }
}
