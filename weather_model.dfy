/** The value types of the weather models: the geocoding `Location` record,
    the weather response parts the view model reads, and the compass label
    of `Wind.direction`. */
module WeatherModel {
  import opened Wrappers

  /** A geocoding result. Every field is a `let`, so a changed location is a
      new value. Latitude and longitude are compared only with zero here,
      so they are kept as exact reals. */
  datatype Location = Location(name: string, lat: real, lon: real, country: string, state: Option<string>)

  /** One entry of the `weather` array of a weather response. */
  datatype Weather = Weather(id: int, main: string, description: string, icon: string)

  datatype Wind = Wind(speed: real, deg: int)

  /** The parts of a weather response that the modelled code reads. */
  datatype WeatherResponse = WeatherResponse(weather: seq<Weather>, wind: Wind, name: string)

  /** The sixteen compass points, clockwise from north. */
  const Directions: seq<string> :=
    ["N", "NNE", "NE", "ENE", "E", "ESE", "SE", "SSE", "S", "SSW", "SW", "WSW", "W", "WNW", "NW", "NNW"]

  /** `(Double(deg) / 22.5).rounded()`: the whole number of 22.5-degree
      sectors nearest to `deg`. An odd multiple of 11.25 is never a whole
      number of degrees, so there is never a tie to break. */
  function RoundedSector(deg: int): (k: int)
    ensures (k as real - 0.5) * 22.5 < deg as real < (k as real + 0.5) * 22.5
  {
    if deg >= 0 then SectorOf(deg) else -(SectorOf(-deg) as int)
  }

  function SectorOf(n: nat): (k: nat)
    ensures 90 * k < 4 * n + 45 < 90 * k + 90
    ensures (k as real - 0.5) * 22.5 < n as real < (k as real + 0.5) * 22.5
  {
    var m := 4 * n + 45;
    var k, r := m / 90, m % 90;
    assert m == 90 * k + r && 0 <= r < 90;
    assert r != 0 by {
      assert m == 2 * (2 * n + 22) + 1;
      assert 90 * k == 2 * (45 * k);
    }
    SectorBounds(n, k);
    k
  }

  /** The integer bounds of a sector, restated in degrees. */
  lemma SectorBounds(n: nat, k: nat)
    requires 90 * k < 4 * n + 45 < 90 * k + 90
    ensures (k as real - 0.5) * 22.5 < n as real < (k as real + 0.5) * 22.5
  {
    var lo, hi := 90 * k - 45, 90 * k + 45;
    assert lo < 4 * n < hi;
    assert lo as real < 4.0 * n as real < hi as real;
    assert (k as real - 0.5) * 22.5 == lo as real / 4.0;
    assert (k as real + 0.5) * 22.5 == hi as real / 4.0;
  }

  /** Swift's `%` on `Int`: the remainder truncates toward zero, so it has
      the sign of the dividend. */
  function SwiftRem16(n: int): (r: int)
    ensures -16 < r < 16 && (n - r) % 16 == 0
    ensures n >= 0 ==> r >= 0
    ensures n <= 0 ==> r <= 0
  {
    if n >= 0 then n % 16 else -((-n) % 16)
  }

  /** The rounded sector is negative exactly for bearings of -12 or less. */
  lemma SectorSign(deg: int)
    ensures RoundedSector(deg) >= 0 <==> deg >= -11
  {
    if deg < 0 {
      var k := SectorOf(-deg);
      assert 90 * k < 4 * -deg + 45 < 90 * k + 90;
      assert k == 0 <==> deg >= -11;
    }
  }

  /** `Wind.direction`. Indexing the table with a negative remainder traps
      in Swift; that outcome is `None` here. */
  function Direction(deg: int): (d: Option<string>)
    ensures d.Some? <==> deg >= -11 || RoundedSector(deg) % 16 == 0
    ensures d.Some? ==> d.value == Directions[RoundedSector(deg) % 16]
  {
    var k := RoundedSector(deg);
    var i := SwiftRem16(k);
    SectorSign(deg);
    assert i >= 0 <==> k >= 0 || k % 16 == 0;
    assert i >= 0 ==> i == k % 16;
    if 0 <= i < |Directions| then Some(Directions[i]) else None
  }

  /** Every non-negative bearing has a label. */
  lemma DirectionDefinedForBearings(deg: int)
    requires deg >= 0
    ensures Direction(deg).Some?
    ensures Direction(deg).value in Directions
  {
  }

  /** The four cardinal points and the full turn. */
  lemma CardinalDirections()
    ensures Direction(0) == Some("N") && Direction(90) == Some("E")
    ensures Direction(180) == Some("S") && Direction(270) == Some("W")
    ensures Direction(360) == Some("N")
  {
    assert RoundedSector(90) == 4;
    assert RoundedSector(180) == 8;
    assert RoundedSector(270) == 12;
    assert RoundedSector(360) == 16;
  }

  /** A full turn does not change the label. */
  lemma {:induction false} DirectionPeriodic(deg: int)
    requires deg >= 0
    ensures Direction(deg + 360) == Direction(deg)
  {
    var k, k' := SectorOf(deg), SectorOf(deg + 360);
    assert k' == k + 16 by {
      assert 90 * k' < 4 * deg + 1485 < 90 * k' + 90;
      assert 90 * (k + 16) < 4 * deg + 1485 < 90 * (k + 16) + 90;
    }
    assert RoundedSector(deg + 360) % 16 == RoundedSector(deg) % 16;
  }

  /** A bearing just past eleven degrees west of north rounds to sector -1,
      whose truncating remainder is -1: the lookup traps. */
  lemma NegativeBearingTraps()
    ensures Direction(-11) == Some("N")
    ensures Direction(-12) == None
  {
    assert RoundedSector(-11) == 0;
    assert RoundedSector(-12) == -1;
  }
}
