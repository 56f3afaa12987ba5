/**
 * How a report's location is shown: a non-blank address as it is, otherwise
 * the coordinates as "40.7128°N, 74.0060°W", otherwise a fixed text. Record
 * fields may be missing, and a coordinate of 0 counts as missing.
 */
module LocationUtils {
  import opened Wrappers
  import opened Text
  import ShortId

  /** `s && s.trim() !== ''`: present and not whitespace only. */
  predicate HasText(s: Option<string>) {
    s.Some? && !IsBlank(s.value)
  }

  /** A number is truthy unless absent or zero. */
  predicate Truthy(x: Option<real>) {
    x.Some? && x.value != 0.0
  }

  function Abs(x: real): (a: real)
    ensures a >= 0.0 && (a == x || a == -x)
  {
    if x < 0.0 then -x else x
  }

  /** `${Math.abs(x).toFixed(4)}°${x >= 0 ? positive : negative}` */
  function CoordinateText(x: real, positive: char, negative: char): (text: string)
    ensures |text| >= 8
    ensures text[|text| - 1] == (if x >= 0.0 then positive else negative)
    ensures text[|text| - 2] == '°'
    ensures text[..|text| - 2] == FixedMagnitude(Abs(x), 4)
  {
    var magnitude := FixedMagnitude(Abs(x), 4);
    RenderScaledDenotes(ScaledRound(Abs(x), 4), 4);
    var direction := if x >= 0.0 then positive else negative;
    DegreeSuffix(magnitude, direction);
    magnitude + "°" + [direction]
  }

  /** The parts of `magnitude°direction`, read from the end. */
  lemma DegreeSuffix(magnitude: string, direction: char)
    ensures var text := magnitude + "°" + [direction];
      && |text| == |magnitude| + 2
      && text[|text| - 1] == direction && text[|text| - 2] == '°'
      && text[..|text| - 2] == magnitude
  {
    var text := magnitude + "°" + [direction];
    assert text[..|text| - 2] == magnitude;
  }

  /** The magnitude part is digits and one point, so the text carries no minus sign. */
  lemma CoordinateTextUnsigned(x: real, positive: char, negative: char)
    requires positive != '-' && negative != '-'
    ensures '-' !in CoordinateText(x, positive, negative)
  {
    var text := CoordinateText(x, positive, negative);
    var m := FixedMagnitude(Abs(x), 4);
    RenderScaledChars(ScaledRound(Abs(x), 4), 4);
    assert text == m + "°" + [text[|text| - 1]];
  }

  /** `formatLocationText(lat, lng, address?)` */
  function FormatLocationText(lat: real, lng: real, address: Option<string>): (text: string)
    ensures HasText(address) ==> text == address.value
    ensures !HasText(address) ==> text == CoordinateText(lat, 'N', 'S') + ", " + CoordinateText(lng, 'E', 'W')
    ensures !IsBlank(text)
  {
    if HasText(address) then address.value
    else
      var latText := CoordinateText(lat, 'N', 'S');
      var text := latText + ", " + CoordinateText(lng, 'E', 'W');
      assert text[|latText| - 1] == latText[|latText| - 1];
      text
  }

  lemma LatitudeMagnitude()
    ensures FixedMagnitude(40.7128, 4) == "40.7128"
  {
    assert Pow10(4) == 10000;
    assert ScaledRound(40.7128, 4) == 407128;
    assert Quotient(407128, 10000) == 40 && Remainder(407128, 10000) == 7128;
    assert NatToString(40) == "40" by {
      assert NatToString(4) == "4";
    }
    assert NatToString(712) == "712" by {
      assert NatToString(7) == "7";
      assert NatToString(71) == "71";
    }
    assert NatToString(7128) == "7128";
    assert PadStart("7128", 4, '0') == "7128";
    assert RenderScaled(407128, 4) == "40" + "." + "7128";
  }

  lemma LongitudeMagnitude()
    ensures FixedMagnitude(74.006, 4) == "74.0060"
  {
    assert Pow10(4) == 10000;
    assert ScaledRound(74.006, 4) == 740060;
    assert Quotient(740060, 10000) == 74 && Remainder(740060, 10000) == 60;
    assert NatToString(74) == "74" by {
      assert NatToString(7) == "7";
    }
    assert NatToString(60) == "60" by {
      assert NatToString(6) == "6";
    }
    assert Repeat('0', 2) == "00";
    assert PadStart("60", 4, '0') == "0060";
  }

  lemma LatitudeExample()
    ensures CoordinateText(40.7128, 'N', 'S') == "40.7128°N"
  {
    LatitudeMagnitude();
    assert Abs(40.7128) == 40.7128;
  }

  lemma LongitudeExample()
    ensures CoordinateText(-74.006, 'E', 'W') == "74.0060°W"
  {
    var a := Abs(-74.006);
    assert a == 74.006;
    LongitudeMagnitude();
    assert FixedMagnitude(a, 4) == "74.0060";
  }

  /** New York City's coordinates, shown without an address. */
  lemma NewYorkExample()
    ensures FormatLocationText(40.7128, -74.006, None) == "40.7128°N, 74.0060°W"
  {
    JoinExample(FormatLocationText(40.7128, -74.006, None),
                CoordinateText(40.7128, 'N', 'S'), CoordinateText(-74.006, 'E', 'W'));
    LatitudeExample();
    LongitudeExample();
  }

  lemma JoinExample(t: string, lat: string, lng: string)
    requires t == lat + ", " + lng
    ensures lat == "40.7128°N" && lng == "74.0060°W" ==> t == "40.7128°N, 74.0060°W"
  {
  }

  datatype Place = Place(address: Option<string>, lat: Option<real>, lng: Option<real>)

  /** The location fields of a report record, flat or nested under `location`. */
  datatype LocatedRecord = LocatedRecord(
    locationAddress: Option<string>,
    location: Option<Place>,
    locationLat: Option<real>,
    locationLng: Option<real>)

  predicate NestedAddress(r: LocatedRecord) {
    r.location.Some? && HasText(r.location.value.address)
  }

  predicate NestedCoordinates(r: LocatedRecord) {
    r.location.Some? && Truthy(r.location.value.lat) && Truthy(r.location.value.lng)
  }

  /**
   * `getLocationDisplay`: the flat address, the nested address, the flat
   * coordinates, the nested coordinates, then "Location not specified".
   */
  function GetLocationDisplay(r: LocatedRecord): (text: string)
    ensures HasText(r.locationAddress) ==> text == r.locationAddress.value
    ensures !HasText(r.locationAddress) && NestedAddress(r) ==> text == r.location.value.address.value
    ensures !HasText(r.locationAddress) && !NestedAddress(r) && Truthy(r.locationLat) && Truthy(r.locationLng) ==>
      text == FormatLocationText(r.locationLat.value, r.locationLng.value, None)
    ensures (!HasText(r.locationAddress) && !NestedAddress(r) && !(Truthy(r.locationLat) && Truthy(r.locationLng))
      && NestedCoordinates(r)) ==>
      text == FormatLocationText(r.location.value.lat.value, r.location.value.lng.value, None)
    ensures (!HasText(r.locationAddress) && !NestedAddress(r) && !(Truthy(r.locationLat) && Truthy(r.locationLng))
      && !NestedCoordinates(r)) ==> text == "Location not specified"
    ensures !IsBlank(text)
  {
    if HasText(r.locationAddress) then r.locationAddress.value
    else if NestedAddress(r) then r.location.value.address.value
    else if Truthy(r.locationLat) && Truthy(r.locationLng) then
      FormatLocationText(r.locationLat.value, r.locationLng.value, None)
    else if NestedCoordinates(r) then
      FormatLocationText(r.location.value.lat.value, r.location.value.lng.value, None)
    else
      assert "Location not specified"[0] == 'L';
      "Location not specified"
  }

  /** A report on the equator or the prime meridian, with no address, shows no location at all. */
  lemma ZeroCoordinateCountsAsMissing(lng: real)
    ensures GetLocationDisplay(LocatedRecord(None, None, Some(0.0), Some(lng))) == "Location not specified"
    ensures GetLocationDisplay(LocatedRecord(None, None, Some(lng), Some(0.0))) == "Location not specified"
  {
  }

  /** The nested record is consulted only when the flat fields give nothing. */
  lemma FlatFieldsTakePrecedence(r: LocatedRecord, other: Option<Place>)
    requires HasText(r.locationAddress) || (!NestedAddress(r) && !NestedAddress(r.(location := other))
      && Truthy(r.locationLat) && Truthy(r.locationLng))
    ensures GetLocationDisplay(r) == GetLocationDisplay(r.(location := other))
  {
  }

  /** `generateShortId` here is the same six-draw code as in the short id utilities. */
  method GenerateShortId(rolls: seq<real>) returns (id: string)
    requires |rolls| == 6
    requires forall i :: 0 <= i < 6 ==> 0.0 <= rolls[i] < 1.0
    ensures |id| == 6
    ensures forall i :: 0 <= i < 6 ==> ShortId.IsAlphabetChar(id[i])
  {
    id := ShortId.GenerateShortId(rolls);
  }
}
