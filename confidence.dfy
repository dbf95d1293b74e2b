/**
 The two helpers of the probable-location engine: the banding of a percentage into a
 confidence text, and the reduction of a reverse-geocoded address to a town and a country.
 */
module Confidence {
  import opened Wrappers

  /** The seven bands of `translate_confidence`, lowest first. */
  datatype Band = ExtremelyLow | VeryLow | Low | Okay | LittleHigh | VeryHigh | ExtremelyHigh {
    function Rank(): nat {
      match this
      case ExtremelyLow => 0
      case VeryLow => 1
      case Low => 2
      case Okay => 3
      case LittleHigh => 4
      case VeryHigh => 5
      case ExtremelyHigh => 6
    }

    function Text(): string {
      match this
      case ExtremelyLow => "Extremely low"
      case VeryLow => "Very low"
      case Low => "Low"
      case Okay => "Okay"
      case LittleHigh => "Little high"
      case VeryHigh => "Very high"
      case ExtremelyHigh => "Extremely high"
    }
  }

  /** The percentage at which the band of rank `k` (1 to 6) begins. */
  function Floor(k: nat): real
    requires 1 <= k <= 6
  {
    [10.0, 20.0, 40.0, 60.0, 80.0, 100.0][k - 1]
  }

  /** `translate_confidence`: the band whose range holds the percentage. */
  function TranslateConfidence(percents: real): (b: Band)
    ensures b.Rank() >= 1 ==> percents >= Floor(b.Rank())
    ensures b.Rank() <= 5 ==> percents < Floor(b.Rank() + 1)
  {
    if percents >= 100.0 then ExtremelyHigh
    else if percents >= 80.0 then VeryHigh
    else if percents >= 60.0 then LittleHigh
    else if percents >= 40.0 then Okay
    else if percents >= 20.0 then Low
    else if percents >= 10.0 then VeryLow
    else ExtremelyLow
  }

  /** A larger percentage never falls in a lower band. */
  lemma TranslateMonotone(p: real, q: real)
    requires p <= q
    ensures TranslateConfidence(p).Rank() <= TranslateConfidence(q).Rank()
  {
  }

  /** Different bands have different texts and different ranks. */
  lemma BandsDistinct(b: Band, c: Band)
    ensures b.Text() == c.Text() <==> b == c
    ensures b.Rank() == c.Rank() <==> b == c
  {
  }

  // ---------------------------------------------------------------- sanitize_location

  /** The keys that may name the town, in the order GHunt prefers them. */
  const TownKeys: seq<string> := ["city", "village", "town", "municipality"]

  /** The first town-like key present, if any. */
  function TownKey(address: map<string, string>): (k: Option<string>)
    ensures k.Some? ==> k.value in TownKeys && k.value in address
    ensures k.Some? ==> forall j :: 0 <= j < |TownKeys| && TownKeys[j] == k.value ==>
              forall i :: 0 <= i < j ==> TownKeys[i] !in address
    ensures k.None? <==> forall t :: t in TownKeys ==> t !in address
  {
    if "city" in address then Some("city")
    else if "village" in address then Some("village")
    else if "town" in address then Some("town")
    else if "municipality" in address then Some("municipality")
    else None
  }

  /** `sanitize_location`: None (the Python code's False) when the address has neither a
      town-like key nor a country; otherwise the address with "town" set to the
      preferred town name (or "?") and "country" filled with "?" when missing. */
  function SanitizeLocation(address: map<string, string>): (r: Option<map<string, string>>)
    ensures r.None? <==> TownKey(address).None? && "country" !in address
    ensures r.Some? ==> r.value.Keys == address.Keys + {"town", "country"}
    ensures r.Some? ==> r.value["town"] == (if TownKey(address).Some? then address[TownKey(address).value] else "?")
    ensures r.Some? ==> r.value["country"] == (if "country" in address then address["country"] else "?")
    ensures r.Some? ==> forall k :: k in address && k != "town" && k != "country" ==> r.value[k] == address[k]
  {
    var town := if TownKey(address).Some? then address[TownKey(address).value] else "?";
    var noTown := TownKey(address).None?;
    var noCountry := "country" !in address;
    var filled := if noCountry then address["country" := "?"] else address;
    if noCountry && noTown then None else Some(filled["town" := town])
  }

  /** The town prefers "city" over every other key, even over an existing "town". */
  lemma CityWins(address: map<string, string>)
    requires "city" in address
    ensures SanitizeLocation(address).Some? && SanitizeLocation(address).value["town"] == address["city"]
  {
  }

  /** Sanitizing a sanitized address changes nothing: the key the town was taken from, or
      "town" itself, still names the same town. */
  lemma SanitizeStable(address: map<string, string>)
    requires SanitizeLocation(address).Some?
    ensures SanitizeLocation(SanitizeLocation(address).value) == SanitizeLocation(address)
  {
    var t := SanitizeLocation(address).value;
    assert t[TownKey(t).value] == t["town"];
    assert SanitizeLocation(t).value.Keys == t.Keys;
    assert SanitizeLocation(t).value == t;
  }
}
