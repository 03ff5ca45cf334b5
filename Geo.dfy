/**
 * The lookups of server/geo/jma.go that turn a municipal code (as returned by
 * the reverse geocoder) into a city record: the binary search for the
 * city-level code, the parent-code chain through the area table, and the
 * forecast-code override.
 *
 * The list of city-level codes (`cityCodes`, read from an embedded file) and
 * the area table (`jmaAreaData`, fetched from the network at start-up) are
 * parameters here. A Go run-time panic (an index out of range) is the error
 * value `IndexOutOfRange`.
 */
module Geo {
  import opened Wrappers
  import opened GoStrings

  predicate StrictlyAscending(codes: seq<string>) {
    forall i, j | 0 <= i < j < |codes| :: Less(codes[i], codes[j])
  }

  /**
   * Reference definition by a scan from the back: the index of the last code
   * that is `<= code`, or -1 when there is none.
   */
  function FloorIndex(codes: seq<string>, code: string): (k: int)
    ensures -1 <= k < |codes|
    ensures k >= 0 ==> LessEq(codes[k], code)
    ensures forall j | k < j < |codes| :: Less(code, codes[j])
  {
    if codes == [] then -1
    else if LessEq(codes[|codes| - 1], code) then |codes| - 1
    else
      NotLessIsLessEq(code, codes[|codes| - 1]);
      FloorIndex(codes[..|codes| - 1], code)
  }

  /** In an ascending list the reference index is the greatest element not above `code`. */
  lemma FloorIsGreatestAtMost(codes: seq<string>, code: string)
    requires StrictlyAscending(codes)
    ensures var k := FloorIndex(codes, code);
      && (k < 0 <==> forall j | 0 <= j < |codes| :: Less(code, codes[j]))
      && (k >= 0 ==> forall j | 0 <= j < |codes| && LessEq(codes[j], code) :: LessEq(codes[j], codes[k]))
  {
    var k := FloorIndex(codes, code);
    if k >= 0 {
      NotLessIsLessEq(code, codes[k]);
      forall j | 0 <= j < |codes| && LessEq(codes[j], code)
        ensures LessEq(codes[j], codes[k])
      {
        if j > k {
          NotLessIsLessEq(code, codes[j]);
        }
      }
    }
  }

  /** A code bracketed by positions `k` and `k + 1` has reference index `k`. */
  lemma FloorIndexAt(codes: seq<string>, code: string, k: int)
    requires StrictlyAscending(codes)
    requires 0 <= k < |codes| && LessEq(codes[k], code)
    requires k + 1 < |codes| ==> Less(code, codes[k + 1])
    ensures FloorIndex(codes, code) == k
  {
    var f := FloorIndex(codes, code);
    NotLessIsLessEq(code, codes[k]);
    if f > k {
      if f > k + 1 {
        LessTransitive(code, codes[k + 1], codes[f]);
      }
      NotLessIsLessEq(code, codes[f]);
    }
  }

  /** A Go run-time panic. */
  datatype Panic = IndexOutOfRange(index: int)

  /**
   * What `localCodeToCityCode` returns for an ascending list, case by case:
   * it panics on an empty list and, with at most two codes, on a code below
   * the first; with three or more it returns the first code for a code below
   * it; inside the list's range it returns the reference floor; from the last
   * code up it returns the second-to-last one.
   */
  function CityCodeAsWritten(codes: seq<string>, code: string): Result<string, Panic> {
    var n := |codes|;
    if n == 0 then Err(IndexOutOfRange(0))
    else if Less(code, codes[0]) then
      if n <= 2 then Err(IndexOutOfRange(-1)) else Ok(codes[0])
    else if Less(code, codes[n - 1]) then
      NotLessIsLessEq(code, codes[0]);
      Ok(codes[FloorIndex(codes, code)])
    else Ok(codes[if n == 1 then 0 else n - 2])
  }

  /** Below the first code every code is above it. */
  lemma BelowFirst(codes: seq<string>, code: string, m: int)
    requires StrictlyAscending(codes) && 0 <= m < |codes|
    ensures Less(code, codes[0]) ==> Less(code, codes[m]) && !Less(codes[m], code)
  {
    if Less(code, codes[0]) {
      if m > 0 {
        LessTransitive(code, codes[0], codes[m]);
      }
      LessAsymmetric(code, codes[m]);
    }
  }

  /** From the last code up, every earlier code is below it. */
  lemma FromLast(codes: seq<string>, code: string, m: int)
    requires StrictlyAscending(codes) && 0 <= m < |codes| - 1
    ensures !Less(code, codes[|codes| - 1]) ==> Less(codes[m], code) && !Less(code, codes[m])
  {
    var last := codes[|codes| - 1];
    if !Less(code, last) {
      NotLessIsLessEq(code, last);
      if code != last {
        LessTransitive(codes[m], last, code);
      }
      LessAsymmetric(codes[m], code);
    }
  }

  /**
   * `localCodeToCityCode`: the binary search over the city-level codes as
   * written, with the final "step back when the code is below the probe".
   */
  method LocalCodeToCityCode(cityCodes: seq<string>, code: string) returns (r: Result<string, Panic>)
    requires StrictlyAscending(cityCodes)
    ensures r == CityCodeAsWritten(cityCodes, code)
  {
    var n := |cityCodes|;
    var left, right := 0, n - 1;
    var mid := 0;
    ghost var found := false;
    while right - left > 1
      invariant n == 0 ==> left == 0 && right == -1 && mid == 0
      invariant n >= 1 ==> 0 <= left <= right <= n - 1
      invariant n >= 2 ==> left < right
      invariant mid == left || mid == right
      invariant left == 0 && right == n - 1 ==> mid == 0
      invariant left > 0 ==> Less(cityCodes[left], code)
      invariant right < n - 1 ==> Less(code, cityCodes[right])
      invariant n >= 1 && Less(code, cityCodes[0]) ==> left == 0 && (right < n - 1 ==> mid == right)
      invariant n >= 1 && !Less(code, cityCodes[n - 1]) ==> right == n - 1 && (left > 0 ==> mid == left)
      invariant !found
      decreases right - left
    {
      mid := (left + right) / 2;
      BelowFirst(cityCodes, code, mid);
      FromLast(cityCodes, code, mid);
      if code == cityCodes[mid] {
        found := true;
        break;
      } else if Less(cityCodes[mid], code) {
        left := mid;
      } else {
        NotLessIsLessEq(cityCodes[mid], code);
        right := mid;
      }
    }

    if n > 0 {
      NotLessIsLessEq(code, cityCodes[0]);
      NotLessIsLessEq(code, cityCodes[left]);
      if found {
        LessIrreflexive(code);
        FloorIndexAt(cityCodes, code, mid);
      } else if !Less(code, cityCodes[0]) && Less(code, cityCodes[n - 1]) {
        FloorIndexAt(cityCodes, code, left);
      } else if left > 0 {
        LessAsymmetric(cityCodes[left], code);
      }
    }

    if mid < 0 || mid >= n {
      return Err(IndexOutOfRange(mid));
    }
    if Less(code, cityCodes[mid]) {
      mid := mid - 1;
    }
    if mid < 0 || mid >= n {
      return Err(IndexOutOfRange(mid));
    }
    return Ok(cityCodes[mid]);
  }

  /**
   * The promise of the function's comment, inside the list's range: a code
   * that is itself city-level comes back unchanged.
   */
  lemma ListedCodeKept(codes: seq<string>, i: nat)
    requires StrictlyAscending(codes) && i < |codes| - 1
    ensures CityCodeAsWritten(codes, codes[i]) == Ok(codes[i])
  {
    var code := codes[i];
    BelowFirst(codes, code, i);
    LessIrreflexive(code);
    FloorIndexAt(codes, code, i);
  }

  /**
   * As written, the last city-level code is not returned for itself: the
   * search never probes the last position and yields the code before it.
   */
  lemma LastCityCodeMisses(codes: seq<string>)
    requires StrictlyAscending(codes) && |codes| >= 2
    ensures var last := codes[|codes| - 1];
      CityCodeAsWritten(codes, last) == Ok(codes[|codes| - 2]) && codes[|codes| - 2] != last
  {
    var last := codes[|codes| - 1];
    LessIrreflexive(last);
    BelowFirst(codes, last, |codes| - 1);
    LessIrreflexive(codes[|codes| - 2]);
  }

  /** The evidently intended result: the greatest city-level code not above `code`, if any. */
  function NearestCityCode(codes: seq<string>, code: string): Option<string> {
    var k := FloorIndex(codes, code);
    if k < 0 then None else Some(codes[k])
  }

  /** Every listed code, the last one included, is its own nearest city-level code. */
  lemma NearestKeepsListedCode(codes: seq<string>, i: nat)
    requires StrictlyAscending(codes) && i < |codes|
    ensures NearestCityCode(codes, codes[i]) == Some(codes[i])
  {
    FloorIndexAt(codes, codes[i], i);
  }

  /** Where the source's search is meant to work, it agrees with the intended result. */
  lemma AsWrittenAgreesInRange(codes: seq<string>, code: string)
    requires StrictlyAscending(codes) && |codes| >= 1
    requires LessEq(codes[0], code) && Less(code, codes[|codes| - 1])
    ensures CityCodeAsWritten(codes, code).Ok?
    ensures NearestCityCode(codes, code) == Some(CityCodeAsWritten(codes, code).value)
  {
    NotLessIsLessEq(code, codes[0]);
  }

  /**
   * The binary search with the upper end handled: the probe range's right end
   * starts past the list, and a code below the first yields no result.
   */
  method CityCode(cityCodes: seq<string>, code: string) returns (r: Option<string>)
    requires StrictlyAscending(cityCodes)
    ensures r == NearestCityCode(cityCodes, code)
  {
    var n := |cityCodes|;
    if n == 0 || Less(code, cityCodes[0]) {
      if n > 0 {
        forall j | 0 <= j < n
          ensures Less(code, cityCodes[j])
        {
          BelowFirst(cityCodes, code, j);
        }
        FloorIsGreatestAtMost(cityCodes, code);
      }
      return None;
    }
    NotLessIsLessEq(code, cityCodes[0]);
    var left, right := 0, n;
    while right - left > 1
      invariant 0 <= left < right <= n
      invariant LessEq(cityCodes[left], code)
      invariant right < n ==> Less(code, cityCodes[right])
      decreases right - left
    {
      var mid := (left + right) / 2;
      if Less(code, cityCodes[mid]) {
        right := mid;
      } else {
        NotLessIsLessEq(code, cityCodes[mid]);
        left := mid;
      }
    }
    FloorIndexAt(cityCodes, code, left);
    return Some(cityCodes[left]);
  }

  /** A JSON value in the area table: only strings matter to the lookups. */
  datatype Json = JString(s: string) | JOther

  /** The area table: class name, then area code, then field name. */
  type AreaData = map<string, map<string, map<string, Json>>>

  /** The table holds a string under `level`, `code` and `field`. */
  predicate HasString(area: AreaData, level: string, code: string, field: string) {
    level in area && code in area[level] && field in area[level][code] &&
    area[level][code][field].JString?
  }

  /** `M(level).M(code).M(field).String()`, or "" when any step fails. */
  function LookupString(area: AreaData, level: string, code: string, field: string): (r: string)
    ensures HasString(area, level, code, field) ==> r == area[level][code][field].s
    ensures !HasString(area, level, code, field) ==> r == ""
  {
    if level in area && code in area[level] && field in area[level][code] then
      match area[level][code][field]
      case JString(s) => s
      case JOther => ""
    else ""
  }

  /** `getParentCode` */
  function GetParentCode(area: AreaData, code: string, level: string): string {
    LookupString(area, level, code, "parent")
  }

  /** `toCityName` */
  function ToCityName(area: AreaData, cityCode: string): string {
    LookupString(area, "class20s", cityCode, "name")
  }

  /** `toPrefName` */
  function ToPrefName(area: AreaData, officeCode: string): string {
    LookupString(area, "offices", officeCode, "name")
  }

  /** The override of two office codes by the code their forecasts are issued under. */
  function ForecastCode(offices: string): (r: string)
    ensures r != offices <==> offices == "014030" || offices == "460040"
    ensures r != "014030" && r != "460040"
  {
    match offices
    case "014030" => "014100"
    case "460040" => "460100"
    case _ => offices
  }

  datatype City = City(
    forecastCode: string,
    prefName: string,
    cityName: string,
    centers: string,
    offices: string,
    class10s: string,
    class15s: string,
    class20s: string)

  /** The record `LatLonToCity` builds from a city-level code. */
  function CityFor(area: AreaData, cityCode: string): City {
    var class20s := cityCode + "00";
    var class15s := GetParentCode(area, class20s, "class20s");
    var class10s := GetParentCode(area, class15s, "class15s");
    var offices := GetParentCode(area, class10s, "class10s");
    var centers := GetParentCode(area, offices, "offices");
    City(ForecastCode(offices), ToPrefName(area, offices), ToCityName(area, class20s),
         centers, offices, class10s, class15s, class20s)
  }

  /**
   * `LatLonToCity` from the municipal code on: the city-level code, then the
   * record; a panic of the search is passed on.
   */
  method CityOfLocalCode(area: AreaData, cityCodes: seq<string>, localCode: string) returns (r: Result<City, Panic>)
    requires StrictlyAscending(cityCodes)
    ensures CityCodeAsWritten(cityCodes, localCode).Err? ==> r == Err(CityCodeAsWritten(cityCodes, localCode).error)
    ensures CityCodeAsWritten(cityCodes, localCode).Ok? ==> r == Ok(CityFor(area, CityCodeAsWritten(cityCodes, localCode).value))
  {
    var cityCode := LocalCodeToCityCode(cityCodes, localCode);
    if cityCode.Err? {
      return Err(cityCode.error);
    }
    return Ok(CityFor(area, cityCode.value));
  }

  /** The area table has no entry under the empty code in any class. */
  predicate NoEmptyCode(area: AreaData) {
    forall level | level in area :: "" !in area[level]
  }

  /**
   * The class20s code is the city code with "00" appended and gives the city
   * code back when the two digits are dropped; each level is the parent
   * entry of the level below it; and, in a table without empty codes, a
   * missing level empties every level above it and the forecast code.
   */
  lemma CityChain(area: AreaData, cityCode: string)
    ensures var c := CityFor(area, cityCode);
      && c.class20s[..|cityCode|] == cityCode && c.class20s[|cityCode|..] == "00"
      && c.class15s == GetParentCode(area, c.class20s, "class20s")
      && c.class10s == GetParentCode(area, c.class15s, "class15s")
      && c.offices == GetParentCode(area, c.class10s, "class10s")
      && c.centers == GetParentCode(area, c.offices, "offices")
    ensures var c := CityFor(area, cityCode);
      NoEmptyCode(area) ==>
        && (c.class15s == "" ==> c.class10s == "")
        && (c.class10s == "" ==> c.offices == "")
        && (c.offices == "" ==> c.centers == "" && c.forecastCode == "" && c.prefName == "")
  {
  }

  /** With the offices code missing, the forecast code and prefecture name are empty too. */
  lemma MissingOfficeEmptiesForecast(area: AreaData, cityCode: string)
    requires NoEmptyCode(area)
    requires GetParentCode(area, cityCode + "00", "class20s") == ""
    ensures var c := CityFor(area, cityCode);
      c.class10s == "" && c.offices == "" && c.centers == "" && c.forecastCode == "" && c.prefName == ""
  {
    CityChain(area, cityCode);
  }
}
