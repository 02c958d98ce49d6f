/**
 * The weather service's pure classifiers (condition text to icon glyph,
 * temperature to one of five bands) and its refresh decision: use the cache
 * file while it is fresh, otherwise fetch, falling back to an empty record when
 * the fetch fails.  Reading the cache, the network and the clock are passed in
 * as the outcomes they produced.
 */
module WeatherService {
  import opened Wrappers
  import opened JsString

  /**
   * The part of a weather report the service itself reads: the location's
   * local time (epoch seconds), the current day/night flag, the current
   * condition text and the current temperature in Celsius.
   */
  datatype WeatherData = WeatherData(localtimeEpoch: int, isDay: int, conditionText: string, tempC: real)

  /** `DEFAULT`: every number zero and every string empty. */
  const Default := WeatherData(0, 0, "", 0.0)

  /**
   * `STATUS_ICONS`, in declaration order: normalised condition text and its
   * icon glyph.  The object literal is kept in one piece below, split into
   * consecutive runs of entries so that facts about it can be checked run by run.
   */
  const StatusIcons: seq<(string, string)> :=
    IconsClearSky + IconsCloudAndMist + IconsPossible + IconsSnowAndFog + IconsDrizzle + IconsRain
    + IconsFreezingRainAndSleet + IconsSnowAndIce + IconsRainShowers + IconsWinterShowers
    + IconsThunder

  /** Entries of `STATUS_ICONS` for the fallback and the clear or partly cloudy sky. */
  const IconsClearSky: seq<(string, string)> := [
    ("warning", "\U{F0F2F}"),
    ("sunny", "\U{F0599}"),
    ("clear", "\U{F0594}"),
    ("partly_cloudy", "\U{F0595}"),
    ("partly_cloudy_night", "\U{F0F31}")
  ]

  /** Entries of `STATUS_ICONS` for cloud, overcast and mist. */
  const IconsCloudAndMist: seq<(string, string)> := [
    ("cloudy", "\U{F0590}"),
    ("overcast", "\U{F0595}"),
    ("mist", "\U{F0591}")
  ]

  /** Entries of `STATUS_ICONS` for the "possible" and "nearby" conditions. */
  const IconsPossible: seq<(string, string)> := [
    ("patchy_rain_nearby", "\U{F0F33}"),
    ("patchy_rain_possible", "\U{F0F33}"),
    ("patchy_snow_possible", "\U{F0F34}"),
    ("patchy_sleet_possible", "\U{F067F}"),
    ("patchy_freezing_drizzle_possible", "\U{F067F}"),
    ("thundery_outbreaks_possible", "\U{F067E}")
  ]

  /** Entries of `STATUS_ICONS` for blowing snow, blizzard and fog. */
  const IconsSnowAndFog: seq<(string, string)> := [
    ("blowing_snow", "\U{F0F36}"),
    ("blizzard", "\U{F0F36}"),
    ("fog", "\U{F0591}"),
    ("freezing_fog", "\U{F0591}")
  ]

  /** Entries of `STATUS_ICONS` for drizzle. */
  const IconsDrizzle: seq<(string, string)> := [
    ("patchy_light_drizzle", "\U{F0F33}"),
    ("light_drizzle", "\U{F0F33}"),
    ("freezing_drizzle", "\U{F067F}"),
    ("heavy_freezing_drizzle", "\U{F067F}")
  ]

  /** Entries of `STATUS_ICONS` for rain. */
  const IconsRain: seq<(string, string)> := [
    ("patchy_light_rain", "\U{F0F33}"),
    ("light_rain", "\U{F0F33}"),
    ("moderate_rain_at_times", "\U{F0597}"),
    ("moderate_rain", "\U{F0F33}"),
    ("heavy_rain_at_times", "\U{F0596}"),
    ("heavy_rain", "\U{F0596}")
  ]

  /** Entries of `STATUS_ICONS` for freezing rain and sleet. */
  const IconsFreezingRainAndSleet: seq<(string, string)> := [
    ("light_freezing_rain", "\U{F067F}"),
    ("moderate_or_heavy_freezing_rain", "\U{F067F}"),
    ("light_sleet", "\U{F067F}"),
    ("moderate_or_heavy_sleet", "\U{F067F}")
  ]

  /** Entries of `STATUS_ICONS` for snow and ice pellets. */
  const IconsSnowAndIce: seq<(string, string)> := [
    ("patchy_light_snow", "\U{F0F34}"),
    ("light_snow", "\U{F0F34}"),
    ("patchy_moderate_snow", "\U{F0F34}"),
    ("moderate_snow", "\U{F0F36}"),
    ("patchy_heavy_snow", "\U{F0F36}"),
    ("heavy_snow", "\U{F0F36}"),
    ("ice_pellets", "\U{F0592}")
  ]

  /** Entries of `STATUS_ICONS` for rain showers. */
  const IconsRainShowers: seq<(string, string)> := [
    ("light_rain_shower", "\U{F0596}"),
    ("moderate_or_heavy_rain_shower", "\U{F0596}"),
    ("torrential_rain_shower", "\U{F0596}")
  ]

  /** Entries of `STATUS_ICONS` for sleet, snow and ice showers. */
  const IconsWinterShowers: seq<(string, string)> := [
    ("light_sleet_showers", "\U{F0F35}"),
    ("moderate_or_heavy_sleet_showers", "\U{F0F35}"),
    ("light_snow_showers", "\U{F0F35}"),
    ("moderate_or_heavy_snow_showers", "\U{F0F35}"),
    ("light_showers_of_ice_pellets", "\U{F0592}"),
    ("moderate_or_heavy_showers_of_ice_pellets", "\U{F0592}")
  ]

  /** Entries of `STATUS_ICONS` for thunder. */
  const IconsThunder: seq<(string, string)> := [
    ("patchy_light_rain_with_thunder", "\U{F067E}"),
    ("moderate_or_heavy_rain_with_thunder", "\U{F067E}"),
    ("moderate_or_heavy_rain_in_area_with_thunder", "\U{F067E}"),
    ("patchy_light_snow_with_thunder", "\U{F0F36}"),
    ("moderate_or_heavy_snow_with_thunder", "\U{F0F36}")
  ]

  /** `STATUS_ICONS.warning` */
  const WarningGlyph := "\U{F0F2F}"

  /** The glyph a table holds for `key`, if any (its own properties only). */
  function Lookup(table: seq<(string, string)>, key: string): (r: Option<string>)
    ensures r.Some? ==> (key, r.value) in table
    ensures r.None? ==> forall i :: 0 <= i < |table| ==> table[i].0 != key
  {
    if table == [] then None
    else if table[0].0 == key then Some(table[0].1)
    else Lookup(table[1..], key)
  }

  /**
   * The property names every plain JavaScript object inherits from
   * `Object.prototype`; `key in obj` and `obj[key]` see them too.
   */
  const ObjectPrototypeKeys: set<string> := {
    "constructor", "__proto__", "__defineGetter__", "__defineSetter__", "__lookupGetter__",
    "__lookupSetter__", "hasOwnProperty", "isPrototypeOf", "propertyIsEnumerable",
    "toLocaleString", "toString", "valueOf"
  }

  /** `status.trim().toLowerCase().replaceAll(" ", "_")` */
  function Normalize(status: string): (query: string)
    ensures |query| == |Trim(status)|
    ensures forall i :: 0 <= i < |query| ==> query[i] != ' ' && !('A' <= query[i] <= 'Z')
  {
    ReplaceAll(ToLower(Trim(status)), ' ', '_')
  }

  // ---------------------------------------------------------------- condition icon

  /** What a property read on `STATUS_ICONS` yields: an own glyph, or an inherited member that is not a string. */
  datatype IconValue = Glyph(text: string) | Inherited(key: string)

  /** `key in STATUS_ICONS` as JavaScript evaluates it: own keys and inherited ones. */
  predicate HasProperty(key: string) {
    Lookup(StatusIcons, key).Some? || key in ObjectPrototypeKeys
  }

  /**
   * `getIcon` as written: `in` and `[]` on a plain object also find the
   * members inherited from `Object.prototype`, and `??` only replaces
   * `null`/`undefined`, so an inherited member comes back instead of the
   * warning glyph.
   */
  function GetIconAsWritten(status: string, isDay: int): (v: IconValue)
    ensures v.Inherited? ==> v.key in ObjectPrototypeKeys && v.key == Normalize(status)
    ensures v.Glyph? ==> v.text == WarningGlyph || exists key :: (key, v.text) in StatusIcons
  {
    var query := Normalize(status);
    NightKeyNotInherited(query);
    var key := if isDay == 0 && HasProperty(query + "_night") then query + "_night" else query;
    match Lookup(StatusIcons, key)
    case Some(glyph) => Glyph(glyph)
    case None => if key in ObjectPrototypeKeys then Inherited(key) else Glyph(WarningGlyph)
  }

  /**
   * `getIcon` with the lookup restricted to the table's own keys: the
   * normalised text, or its `_night` variant at night when there is one, or
   * the warning glyph.  The result is always one of the table's glyphs.
   */
  function GetIcon(status: string, isDay: int): (icon: string)
    ensures icon == WarningGlyph || exists key :: (key, icon) in StatusIcons
    ensures var night := Lookup(StatusIcons, Normalize(status) + "_night");
      isDay == 0 && night.Some? ==> icon == night.value
    ensures var day := Lookup(StatusIcons, Normalize(status));
      (isDay != 0 || Lookup(StatusIcons, Normalize(status) + "_night").None?) ==>
        icon == if day.Some? then day.value else WarningGlyph
  {
    var query := Normalize(status);
    var key := if isDay == 0 && Lookup(StatusIcons, query + "_night").Some? then query + "_night" else query;
    match Lookup(StatusIcons, key)
    case Some(glyph) => glyph
    case None => WarningGlyph
  }

  /** Leading and trailing whitespace around the condition text does not change the icon. */
  lemma GetIconIgnoresPadding(before: string, status: string, after: string, isDay: int)
    requires forall i :: 0 <= i < |before| ==> IsWhitespace(before[i])
    requires forall i :: 0 <= i < |after| ==> IsWhitespace(after[i])
    ensures GetIcon(before + status + after, isDay) == GetIcon(status, isDay)
  {
    TrimPadding(before, status, after);
  }

  /** The icon does not depend on the letter case of the condition text. */
  lemma GetIconIgnoresCase(status: string, isDay: int)
    ensures GetIcon(ToLower(status), isDay) == GetIcon(status, isDay)
  {
    TrimToLower(status);
    ToLowerIdempotent(Trim(status));
  }

  /** `key` is some condition's night variant. */
  predicate IsNightKey(key: string) {
    |key| >= 6 && key[|key| - 6..] == "_night"
  }

  /** Every night key in `table` is `partly_cloudy_night`. */
  predicate NightKeysArePartlyCloudy(table: seq<(string, string)>) {
    table == [] || ((!IsNightKey(table[0].0) || table[0].0 == "partly_cloudy_night") && NightKeysArePartlyCloudy(table[1..]))
  }

  lemma {:induction false} LookupNightKey(table: seq<(string, string)>, query: string)
    requires NightKeysArePartlyCloudy(table)
    requires Lookup(table, query + "_night").Some?
    ensures query == "partly_cloudy"
  {
    var k := query + "_night";
    assert IsNightKey(k) by {
      assert k[|k| - 6..] == "_night";
    }
    if table[0].0 != k {
      LookupNightKey(table[1..], query);
    } else {
      assert query == k[..|k| - 6];
    }
  }

  /** A night key in either half of a table is `partly_cloudy_night`. */
  lemma {:induction false} NightKeysConcat(a: seq<(string, string)>, b: seq<(string, string)>)
    requires NightKeysArePartlyCloudy(a) && NightKeysArePartlyCloudy(b)
    ensures NightKeysArePartlyCloudy(a + b)
  {
    if a != [] {
      assert (a + b)[0] == a[0];
      assert (a + b)[1..] == a[1..] + b;
      NightKeysConcat(a[1..], b);
    } else {
      assert a + b == b;
    }
  }

  lemma IconsClearSkyNightKeys()
    ensures NightKeysArePartlyCloudy(IconsClearSky)
  {
  }

  lemma IconsCloudAndMistNightKeys()
    ensures NightKeysArePartlyCloudy(IconsCloudAndMist)
  {
  }

  lemma IconsPossibleNightKeys()
    ensures NightKeysArePartlyCloudy(IconsPossible)
  {
  }

  lemma IconsSnowAndFogNightKeys()
    ensures NightKeysArePartlyCloudy(IconsSnowAndFog)
  {
  }

  lemma IconsDrizzleNightKeys()
    ensures NightKeysArePartlyCloudy(IconsDrizzle)
  {
  }

  lemma IconsRainNightKeys()
    ensures NightKeysArePartlyCloudy(IconsRain)
  {
  }

  lemma IconsFreezingRainAndSleetNightKeys()
    ensures NightKeysArePartlyCloudy(IconsFreezingRainAndSleet)
  {
  }

  lemma IconsSnowAndIceNightKeys()
    ensures NightKeysArePartlyCloudy(IconsSnowAndIce)
  {
  }

  lemma IconsRainShowersNightKeys()
    ensures NightKeysArePartlyCloudy(IconsRainShowers)
  {
  }

  lemma IconsWinterShowersNightKeys()
    ensures NightKeysArePartlyCloudy(IconsWinterShowers)
  {
  }

  lemma IconsThunderNightKeys()
    ensures NightKeysArePartlyCloudy(IconsThunder)
  {
  }

  /** Only `partly_cloudy` has a `_night` entry in the table. */
  lemma NightKeyIsPartlyCloudy(query: string)
    ensures Lookup(StatusIcons, query + "_night").Some? ==> query == "partly_cloudy"
  {
    IconsClearSkyNightKeys();
    IconsCloudAndMistNightKeys();
    IconsPossibleNightKeys();
    IconsSnowAndFogNightKeys();
    IconsDrizzleNightKeys();
    IconsRainNightKeys();
    IconsFreezingRainAndSleetNightKeys();
    IconsSnowAndIceNightKeys();
    IconsRainShowersNightKeys();
    IconsWinterShowersNightKeys();
    IconsThunderNightKeys();
    var t := IconsClearSky;
    NightKeysConcat(t, IconsCloudAndMist);
    t := t + IconsCloudAndMist;
    NightKeysConcat(t, IconsPossible);
    t := t + IconsPossible;
    NightKeysConcat(t, IconsSnowAndFog);
    t := t + IconsSnowAndFog;
    NightKeysConcat(t, IconsDrizzle);
    t := t + IconsDrizzle;
    NightKeysConcat(t, IconsRain);
    t := t + IconsRain;
    NightKeysConcat(t, IconsFreezingRainAndSleet);
    t := t + IconsFreezingRainAndSleet;
    NightKeysConcat(t, IconsSnowAndIce);
    t := t + IconsSnowAndIce;
    NightKeysConcat(t, IconsRainShowers);
    t := t + IconsRainShowers;
    NightKeysConcat(t, IconsWinterShowers);
    t := t + IconsWinterShowers;
    NightKeysConcat(t, IconsThunder);
    t := t + IconsThunder;
    if Lookup(t, query + "_night").Some? {
      LookupNightKey(t, query);
    }
  }

  /** Day and night icons differ only for a partly cloudy sky. */
  lemma NightOnlyForPartlyCloudy(status: string)
    ensures GetIcon(status, 0) != GetIcon(status, 1) ==> Normalize(status) == "partly_cloudy"
  {
    NightKeyIsPartlyCloudy(Normalize(status));
  }

  // ---------------------------------------------------------------- inherited keys

  /** No key of `table` names a member of `Object.prototype`. */
  predicate OwnKeysOnly(table: seq<(string, string)>) {
    table == [] || (table[0].0 !in ObjectPrototypeKeys && OwnKeysOnly(table[1..]))
  }

  lemma {:induction false} OwnKeysOnlyConcat(a: seq<(string, string)>, b: seq<(string, string)>)
    requires OwnKeysOnly(a) && OwnKeysOnly(b)
    ensures OwnKeysOnly(a + b)
  {
    if a != [] {
      assert (a + b)[0] == a[0];
      assert (a + b)[1..] == a[1..] + b;
      OwnKeysOnlyConcat(a[1..], b);
    } else {
      assert a + b == b;
    }
  }

  lemma {:induction false} LookupOwnKeysOnly(table: seq<(string, string)>, key: string)
    requires OwnKeysOnly(table)
    requires key in ObjectPrototypeKeys
    ensures Lookup(table, key).None?
  {
    if table != [] {
      LookupOwnKeysOnly(table[1..], key);
    }
  }

  lemma IconsClearSkyOwnKeys()
    ensures OwnKeysOnly(IconsClearSky)
  {
  }

  lemma IconsCloudAndMistOwnKeys()
    ensures OwnKeysOnly(IconsCloudAndMist)
  {
  }

  lemma IconsPossibleOwnKeys()
    ensures OwnKeysOnly(IconsPossible)
  {
  }

  lemma IconsSnowAndFogOwnKeys()
    ensures OwnKeysOnly(IconsSnowAndFog)
  {
  }

  lemma IconsDrizzleOwnKeys()
    ensures OwnKeysOnly(IconsDrizzle)
  {
  }

  lemma IconsRainOwnKeys()
    ensures OwnKeysOnly(IconsRain)
  {
  }

  lemma IconsFreezingRainAndSleetOwnKeys()
    ensures OwnKeysOnly(IconsFreezingRainAndSleet)
  {
  }

  lemma IconsSnowAndIceOwnKeys()
    ensures OwnKeysOnly(IconsSnowAndIce)
  {
  }

  lemma IconsRainShowersOwnKeys()
    ensures OwnKeysOnly(IconsRainShowers)
  {
  }

  lemma IconsWinterShowersOwnKeys()
    ensures OwnKeysOnly(IconsWinterShowers)
  {
  }

  lemma IconsThunderOwnKeys()
    ensures OwnKeysOnly(IconsThunder)
  {
  }

  /** `STATUS_ICONS` has none of the inherited member names among its own keys. */
  lemma StatusIconsOwnKeysOnly()
    ensures OwnKeysOnly(StatusIcons)
  {
    IconsClearSkyOwnKeys();
    IconsCloudAndMistOwnKeys();
    IconsPossibleOwnKeys();
    IconsSnowAndFogOwnKeys();
    IconsDrizzleOwnKeys();
    IconsRainOwnKeys();
    IconsFreezingRainAndSleetOwnKeys();
    IconsSnowAndIceOwnKeys();
    IconsRainShowersOwnKeys();
    IconsWinterShowersOwnKeys();
    IconsThunderOwnKeys();
    var t := IconsClearSky;
    OwnKeysOnlyConcat(t, IconsCloudAndMist);
    t := t + IconsCloudAndMist;
    OwnKeysOnlyConcat(t, IconsPossible);
    t := t + IconsPossible;
    OwnKeysOnlyConcat(t, IconsSnowAndFog);
    t := t + IconsSnowAndFog;
    OwnKeysOnlyConcat(t, IconsDrizzle);
    t := t + IconsDrizzle;
    OwnKeysOnlyConcat(t, IconsRain);
    t := t + IconsRain;
    OwnKeysOnlyConcat(t, IconsFreezingRainAndSleet);
    t := t + IconsFreezingRainAndSleet;
    OwnKeysOnlyConcat(t, IconsSnowAndIce);
    t := t + IconsSnowAndIce;
    OwnKeysOnlyConcat(t, IconsRainShowers);
    t := t + IconsRainShowers;
    OwnKeysOnlyConcat(t, IconsWinterShowers);
    t := t + IconsWinterShowers;
    OwnKeysOnlyConcat(t, IconsThunder);
    t := t + IconsThunder;
  }

  /** No inherited member name ends in `_night`. */
  lemma NightKeyNotInherited(query: string)
    ensures query + "_night" !in ObjectPrototypeKeys
  {
    var k := query + "_night";
    assert k[|k| - 1] == 't';
  }

  /**
   * Away from the inherited member names, `getIcon` as written and the
   * corrected lookup agree.
   */
  lemma AsWrittenAgreesOnOwnKeys(status: string, isDay: int)
    requires Normalize(status) !in ObjectPrototypeKeys
    ensures GetIconAsWritten(status, isDay) == Glyph(GetIcon(status, isDay))
  {
    NightKeyNotInherited(Normalize(status));
  }

  /** An inherited member name is neither a key of the table nor the day form of one of its night keys. */
  lemma InheritedKeyNotOwn(query: string)
    requires query in ObjectPrototypeKeys
    ensures Lookup(StatusIcons, query).None?
    ensures !HasProperty(query + "_night")
  {
    StatusIconsOwnKeysOnly();
    LookupOwnKeysOnly(StatusIcons, query);
    NightKeyNotInherited(query);
    assert "partly_cloudy" !in ObjectPrototypeKeys;
    NightKeyIsPartlyCloudy(query);
  }

  /**
   * A condition text that normalises to an inherited member name makes
   * `getIcon` as written return that member (a function, not a glyph),
   * where the warning glyph is meant.
   */
  lemma AsWrittenReturnsInheritedMember(status: string, isDay: int)
    requires Normalize(status) in ObjectPrototypeKeys
    ensures GetIconAsWritten(status, isDay) == Inherited(Normalize(status))
    ensures GetIcon(status, isDay) == WarningGlyph
  {
    InheritedKeyNotOwn(Normalize(status));
  }

  /** Text made of lower-case letters and underscores is already normalised. */
  lemma NormalizePlainKey(key: string)
    requires forall i :: 0 <= i < |key| ==> ('a' <= key[i] <= 'z' || key[i] == '_')
    ensures Normalize(key) == key
  {
    assert TrimStart(key) == key;
    assert TrimEnd(key) == key;
    assert ToLower(key) == key;
    assert ReplaceAll(key, ' ', '_') == key;
  }

  /** The condition text "constructor" is one such input. */
  lemma ConstructorIsInherited(isDay: int)
    ensures GetIconAsWritten("constructor", isDay) == Inherited("constructor")
    ensures GetIcon("constructor", isDay) == WarningGlyph
  {
    NormalizePlainKey("constructor");
    AsWrittenReturnsInheritedMember("constructor", isDay);
  }

  // ---------------------------------------------------------------- temperature

  /** The temperatures (Celsius) at which the next band begins. */
  const Thresholds: seq<real> := [10.0, 20.0, 30.0, 40.0]

  /** How many of `thresholds` the temperature has reached. */
  function Reached(thresholds: seq<real>, temp: real): (n: nat)
    ensures n <= |thresholds|
  {
    if thresholds == [] then 0
    else (if thresholds[0] <= temp then 1 else 0) + Reached(thresholds[1..], temp)
  }

  /** The temperature band, 0 (coldest) to 4 (hottest). */
  function Band(temp: real): (b: nat)
    ensures b <= 4
  {
    Reached(Thresholds, temp)
  }

  /** The band, threshold by threshold. */
  lemma BandCases(temp: real)
    ensures Band(temp) == if temp >= 40.0 then 4 else if temp >= 30.0 then 3
                          else if temp >= 20.0 then 2 else if temp >= 10.0 then 1 else 0
  {
    var t := Thresholds;
    assert t[1..][1..][1..][1..] == [];
    assert Reached(t[1..][1..][1..], temp) == if temp >= 40.0 then 1 else 0;
    assert Reached(t[1..][1..], temp) == (if temp >= 30.0 then 1 else 0) + Reached(t[1..][1..][1..], temp);
    assert Reached(t[1..], temp) == (if temp >= 20.0 then 1 else 0) + Reached(t[1..][1..], temp);
  }

  /** `getTempDesc`'s words, by band. */
  const Descriptions: seq<string> := ["freezing", "cold", "normal", "hot", "burning"]

  /** `getTempIcon`'s thermometer glyphs, by band. */
  const TempGlyphs: seq<string> := ["\U{F2CB}", "\U{F2CA}", "\U{F2C9}", "\U{F2C8}", "\U{F2C7}"]

  /** `getTempIcon`: the thermometer glyph for a temperature in Celsius. */
  function GetTempIcon(temp: real): (icon: string)
    ensures icon == TempGlyphs[Band(temp)]
  {
    BandCases(temp);
    if temp >= 40.0 then "\U{F2C7}"
    else if temp >= 30.0 then "\U{F2C8}"
    else if temp >= 20.0 then "\U{F2C9}"
    else if temp >= 10.0 then "\U{F2CA}"
    else "\U{F2CB}"
  }

  /** `getTempDesc`: the word for a temperature in Celsius, also used as its colour class. */
  function GetTempDesc(temp: real): (desc: string)
    ensures desc == Descriptions[Band(temp)]
  {
    BandCases(temp);
    if temp >= 40.0 then "burning"
    else if temp >= 30.0 then "hot"
    else if temp >= 20.0 then "normal"
    else if temp >= 10.0 then "cold"
    else "freezing"
  }

  /** A band is the half-open range between two consecutive thresholds. */
  lemma BandRange(temp: real)
    ensures Band(temp) == 0 || Thresholds[Band(temp) - 1] <= temp
    ensures Band(temp) == 4 || temp < Thresholds[Band(temp)]
  {
    BandCases(temp);
  }

  lemma {:induction false} ReachedMonotone(thresholds: seq<real>, a: real, b: real)
    requires a <= b
    ensures Reached(thresholds, a) <= Reached(thresholds, b)
  {
    if thresholds != [] {
      ReachedMonotone(thresholds[1..], a, b);
    }
  }

  /** A warmer temperature never falls in a colder band. */
  lemma BandMonotone(a: real, b: real)
    requires a <= b
    ensures Band(a) <= Band(b)
  {
    ReachedMonotone(Thresholds, a, b);
  }

  /** The thermometer glyph and the colour word always change together. */
  lemma TempIconMatchesColour(a: real, b: real)
    ensures GetTempIcon(a) == GetTempIcon(b) <==> GetTempDesc(a) == GetTempDesc(b)
  {
    assert forall i, j :: 0 <= i < j < 5 ==> TempGlyphs[i] != TempGlyphs[j] && Descriptions[i] != Descriptions[j];
  }

  // ---------------------------------------------------------------- refresh

  /**
   * What `updateWeather` finds on disk: no cache file, a file it cannot read
   * or parse (the update then stops with an error), or the file's text and
   * the record it parses to.
   */
  datatype CacheRead = NoCache | Unreadable | Cached(text: string, parsed: WeatherData)

  /**
   * One update's effect: the new record, whether observers were notified,
   * whether the weather was fetched, and the text written to the cache file.
   */
  datatype Refreshed = Refreshed(data: WeatherData, notified: bool, fetched: bool, written: Option<string>)

  /** A cached report is fresh while its local time plus the interval (ms) lies ahead of `now` (ms). */
  function Fresh(cached: WeatherData, interval: int, now: int): (current: bool)
    ensures current <==> now - cached.localtimeEpoch * 1000 < interval
  {
    cached.localtimeEpoch * 1000 + interval > now
  }

  /**
   * `updateWeather`: adopt a fresh cache (notifying only when it differs from
   * the current record's serialisation), otherwise fetch; a failed fetch
   * resets to `DEFAULT`.  `fetch` is the fetch's outcome, `None` when it
   * threw; `serialize` is `JSON.stringify`.
   */
  function Refresh(data: WeatherData, cache: CacheRead, now: int, interval: int,
                   fetch: Option<WeatherData>, serialize: WeatherData -> string): (r: Refreshed)
    ensures r.data != data ==> r.notified
    ensures r.fetched <==> cache.NoCache? || (cache.Cached? && !Fresh(cache.parsed, interval, now))
    ensures r.written.Some? <==> r.fetched && fetch.Some?
    ensures r.written.Some? ==> r.written.value == serialize(r.data)
  {
    if cache.Unreadable? then Refreshed(data, false, false, None)
    else if cache.Cached? && Fresh(cache.parsed, interval, now) then
      if serialize(data) != cache.text then Refreshed(cache.parsed, true, false, None)
      else Refreshed(data, false, false, None)
    else
      match fetch
      case Some(fetched) => Refreshed(fetched, true, true, Some(serialize(fetched)))
      case None => Refreshed(Default, true, true, None)
  }

  /** A fresh cache is never bypassed: its record is adopted exactly when its text differs. */
  lemma FreshCacheAdopted(data: WeatherData, text: string, parsed: WeatherData, now: int, interval: int,
                          fetch: Option<WeatherData>, serialize: WeatherData -> string)
    requires Fresh(parsed, interval, now)
    ensures var r := Refresh(data, Cached(text, parsed), now, interval, fetch, serialize);
      !r.fetched && r.written.None? &&
      r.notified == (serialize(data) != text) &&
      r.data == (if r.notified then parsed else data)
  {
  }

  /** Without a fresh cache the fetched record is taken, or `DEFAULT` when the fetch failed, and observers hear of it. */
  lemma StaleCacheFetches(data: WeatherData, cache: CacheRead, now: int, interval: int,
                          fetch: Option<WeatherData>, serialize: WeatherData -> string)
    requires cache.NoCache? || (cache.Cached? && !Fresh(cache.parsed, interval, now))
    ensures var r := Refresh(data, cache, now, interval, fetch, serialize);
      r.notified && r.data == (if fetch.Some? then fetch.value else Default)
  {
  }

  /** An unreadable cache file leaves everything as it was. */
  lemma UnreadableCacheChangesNothing(data: WeatherData, now: int, interval: int,
                                      fetch: Option<WeatherData>, serialize: WeatherData -> string)
    ensures var r := Refresh(data, Unreadable, now, interval, fetch, serialize);
      r.data == data && !r.notified && !r.fetched && r.written.None?
  {
  }

  /**
   * After a successful fetch, the next update that reads back the file it
   * wrote, while that file is fresh, changes nothing and notifies nobody.
   */
  lemma RefreshSettlesAfterFetch(data: WeatherData, cache: CacheRead, now: int, later: int, interval: int,
                                 fetched: WeatherData, fetchAgain: Option<WeatherData>,
                                 serialize: WeatherData -> string)
    requires cache.NoCache? || (cache.Cached? && !Fresh(cache.parsed, interval, now))
    requires Fresh(fetched, interval, later)
    ensures var first := Refresh(data, cache, now, interval, Some(fetched), serialize);
      first.written.Some? &&
      Refresh(first.data, Cached(first.written.value, fetched), later, interval, fetchAgain, serialize)
        == Refreshed(first.data, false, false, None)
  {
  }

  /** The weather service: the current record, its observers and its cache file. */
  class Weather {
    /** `#data` */
    var data: WeatherData
    /** How many times observers were told the record changed. */
    ghost var notifications: nat
    /** The texts written to the cache file, oldest first. */
    ghost var cacheWrites: seq<string>

    /** Starts from `DEFAULT`; reading the key and scheduling updates are not part of this model. */
    constructor ()
      ensures data == Default && notifications == 0 && cacheWrites == []
    {
      data := Default;
      notifications := 0;
      cacheWrites := [];
    }

    /**
     * `updateWeather`, with the cache file's state, the clock, the configured
     * interval and the fetch's outcome given as parameters.
     */
    method UpdateWeather(cache: CacheRead, now: int, interval: int,
                         fetch: Option<WeatherData>, serialize: WeatherData -> string)
      returns (fetched: bool)
      modifies this
      ensures var r := Refresh(old(data), cache, now, interval, fetch, serialize);
        data == r.data && fetched == r.fetched &&
        notifications == old(notifications) + (if r.notified then 1 else 0) &&
        cacheWrites == old(cacheWrites) + (if r.written.Some? then [r.written.value] else [])
    {
      fetched := false;
      if cache.Unreadable? {
        return;
      }
      if cache.Cached? && Fresh(cache.parsed, interval, now) {
        if serialize(data) != cache.text {
          data := cache.parsed;
          notifications := notifications + 1;
        }
        return;
      }
      fetched := true;
      match fetch {
        case Some(report) =>
          data := report;
          cacheWrites := cacheWrites + [serialize(report)];
        case None =>
          data := Default;
      }
      notifications := notifications + 1;
    }
  }
}
