/** `icon_for`: the glyph shown for the current conditions, chosen by a
    priority rule over snowfall, rain, cloud cover and the day/night flag. */
module Conditions {
  import opened Wrappers
  import opened Json

  /** The six glyphs `icon_for` returns: snow cloud, rain cloud, sun, moon,
      sun behind a cloud, cloud. */
  datatype Icon = Snow | Rain | Sun | Moon | PartlyCloudy | Cloudy

  function SunOrMoon(daylight: bool): Icon {
    if daylight then Sun else Moon
  }

  /** `is_day = current.get('is_day', 1)` read for its truth: a missing flag
      means day, a present `null` or `0` means night. */
  predicate Daylight(current: map<string, Value>) {
    Truthy(GetOr(current, "is_day", Num(1.0)))
  }

  /** `float(cc)` with the `except` fallback to 0. */
  function CloudCover(cc: Value, parse: string -> Option<real>): real {
    PyFloat(cc, parse).GetOr(0.0)
  }

  /** `x = current.get(k) or 0` followed by `if x and x > 0`: `Some(true)`
      when that test passes, `Some(false)` when it fails, `None` when `x > 0`
      raises `TypeError` (a non-empty string, list or dict). */
  function PositiveField(current: map<string, Value>, k: string): Option<bool> {
    var x := Or(Get(current, k), Num(0.0));
    if !Truthy(x) then Some(false) else GreaterThanZero(x)
  }

  /** `icon_for(current)`. `None` means the call raises `TypeError`, which
      `icon_for` does not catch. */
  function IconFor(current: map<string, Value>, parse: string -> Option<real>): Option<Icon> {
    match PositiveField(current, "snowfall")
    case None => None
    case Some(true) => Some(Snow)
    case Some(false) =>
      match PositiveField(current, "rain")
      case None => None
      case Some(true) => Some(Rain)
      case Some(false) => Some(SkyIcon(current, parse))
  }

  /** The part of `icon_for` after the precipitation tests: cloud cover
      below 20 (or absent) shows sun or moon, below 60 partly cloudy, else
      cloudy. A cover that `float()` cannot convert counts as 0. */
  function SkyIcon(current: map<string, Value>, parse: string -> Option<real>): Icon {
    var cc := Get(current, "cloud_cover");
    if cc == Null then SunOrMoon(Daylight(current))
    else
      var cover := CloudCover(cc, parse);
      if cover < 20.0 then SunOrMoon(Daylight(current))
      else if cover < 60.0 then PartlyCloudy
      else Cloudy
  }

  /** Positive snowfall shows snow, whatever rain and cloud say. */
  lemma SnowfallFirst(current: map<string, Value>, parse: string -> Option<real>)
    requires GreaterThanZero(Get(current, "snowfall")) == Some(true)
    ensures IconFor(current, parse) == Some(Snow)
  {
  }

  /** Without positive snowfall, positive rain shows rain. */
  lemma RainSecond(current: map<string, Value>, parse: string -> Option<real>)
    requires PositiveField(current, "snowfall") == Some(false)
    requires GreaterThanZero(Get(current, "rain")) == Some(true)
    ensures IconFor(current, parse) == Some(Rain)
  {
  }

  /** Without precipitation the cloud cover decides: absent or below 20 is
      sun by day and moon by night (a missing flag is day), 20 up to 60 is
      partly cloudy, 60 or more is cloudy. */
  lemma CloudCoverBands(current: map<string, Value>, parse: string -> Option<real>)
    requires PositiveField(current, "snowfall") == Some(false)
    requires PositiveField(current, "rain") == Some(false)
    ensures var cc := Get(current, "cloud_cover");
      var icon := IconFor(current, parse);
      && (cc == Null || CloudCover(cc, parse) < 20.0 ==> icon == Some(SunOrMoon(Daylight(current))))
      && (cc != Null && 20.0 <= CloudCover(cc, parse) < 60.0 ==> icon == Some(PartlyCloudy))
      && (cc != Null && 60.0 <= CloudCover(cc, parse) ==> icon == Some(Cloudy))
      && ("is_day" !in current && (cc == Null || CloudCover(cc, parse) < 20.0) ==> icon == Some(Sun))
  {
  }

  /** A snowfall or rain value that is neither a number nor a boolean nor
      false-y raises; that is the only way `icon_for` fails, and rain is
      looked at only when snowfall did not decide. */
  lemma IconForRaises(current: map<string, Value>, parse: string -> Option<real>)
    ensures IconFor(current, parse).None? <==>
      || PositiveField(current, "snowfall").None?
      || (PositiveField(current, "snowfall") == Some(false) && PositiveField(current, "rain").None?)
    ensures var snow := Get(current, "snowfall");
      var rain := Get(current, "rain");
      IconFor(current, parse).None? <==>
        || Incomparable(snow)
        || (!Incomparable(snow) && !PositiveReading(snow) && Incomparable(rain))
  {
  }

  /** A value for which `x > 0` raises once `x` is true-y: a non-empty
      string, list or dict. */
  predicate Incomparable(v: Value) {
    (v.Str? && v.s != "") || (v.Arr? && v.items != []) || (v.Obj? && v.fields != map[])
  }

  /** A reading that passes `x and x > 0`: a positive number or `True`. */
  predicate PositiveReading(v: Value) {
    (v.Num? && v.r > 0.0) || v == Bool(true)
  }

  /** Conditions as plain numbers, the shape the forecast service sends. */
  datatype Reading = Reading(snowfall: real, rain: real, cloudCover: Option<real>, isDay: bool)

  /** The documented weather rule, stated over numbers: snow before rain,
      rain before cloud; a sky under 20% cloud is clear. */
  function ReadingIcon(r: Reading): Icon {
    if r.snowfall > 0.0 then Snow
    else if r.rain > 0.0 then Rain
    else if r.cloudCover.None? || r.cloudCover.value < 20.0 then SunOrMoon(r.isDay)
    else if r.cloudCover.value < 60.0 then PartlyCloudy
    else Cloudy
  }

  /** The `current` section the service sends for a reading; `is_day` is 1 or 0. */
  function Encode(r: Reading): map<string, Value> {
    var base := map["snowfall" := Num(r.snowfall), "rain" := Num(r.rain),
                    "is_day" := Num(if r.isDay then 1.0 else 0.0)];
    if r.cloudCover.Some? then base["cloud_cover" := Num(r.cloudCover.value)] else base
  }

  /** On well-formed numeric input `icon_for` never raises and agrees with
      the rule stated over numbers. */
  lemma IconForReading(r: Reading, parse: string -> Option<real>)
    ensures IconFor(Encode(r), parse) == Some(ReadingIcon(r))
  {
    var m := Encode(r);
    assert Get(m, "snowfall") == Num(r.snowfall);
    assert Get(m, "rain") == Num(r.rain);
    assert Daylight(m) == r.isDay;
    if r.cloudCover.Some? {
      assert Get(m, "cloud_cover") == Num(r.cloudCover.value);
    } else {
      assert Get(m, "cloud_cover") == Null;
    }
  }
}
