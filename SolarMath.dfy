/**
 The inverse solar-position computation of `SolarMath` in sunrise_sunset.py:
 from one day's local sunrise and sunset clock times, the day of the year and
 the UTC offset, infer the observer's latitude and longitude.

 Both operations are pure: the angles of the day (declination and equation of
 time) and the location solver with its three outcomes (an error, a location
 with an equinox warning, a location).
 */
module SolarMath {
  import opened Wrappers
  import opened MathFunctions

  // ---------------------------------------------------------------------------
  // Inputs
  // ---------------------------------------------------------------------------

  /** Ordinal day within the year, as `timetuple().tm_yday` gives it. */
  type DayOfYear = d: int | 1 <= d <= 366 witness 1

  type Hour = h: int | 0 <= h <= 23
  type Minute = m: int | 0 <= m <= 59
  type Second = s: int | 0 <= s <= 59

  /** A local wall-clock time of day, with the ranges of `datetime.time`. */
  datatype ClockTime = ClockTime(hour: Hour, minute: Minute, second: Second)

  /** Seconds in a day. */
  const SecondsPerDay: int := 86400

  /** The day of the year at which the seasonal angle B is zero (the March equinox). */
  const EquinoxDay: int := 81

  /** Declination amplitude, in degrees. */
  const MaxDeclinationDegrees: real := 23.45

  /** Below this value of |tan(declination)| the latitude is not solved for. */
  const EquinoxTanThreshold: real := 0.001

  /** Error message returned when sunset is not later than sunrise
      ("Error: sunset must be later than sunrise"). */
  const DayLengthError: string := "错误：日落时间必须晚于日出时间"

  /** Warning returned with latitude 0.0 near an equinox
      ("Warning: close to an equinox, latitude may be inaccurate
      (defaults to near the equator)"). */
  const EquinoxWarning: string := "警告：接近春秋分，纬度计算可能不准确（默认为赤道附近）"

  // ---------------------------------------------------------------------------
  // Outputs
  // ---------------------------------------------------------------------------

  /** The declination (radians) and the equation of time (minutes) of a day. */
  datatype SolarAngles = SolarAngles(declination: real, eot: real)

  /** An inferred location, in degrees. */
  datatype Location = Location(latitude: real, longitude: real)

  /** The pair `solve_location` returns: an optional location and an optional message. */
  datatype SolveResult = SolveResult(location: Option<Location>, message: Option<string>)

  // ---------------------------------------------------------------------------
  // Helpers
  // ---------------------------------------------------------------------------

  /** Seconds since midnight of a clock time, within the day's range. */
  function ClockSeconds(t: ClockTime): (s: int)
    ensures 0 <= s < SecondsPerDay
  {
    t.hour * 3600 + t.minute * 60 + t.second
  }

  /** The seconds since midnight determine the hour, minute and second they
      came from, so two different clock times never share a second count. */
  lemma ClockSecondsDecompose(t: ClockTime)
    ensures var s := ClockSeconds(t);
      s / 3600 == t.hour && (s % 3600) / 60 == t.minute && s % 60 == t.second
  {
  }

  // ---------------------------------------------------------------------------
  // get_solar_declination_and_eot
  // ---------------------------------------------------------------------------

  /** The seasonal angle B in degrees: 360/365 degrees per day, zero at day 81. */
  function SeasonalAngle(day: DayOfYear): (b: real)
    ensures b == 0.0 <==> day == EquinoxDay
    ensures b < 0.0 <==> day < EquinoxDay
    ensures -80.0 * 360.0 / 365.0 <= b <= 285.0 * 360.0 / 365.0
  {
    (360.0 / 365.0) * (day - 81) as real
  }

  /** The declination in radians and the equation of time in minutes of a day. */
  function SolarDeclinationAndEot(m: Transcendentals, day: DayOfYear): (r: SolarAngles)
    ensures Degrees(r.declination) == MaxDeclinationDegrees * m.sin(Radians(SeasonalAngle(day)))
    ensures SinBounded(m) ==>
      -Radians(MaxDeclinationDegrees) <= r.declination <= Radians(MaxDeclinationDegrees)
    ensures SinBounded(m) ==> -0.41 < r.declination < 0.41
    ensures SinBounded(m) && CosBounded(m) ==> -18.9 <= r.eot <= 18.9
    ensures day == EquinoxDay && ExactAtZero(m) ==> r == SolarAngles(0.0, -7.53)
  {
    var b := SeasonalAngle(day);
    var bRad := Radians(b);
    var eot := 9.87 * m.sin(2.0 * bRad) - 7.53 * m.cos(bRad) - 1.5 * m.sin(bRad);
    var deltaDeg := MaxDeclinationDegrees * m.sin(bRad);
    var deltaRad := Radians(deltaDeg);
    DegreesOfRadians(deltaDeg);
    SolarAngles(deltaRad, eot)
  }

  // ---------------------------------------------------------------------------
  // solve_location
  // ---------------------------------------------------------------------------

  /** Local solar noon in seconds: half a day length after sunrise, so equally
      far from sunrise and from sunset, and strictly between them. */
  function SolarNoonSeconds(sunriseSeconds: int, dayLengthSeconds: int): (noon: real)
    ensures noon - sunriseSeconds as real == (sunriseSeconds + dayLengthSeconds) as real - noon
    ensures dayLengthSeconds > 0 ==>
      sunriseSeconds as real < noon < (sunriseSeconds + dayLengthSeconds) as real
  {
    sunriseSeconds as real + dayLengthSeconds as real / 2.0
  }

  /** Longitude in degrees from local solar noon (minutes), the UTC offset (hours)
      and the equation of time (minutes). It balances clock noon: 720 minutes
      equal UTC solar noon plus 4 minutes per degree of longitude plus the
      equation of time. */
  function LongitudeFromSolarNoon(noonMinutes: real, utcOffset: real, eotMinutes: real): (lon: real)
    ensures 720.0 == (noonMinutes - utcOffset * 60.0) + 4.0 * lon + eotMinutes
  {
    var utcNoonMinutes := noonMinutes - utcOffset * 60.0;
    var longOffsetMinutes := 720.0 - utcNoonMinutes - eotMinutes;
    longOffsetMinutes / 4.0
  }

  /** Sunrise hour angle in degrees: half the day length at 15 degrees per hour,
      that is one degree per 480 seconds of day length; below 180 degrees for
      any day length shorter than a day. */
  function HourAngleDegrees(dayLengthSeconds: int): (omega: real)
    ensures omega * 480.0 == dayLengthSeconds as real
    ensures 0 < dayLengthSeconds < SecondsPerDay ==> 0.0 < omega < 180.0
  {
    var dayLengthHours := dayLengthSeconds as real / 3600.0;
    (dayLengthHours / 2.0) * 15.0
  }

  /** Infers the location from sunrise and sunset on a day of the year at a
      UTC offset in hours. Returns no location exactly when sunset is not later
      than sunrise; otherwise the longitude solves the clock-noon balance and
      the latitude is either 0.0 with the equinox warning or the sunrise-equation
      solution with no message. */
  function SolveLocation(m: Transcendentals, day: DayOfYear, sunrise: ClockTime, sunset: ClockTime,
                         utcOffset: real): (r: SolveResult)
    ensures r.location.None? <==> ClockSeconds(sunset) <= ClockSeconds(sunrise)
    ensures r.location.None? ==> r.message == Some(DayLengthError)
    ensures r.location.Some? ==>
      r.message.None? || (r.message == Some(EquinoxWarning) && r.location.value.latitude == 0.0)
    ensures r.location.Some? ==>
      (r.message.Some? <==> Abs(m.tan(SolarDeclinationAndEot(m, day).declination)) < EquinoxTanThreshold)
    ensures r.location.Some? ==>
      var noonMinutes := (ClockSeconds(sunrise) + ClockSeconds(sunset)) as real / 120.0;
      4.0 * r.location.value.longitude
        == 720.0 - (noonMinutes - 60.0 * utcOffset) - SolarDeclinationAndEot(m, day).eot
    ensures r.location.Some? && CosBounded(m) && AtanBounded(m) ==> -90.0 < r.location.value.latitude < 90.0
  {
    var srSeconds := ClockSeconds(sunrise);
    var ssSeconds := ClockSeconds(sunset);
    var dayLengthSeconds := ssSeconds - srSeconds;
    if dayLengthSeconds <= 0 then
      SolveResult(None, Some(DayLengthError))
    else
      var noonSeconds := SolarNoonSeconds(srSeconds, dayLengthSeconds);
      var noonMinutes := noonSeconds / 60.0;
      var angles := SolarDeclinationAndEot(m, day);
      var longitude := LongitudeFromSolarNoon(noonMinutes, utcOffset, angles.eot);
      var omegaRad := Radians(HourAngleDegrees(dayLengthSeconds));
      var tanDelta := m.tan(angles.declination);
      if Abs(tanDelta) < EquinoxTanThreshold then
        SolveResult(Some(Location(0.0, longitude)), Some(EquinoxWarning))
      else
        var tanPhi := -m.cos(omegaRad) / tanDelta;
        var latitude := Degrees(m.atan(tanPhi));
        assert CosBounded(m) && AtanBounded(m) ==> -90.0 < latitude < 90.0 by {
          if CosBounded(m) && AtanBounded(m) {
            QuotientBounded(-m.cos(omegaRad), tanDelta, 1.0);
            AtanDegreesBounded(m, tanPhi);
          }
        }
        SolveResult(Some(Location(latitude, longitude)), None)
  }

}
