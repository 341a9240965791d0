/**
 Properties of the location solver that relate several calls or that depend
 on facts about the transcendental functions.
 */
module SolarMathProperties {
  import opened Wrappers
  import opened MathFunctions
  import opened SolarMath

  // ---------------------------------------------------------------------------
  // Clock times
  // ---------------------------------------------------------------------------

  /** `a` is earlier in the day than `b`, comparing hour, then minute, then second. */
  predicate ClockBefore(a: ClockTime, b: ClockTime)
  {
    a.hour < b.hour
    || (a.hour == b.hour && (a.minute < b.minute || (a.minute == b.minute && a.second < b.second)))
  }

  /** Seconds since midnight order clock times as hour, minute, second do. */
  lemma ClockSecondsOrder(a: ClockTime, b: ClockTime)
    ensures ClockSeconds(a) < ClockSeconds(b) <==> ClockBefore(a, b)
  {
    var sa, sb := ClockSeconds(a), ClockSeconds(b);
    if a.hour < b.hour {
      assert sa < a.hour * 3600 + 3600 <= b.hour * 3600 <= sb;
    } else if a.hour > b.hour {
      assert sb < b.hour * 3600 + 3600 <= a.hour * 3600 <= sa;
    } else if a.minute < b.minute {
      assert sa < a.hour * 3600 + a.minute * 60 + 60 <= sb;
    } else if a.minute > b.minute {
      assert sb < b.hour * 3600 + b.minute * 60 + 60 <= sa;
    }
  }

  // ---------------------------------------------------------------------------
  // The three outcomes
  // ---------------------------------------------------------------------------

  /** No location, with the day-length error message. */
  predicate IsDayLengthError(r: SolveResult)
  {
    r.location.None? && r.message == Some(DayLengthError)
  }

  /** A location with latitude 0.0 and the equinox warning. */
  predicate IsEquinoxLocation(r: SolveResult)
  {
    r.location.Some? && r.location.value.latitude == 0.0 && r.message == Some(EquinoxWarning)
  }

  /** A location with no message. */
  predicate IsSolvedLocation(r: SolveResult)
  {
    r.location.Some? && r.message.None?
  }

  /** Every result of the solver has exactly one of the three forms, and the
      error form is the one for a sunset not later than sunrise. */
  lemma OutcomeIsOneOfThree(m: Transcendentals, day: DayOfYear, sunrise: ClockTime, sunset: ClockTime,
                            utcOffset: real)
    ensures var r := SolveLocation(m, day, sunrise, sunset, utcOffset);
      && (IsDayLengthError(r) || IsEquinoxLocation(r) || IsSolvedLocation(r))
      && !(IsDayLengthError(r) && IsEquinoxLocation(r))
      && !(IsDayLengthError(r) && IsSolvedLocation(r))
      && !(IsEquinoxLocation(r) && IsSolvedLocation(r))
      && (IsDayLengthError(r) <==> !ClockBefore(sunrise, sunset))
  {
    ClockSecondsOrder(sunrise, sunset);
  }

  /** A sunset not later than sunrise gives the same error whatever the
      date, the UTC offset and the transcendental functions. */
  lemma DayLengthErrorIgnoresDateAndOffset(m1: Transcendentals, m2: Transcendentals,
                                           day1: DayOfYear, day2: DayOfYear,
                                           sunrise: ClockTime, sunset: ClockTime,
                                           utcOffset1: real, utcOffset2: real)
    requires !ClockBefore(sunrise, sunset)
    ensures SolveLocation(m1, day1, sunrise, sunset, utcOffset1)
         == SolveLocation(m2, day2, sunrise, sunset, utcOffset2)
         == SolveResult(None, Some(DayLengthError))
  {
    ClockSecondsOrder(sunrise, sunset);
  }

  // ---------------------------------------------------------------------------
  // Longitude
  // ---------------------------------------------------------------------------

  /** Moving local solar noon (the midpoint of sunrise and sunset) later by a
      number of minutes, with the date and the UTC offset fixed, lowers the
      longitude by exactly a quarter of a degree per minute. */
  lemma LongitudeFollowsSolarNoon(m: Transcendentals, day: DayOfYear,
                                  sunrise1: ClockTime, sunset1: ClockTime,
                                  sunrise2: ClockTime, sunset2: ClockTime,
                                  utcOffset: real, minutes: int)
    requires ClockBefore(sunrise1, sunset1) && ClockBefore(sunrise2, sunset2)
    requires ClockSeconds(sunrise2) + ClockSeconds(sunset2)
          == ClockSeconds(sunrise1) + ClockSeconds(sunset1) + 120 * minutes
    ensures var r1 := SolveLocation(m, day, sunrise1, sunset1, utcOffset);
      var r2 := SolveLocation(m, day, sunrise2, sunset2, utcOffset);
      && r1.location.Some? && r2.location.Some?
      && r2.location.value.longitude == r1.location.value.longitude - 0.25 * minutes as real
  {
    ClockSecondsOrder(sunrise1, sunset1);
    ClockSecondsOrder(sunrise2, sunset2);
  }

  /** Shifting sunrise and sunset by the same amount keeps the day length, so
      the latitude and the message do not change. */
  lemma ShiftKeepsLatitude(m: Transcendentals, day: DayOfYear,
                           sunrise1: ClockTime, sunset1: ClockTime,
                           sunrise2: ClockTime, sunset2: ClockTime,
                           utcOffset: real)
    requires ClockBefore(sunrise1, sunset1)
    requires ClockSeconds(sunset2) - ClockSeconds(sunrise2) == ClockSeconds(sunset1) - ClockSeconds(sunrise1)
    ensures var r1 := SolveLocation(m, day, sunrise1, sunset1, utcOffset);
      var r2 := SolveLocation(m, day, sunrise2, sunset2, utcOffset);
      && r1.location.Some? && r2.location.Some?
      && r2.location.value.latitude == r1.location.value.latitude
      && r2.message == r1.message
  {
    ClockSecondsOrder(sunrise1, sunset1);
    ClockSecondsOrder(sunrise2, sunset2);
    if Abs(m.tan(SolarDeclinationAndEot(m, day).declination)) < EquinoxTanThreshold {
      LatitudeNearEquinox(m, day, sunrise1, sunset1, utcOffset);
      LatitudeNearEquinox(m, day, sunrise2, sunset2, utcOffset);
    } else {
      LatitudeFromHourAngle(m, day, sunrise1, sunset1, utcOffset);
      LatitudeFromHourAngle(m, day, sunrise2, sunset2, utcOffset);
    }
  }

  /** Raising the UTC offset by some hours raises the longitude by 15 degrees
      per hour and changes nothing else. */
  lemma UtcOffsetShiftsLongitude(m: Transcendentals, day: DayOfYear, sunrise: ClockTime, sunset: ClockTime,
                                 utcOffset: real, hours: real)
    requires ClockBefore(sunrise, sunset)
    ensures var r1 := SolveLocation(m, day, sunrise, sunset, utcOffset);
      var r2 := SolveLocation(m, day, sunrise, sunset, utcOffset + hours);
      && r1.location.Some? && r2.location.Some?
      && r2.location.value.longitude == r1.location.value.longitude + 15.0 * hours
      && r2.location.value.latitude == r1.location.value.latitude
      && r2.message == r1.message
  {
    ClockSecondsOrder(sunrise, sunset);
  }

  /** The longitude does not depend on the latitude computation: replacing
      `tan` and `atan`, which decide the latitude branch and value, leaves it
      unchanged, so the equinox path and the normal path report the same
      longitude. */
  lemma LongitudeIndependentOfLatitude(m: Transcendentals, tan': real -> real, atan': real -> real,
                                       day: DayOfYear, sunrise: ClockTime, sunset: ClockTime,
                                       utcOffset: real)
    requires ClockBefore(sunrise, sunset)
    ensures var r1 := SolveLocation(m, day, sunrise, sunset, utcOffset);
      var r2 := SolveLocation(m.(tan := tan', atan := atan'), day, sunrise, sunset, utcOffset);
      && r1.location.Some? && r2.location.Some?
      && r2.location.value.longitude == r1.location.value.longitude
  {
    ClockSecondsOrder(sunrise, sunset);
    var m' := m.(tan := tan', atan := atan');
    assert SolarDeclinationAndEot(m', day).eot == SolarDeclinationAndEot(m, day).eot;
  }

  /** The code does not bring the longitude into [-180, 180]: at UTC+14 with
      local solar noon at 12:28 the result is east of 180 degrees (the same
      place, at about 157 degrees west, is reported near 203 degrees). */
  lemma LongitudeNotNormalized(m: Transcendentals, day: DayOfYear)
    requires SinBounded(m) && CosBounded(m)
    ensures var r := SolveLocation(m, day, ClockTime(6, 28, 0), ClockTime(18, 28, 0), 14.0);
      r.location.Some? && r.location.value.longitude > 180.0
  {
  }

  // ---------------------------------------------------------------------------
  // Latitude
  // ---------------------------------------------------------------------------

  /** Dividing by a non-zero number and multiplying back cancels. */
  lemma DivideThenMultiply(a: real, t: real)
    requires t != 0.0
    ensures (a / t) * t == a
  {
  }

  /** Multiplying by a non-zero number and dividing back cancels. */
  lemma MultiplyThenDivide(a: real, t: real)
    requires t != 0.0
    ensures (a * t) / t == a
  {
  }

  /** Dividing by a positive number keeps a strict order, by a negative one reverses it. */
  lemma DivideKeepsOrder(a: real, b: real, t: real)
    requires a < b && t != 0.0
    ensures t > 0.0 ==> a / t < b / t
    ensures t < 0.0 ==> b / t < a / t
  {
  }

  /** Away from the equinox threshold the latitude solves the sunrise equation
      tan(latitude) = -cos(omega) / tan(declination), where the hour angle
      omega is one degree per 480 seconds of day length, in (0, 180) degrees. */
  lemma LatitudeFromHourAngle(m: Transcendentals, day: DayOfYear, sunrise: ClockTime, sunset: ClockTime,
                              utcOffset: real)
    requires ClockBefore(sunrise, sunset)
    requires Abs(m.tan(SolarDeclinationAndEot(m, day).declination)) >= EquinoxTanThreshold
    ensures var r := SolveLocation(m, day, sunrise, sunset, utcOffset);
      var dayLength := ClockSeconds(sunset) - ClockSeconds(sunrise);
      var omegaDeg := dayLength as real / 480.0;
      var tanDelta := m.tan(SolarDeclinationAndEot(m, day).declination);
      && 0.0 < omegaDeg < 180.0
      && IsSolvedLocation(r)
      && r.location.value.latitude == Degrees(m.atan(-m.cos(Radians(omegaDeg)) / tanDelta))
  {
    ClockSecondsOrder(sunrise, sunset);
  }

  /** Below the threshold the latitude is 0.0 with the equinox warning. */
  lemma LatitudeNearEquinox(m: Transcendentals, day: DayOfYear, sunrise: ClockTime, sunset: ClockTime,
                            utcOffset: real)
    requires ClockBefore(sunrise, sunset)
    requires Abs(m.tan(SolarDeclinationAndEot(m, day).declination)) < EquinoxTanThreshold
    ensures IsEquinoxLocation(SolveLocation(m, day, sunrise, sunset, utcOffset))
  {
    ClockSecondsOrder(sunrise, sunset);
  }

  /** On day 81 the seasonal angle is zero, so the declination is zero and
      every valid input takes the equinox path, with the equation of time
      at -7.53 minutes. */
  lemma Day81TakesEquinoxPath(m: Transcendentals, sunrise: ClockTime, sunset: ClockTime, utcOffset: real)
    requires ExactAtZero(m)
    requires ClockBefore(sunrise, sunset)
    ensures var r := SolveLocation(m, EquinoxDay, sunrise, sunset, utcOffset);
      var noonMinutes := (ClockSeconds(sunrise) + ClockSeconds(sunset)) as real / 120.0;
      && IsEquinoxLocation(r)
      && r.location.value.longitude == (720.0 - noonMinutes + 60.0 * utcOffset + 7.53) / 4.0
  {
    ClockSecondsOrder(sunrise, sunset);
  }

  /** Sunrise 06:30:00 and sunset 18:30:00 at UTC+8 on day 81: a 12-hour day,
      local solar noon at 12:30, latitude 0.0 with the equinox warning and
      longitude 114.3825 degrees east. */
  lemma EquinoxExampleUtcPlus8(m: Transcendentals)
    requires ExactAtZero(m)
    ensures SolveLocation(m, EquinoxDay, ClockTime(6, 30, 0), ClockTime(18, 30, 0), 8.0)
         == SolveResult(Some(Location(0.0, 114.3825)), Some(EquinoxWarning))
  {
    Day81TakesEquinoxPath(m, ClockTime(6, 30, 0), ClockTime(18, 30, 0), 8.0);
  }

  /** A 12-hour day away from the equinox threshold places the observer on
      the equator up to rounding: the hour angle is 90 degrees, where cos is
      within 2e-16 of zero (the decimal pi/2 sits about 1.2e-16 below the
      true one), so the latitude is within 1e-10 degrees of 0. */
  lemma TwelveHourDayNearEquator(m: Transcendentals, day: DayOfYear, sunrise: ClockTime, sunset: ClockTime,
                                 utcOffset: real)
    requires Abs(m.cos(PI / 2.0)) <= 0.0000000000000002 && AtanShrinks(m)
    requires ClockSeconds(sunset) - ClockSeconds(sunrise) == 43200
    requires Abs(m.tan(SolarDeclinationAndEot(m, day).declination)) >= EquinoxTanThreshold
    ensures var r := SolveLocation(m, day, sunrise, sunset, utcOffset);
      IsSolvedLocation(r) && Abs(r.location.value.latitude) < 0.0000000001
  {
    ClockSecondsOrder(sunrise, sunset);
    LatitudeFromHourAngle(m, day, sunrise, sunset, utcOffset);
    var tanDelta := m.tan(SolarDeclinationAndEot(m, day).declination);
    assert 43200 as real / 480.0 == 90.0;
    assert Radians(90.0) == PI / 2.0;
    var c := -m.cos(PI / 2.0);
    QuotientBounded(c, tanDelta, 0.0000000000000002);
    var a := m.atan(c / tanDelta);
    assert Abs(a) <= 0.0000000000002;
    assert Abs(Degrees(a)) < 0.0000000001;
  }

  /** The latitude found away from the equinox threshold satisfies the
      sunrise equation cos(omega) = -tan(latitude) tan(declination). */
  lemma LatitudeSolvesSunriseEquation(m: Transcendentals, day: DayOfYear, sunrise: ClockTime, sunset: ClockTime,
                                      utcOffset: real)
    requires TanInvertsAtan(m)
    requires ClockBefore(sunrise, sunset)
    requires Abs(m.tan(SolarDeclinationAndEot(m, day).declination)) >= EquinoxTanThreshold
    ensures var r := SolveLocation(m, day, sunrise, sunset, utcOffset);
      var omegaDeg := (ClockSeconds(sunset) - ClockSeconds(sunrise)) as real / 480.0;
      var tanDelta := m.tan(SolarDeclinationAndEot(m, day).declination);
      && r.location.Some?
      && m.tan(Radians(r.location.value.latitude)) * tanDelta == -m.cos(Radians(omegaDeg))
  {
    LatitudeFromHourAngle(m, day, sunrise, sunset, utcOffset);
    var r := SolveLocation(m, day, sunrise, sunset, utcOffset);
    var omegaDeg := (ClockSeconds(sunset) - ClockSeconds(sunrise)) as real / 480.0;
    var tanDelta := m.tan(SolarDeclinationAndEot(m, day).declination);
    var x := -m.cos(Radians(omegaDeg)) / tanDelta;
    assert r.location.value.latitude == Degrees(m.atan(x));
    RadiansOfDegrees(m.atan(x));
    assert m.tan(Radians(r.location.value.latitude)) == m.tan(m.atan(x)) == x;
    DivideThenMultiply(-m.cos(Radians(omegaDeg)), tanDelta);
  }

  /** The latitude whose tangent times tan(delta) is -c is found again as
      degrees(atan(-c / tan(delta))). */
  lemma AtanRecoversLatitude(m: Transcendentals, latitude: real, c: real, tanDelta: real)
    requires AtanInvertsTan(m)
    requires -90.0 < latitude < 90.0
    requires tanDelta != 0.0
    requires m.tan(Radians(latitude)) * tanDelta == -c
    ensures Degrees(m.atan(-c / tanDelta)) == latitude
  {
    var phi := Radians(latitude);
    assert -PI / 2.0 < phi < PI / 2.0;
    MultiplyThenDivide(m.tan(phi), tanDelta);
    assert -c / tanDelta == m.tan(phi);
    DegreesOfRadians(latitude);
  }

  /** A local solar noon placed where the clock-noon balance puts it for a
      longitude is solved back to that longitude. */
  lemma RecoversForwardLongitude(m: Transcendentals, day: DayOfYear, sunrise: ClockTime, sunset: ClockTime,
                                 utcOffset: real, longitude: real)
    requires ClockBefore(sunrise, sunset)
    requires (ClockSeconds(sunrise) + ClockSeconds(sunset)) as real / 120.0
          == 720.0 - 4.0 * longitude - SolarDeclinationAndEot(m, day).eot + 60.0 * utcOffset
    ensures var r := SolveLocation(m, day, sunrise, sunset, utcOffset);
      r.location.Some? && r.location.value.longitude == longitude
  {
    ClockSecondsOrder(sunrise, sunset);
  }

  /** A day length whose hour angle the sunrise equation gives for a latitude
      is solved back to that latitude, with no message. */
  lemma RecoversForwardLatitude(m: Transcendentals, day: DayOfYear, sunrise: ClockTime, sunset: ClockTime,
                                utcOffset: real, latitude: real)
    requires AtanInvertsTan(m)
    requires -90.0 < latitude < 90.0
    requires ClockBefore(sunrise, sunset)
    requires Abs(m.tan(SolarDeclinationAndEot(m, day).declination)) >= EquinoxTanThreshold
    requires m.tan(Radians(latitude)) * m.tan(SolarDeclinationAndEot(m, day).declination)
          == -m.cos(Radians((ClockSeconds(sunset) - ClockSeconds(sunrise)) as real / 480.0))
    ensures var r := SolveLocation(m, day, sunrise, sunset, utcOffset);
      IsSolvedLocation(r) && r.location.value.latitude == latitude
  {
    LatitudeFromHourAngle(m, day, sunrise, sunset, utcOffset);
    var omegaDeg := (ClockSeconds(sunset) - ClockSeconds(sunrise)) as real / 480.0;
    var tanDelta := m.tan(SolarDeclinationAndEot(m, day).declination);
    var c := m.cos(Radians(omegaDeg));
    AtanRecoversLatitude(m, latitude, c, tanDelta);
    var r := SolveLocation(m, day, sunrise, sunset, utcOffset);
    assert r.location.value.latitude == Degrees(m.atan(-c / tanDelta));
  }

  /** Sunrise and sunset produced by the forward model of a location are
      solved back to that location exactly: local solar noon is where the
      clock-noon balance puts it for the longitude, and half the day length
      is the hour angle that the sunrise equation gives for the latitude. */
  lemma RecoversForwardLocation(m: Transcendentals, day: DayOfYear, sunrise: ClockTime, sunset: ClockTime,
                                utcOffset: real, latitude: real, longitude: real)
    requires AtanInvertsTan(m)
    requires -90.0 < latitude < 90.0
    requires ClockBefore(sunrise, sunset)
    requires Abs(m.tan(SolarDeclinationAndEot(m, day).declination)) >= EquinoxTanThreshold
    requires (ClockSeconds(sunrise) + ClockSeconds(sunset)) as real / 120.0
          == 720.0 - 4.0 * longitude - SolarDeclinationAndEot(m, day).eot + 60.0 * utcOffset
    requires m.tan(Radians(latitude)) * m.tan(SolarDeclinationAndEot(m, day).declination)
          == -m.cos(Radians((ClockSeconds(sunset) - ClockSeconds(sunrise)) as real / 480.0))
    ensures SolveLocation(m, day, sunrise, sunset, utcOffset)
         == SolveResult(Some(Location(latitude, longitude)), None)
  {
    RecoversForwardLatitude(m, day, sunrise, sunset, utcOffset, latitude);
    RecoversForwardLongitude(m, day, sunrise, sunset, utcOffset, longitude);
  }

  /** The sunrise-equation latitude grows with the hour angle when
      tan(delta) is positive and shrinks with it when tan(delta) is negative. */
  lemma SunriseEquationLatitudeOrder(m: Transcendentals, w1: real, w2: real, tanDelta: real)
    requires CosDecreasingOnHalfTurn(m) && AtanIncreasing(m)
    requires 0.0 <= w1 < w2 <= PI
    requires tanDelta != 0.0
    ensures tanDelta > 0.0 ==>
      Degrees(m.atan(-m.cos(w1) / tanDelta)) < Degrees(m.atan(-m.cos(w2) / tanDelta))
    ensures tanDelta < 0.0 ==>
      Degrees(m.atan(-m.cos(w2) / tanDelta)) < Degrees(m.atan(-m.cos(w1) / tanDelta))
  {
    var c1, c2 := -m.cos(w1), -m.cos(w2);
    assert c1 < c2;
    DivideKeepsOrder(c1, c2, tanDelta);
    var x1, x2 := c1 / tanDelta, c2 / tanDelta;
    if tanDelta > 0.0 {
      assert m.atan(x1) < m.atan(x2);
    } else {
      assert m.atan(x2) < m.atan(x1);
    }
  }

  /** Away from the equinox threshold, on a day when the sun is north of the
      equator a longer day puts the observer further north, and when it is
      south a longer day puts the observer further south. */
  lemma LatitudeMonotoneInDayLength(m: Transcendentals, day: DayOfYear,
                                    sunrise1: ClockTime, sunset1: ClockTime,
                                    sunrise2: ClockTime, sunset2: ClockTime,
                                    utcOffset: real)
    requires CosDecreasingOnHalfTurn(m) && AtanIncreasing(m)
    requires Abs(m.tan(SolarDeclinationAndEot(m, day).declination)) >= EquinoxTanThreshold
    requires ClockBefore(sunrise1, sunset1) && ClockBefore(sunrise2, sunset2)
    requires ClockSeconds(sunset1) - ClockSeconds(sunrise1) < ClockSeconds(sunset2) - ClockSeconds(sunrise2)
    ensures var tanDelta := m.tan(SolarDeclinationAndEot(m, day).declination);
      var r1 := SolveLocation(m, day, sunrise1, sunset1, utcOffset);
      var r2 := SolveLocation(m, day, sunrise2, sunset2, utcOffset);
      && r1.location.Some? && r2.location.Some?
      && (tanDelta > 0.0 ==> r1.location.value.latitude < r2.location.value.latitude)
      && (tanDelta < 0.0 ==> r1.location.value.latitude > r2.location.value.latitude)
  {
    LatitudeFromHourAngle(m, day, sunrise1, sunset1, utcOffset);
    LatitudeFromHourAngle(m, day, sunrise2, sunset2, utcOffset);
    var w1 := Radians((ClockSeconds(sunset1) - ClockSeconds(sunrise1)) as real / 480.0);
    var w2 := Radians((ClockSeconds(sunset2) - ClockSeconds(sunrise2)) as real / 480.0);
    SunriseEquationLatitudeOrder(m, w1, w2, m.tan(SolarDeclinationAndEot(m, day).declination));
  }

}
