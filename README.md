# Sunrise/sunset inverse solar positioning, modelled in Dafny

The repository infers where an observer stands from one day's local sunrise
and sunset clock times and the UTC offset of the clock. Its computational core
is the class `SolarMath` in `sunrise_sunset.py`:

- `get_solar_declination_and_eot` turns the day of the year into the seasonal
  angle B = (360/365)(day - 81) degrees and from it the equation of time
  (minutes) and the solar declination (radians);
- `solve_location` converts both clock times to seconds, rejects a day whose
  sunset is not later than its sunrise, takes local solar noon as the midpoint
  of the two, derives the longitude from the clock-noon balance (4 minutes of
  time per degree) and the latitude from the sunrise equation
  tan(latitude) = -cos(omega) / tan(declination), falling back to latitude 0.0
  with a warning when abs(tan(declination)) < 0.001.

The model is pure, like the source:

- `Wrappers.dfy`: `Option`, for Python's `None`.
- `MathFunctions.dfy`: `math.pi`, `math.radians`, `math.degrees` and `abs`
  written out over `real`; `sin`, `cos`, `tan` and `atan` passed in as a record
  `Transcendentals`. Each property that needs a fact about them requires that
  fact as a predicate. The facts are chosen to hold of the real functions at the
  decimal value of pi: abs(sin) <= 1, abs(cos) <= 1, atan in (-pi/2, pi/2) on
  arguments in [-1000, 1000], abs(atan x) <= abs(x), the exact values at 0.
- `SolarMath.dfy`: the inputs (day of year 1..366, clock times with the ranges
  of `datetime.time`), the results (`SolveResult` is the pair of an optional
  location and an optional message that the source returns, with the source's
  two messages verbatim) and the two operations.
- `SolarMathProperties.dfy`: lemmas relating several calls: the three outcome
  forms, the day-length error, how the longitude moves with solar noon and
  with the UTC offset, its independence from the latitude branch, the two
  latitude branches, and worked examples.

Facts about the code that the model makes explicit:

- The hour angle is (day length in hours / 2) * 15 degrees, which is one degree
  per 480 seconds of day length. It lies in (0, 180) degrees for valid inputs.
- The longitude is not brought into [-180, 180]. At UTC+14, a place near 157
  degrees west comes out near 203 degrees (`LongitudeNotNormalized`).
- `solve_location` does not check the UTC offset, and the model accepts any
  real. Its only caller's input widget limits the offset to [-12.0, 14.0] in
  steps of 0.5 (sunrise_sunset.py:157).
- For sunrise 06:30 and sunset 18:30 at UTC+8 on day 81, the longitude is
  114.3825 degrees, because the equation of time that day is -7.53 minutes.
- The 0.001 threshold on abs(tan(declination)) keeps the argument of `atan`
  within [-1000, 1000] in the normal branch, which bounds the latitude
  strictly inside (-90, 90).

## Model

| member | source | states |
|---|---|---|
| SolarMath.ClockSeconds | sunrise_sunset.py:41-42 | seconds since midnight lie in [0, 86399] |
| SolarMath.ClockSecondsDecompose | sunrise_sunset.py:41-42 | the second count gives back the hour, minute and second it came from |
| SolarMath.SeasonalAngle | sunrise_sunset.py:26 | B is zero exactly at day 81, negative exactly before it, and lies in [-80*360/365, 285*360/365] |
| SolarMath.SolarDeclinationAndEot | sunrise_sunset.py:24-36 | declination in degrees is 23.45 sin(B); with abs(sin) <= 1 it lies within +-23.45 degrees (below 0.41 rad); with abs(sin), abs(cos) <= 1 the equation of time lies in [-18.9, 18.9] minutes; at day 81 the angles are (0, -7.53) |
| SolarMath.SolarNoonSeconds | sunrise_sunset.py:49 | solar noon is equally far from sunrise and sunset and, for a positive day length, strictly between them |
| SolarMath.LongitudeFromSolarNoon | sunrise_sunset.py:55-58 | 720 minutes equal UTC solar noon plus 4 minutes per degree of longitude plus the equation of time |
| SolarMath.HourAngleDegrees | sunrise_sunset.py:61-62 | the hour angle is one degree per 480 seconds of day length and lies in (0, 180) for day lengths shorter than a day |
| SolarMath.SolveLocation | sunrise_sunset.py:39-74 | no location exactly when sunset is not later than sunrise, then with the error message; otherwise either no message or the warning with latitude 0.0, the warning exactly when abs(tan(declination)) < 0.001; longitude satisfies the clock-noon balance with noon at the midpoint; with abs(cos) <= 1 and atan inside (-pi/2, pi/2) on [-1000, 1000], latitude in (-90, 90) |
| MathFunctions.DegreesOfRadians | sunrise_sunset.py:33-34 | converting degrees to radians and back returns the angle |
| MathFunctions.AtanDegreesBounded | sunrise_sunset.py:71-72 | an arc tangent of an argument in [-1000, 1000], converted to degrees, lies in (-90, 90) |
| MathFunctions.QuotientBounded | sunrise_sunset.py:67-70 | dividing by a number whose absolute value is at least 0.001 multiplies a bound by at most 1000, so -cos(omega)/tan(delta) lies in [-1000, 1000] past the threshold |
| MathFunctions.RadiansOfDegrees | sunrise_sunset.py:71-72 | converting radians to degrees and back returns the angle |
| MathFunctions.Abs | sunrise_sunset.py:67 | abs returns x or -x, whichever is non-negative |
| SolarMathProperties.ClockSecondsOrder | sunrise_sunset.py:41-46 | seconds since midnight order clock times by hour, then minute, then second |
| SolarMathProperties.OutcomeIsOneOfThree | sunrise_sunset.py:45-74 | every result is exactly one of: day-length error, location with latitude 0.0 and warning, location with no message; the error exactly when sunset is not after sunrise |
| SolarMathProperties.DayLengthErrorIgnoresDateAndOffset | sunrise_sunset.py:45-47 | sunset not after sunrise gives (None, error message) whatever the date, UTC offset and trigonometry |
| SolarMathProperties.LongitudeFollowsSolarNoon | sunrise_sunset.py:49-58 | moving solar noon later by k minutes, date and offset fixed, lowers longitude by exactly 0.25 k degrees |
| SolarMathProperties.ShiftKeepsLatitude | sunrise_sunset.py:61-74 | sunrise and sunset shifted together keep latitude and message unchanged |
| SolarMathProperties.UtcOffsetShiftsLongitude | sunrise_sunset.py:56-58 | raising the UTC offset by h hours raises longitude by exactly 15 h degrees and changes nothing else |
| SolarMathProperties.LongitudeIndependentOfLatitude | sunrise_sunset.py:54-74 | replacing tan and atan, which choose the latitude branch and value, leaves the longitude unchanged |
| SolarMathProperties.LongitudeNotNormalized | sunrise_sunset.py:56-58 | at UTC+14 with solar noon 12:28 the longitude exceeds 180 degrees, for any date |
| SolarMathProperties.LatitudeFromHourAngle | sunrise_sunset.py:61-74 | with abs(tan(declination)) >= 0.001 the result has no message and latitude degrees(atan(-cos(omega)/tan(declination))) with omega = day length / 480 in (0, 180) degrees |
| SolarMathProperties.LatitudeNearEquinox | sunrise_sunset.py:65-68 | with abs(tan(declination)) < 0.001 the result is latitude 0.0 with the equinox warning |
| SolarMathProperties.Day81TakesEquinoxPath | sunrise_sunset.py:24-68 | on day 81 every valid input gets latitude 0.0 and the warning, with longitude (720 - noon + 60 offset + 7.53) / 4 |
| SolarMathProperties.EquinoxExampleUtcPlus8 | sunrise_sunset.py:39-68 | 06:30:00 to 18:30:00 at UTC+8 on day 81 gives (0.0, 114.3825) with the warning |
| SolarMathProperties.LatitudeSolvesSunriseEquation | sunrise_sunset.py:61-74 | given tan(atan x) = x, the latitude found satisfies the sunrise equation tan(latitude) tan(declination) = -cos(omega) |
| SolarMathProperties.AtanRecoversLatitude | sunrise_sunset.py:70-72 | given atan(tan x) = x on (-pi/2, pi/2), a latitude in (-90, 90) whose tangent times tan(declination) is -c is found again as degrees(atan(-c / tan(declination))) |
| SolarMathProperties.RecoversForwardLongitude | sunrise_sunset.py:49-58 | a solar noon placed where the clock-noon balance puts it for a longitude is solved back to exactly that longitude |
| SolarMathProperties.RecoversForwardLatitude | sunrise_sunset.py:61-74 | a day length whose hour angle satisfies the sunrise equation for a latitude in (-90, 90) is solved back to exactly that latitude, with no message |
| SolarMathProperties.RecoversForwardLocation | sunrise_sunset.py:39-74 | sunrise and sunset produced by the forward model of a location (outside the equinox threshold) are solved back to exactly that location with no message |
| SolarMathProperties.SunriseEquationLatitudeOrder | sunrise_sunset.py:70-72 | given cos decreasing on [0, pi] and atan increasing, the sunrise-equation latitude increases with the hour angle when tan(declination) > 0 and decreases when it is < 0 |
| SolarMathProperties.LatitudeMonotoneInDayLength | sunrise_sunset.py:61-74 | outside the equinox threshold, a longer day gives a more northern latitude when the declination's tangent is positive and a more southern one when it is negative |
| SolarMathProperties.TwelveHourDayNearEquator | sunrise_sunset.py:61-74 | a 12-hour day outside the equinox threshold gives no message and a latitude within 1e-10 degrees of 0, given abs(cos(pi/2)) <= 2e-16 and abs(atan x) <= abs(x) |

## Left out

- `calculate_schedule` (sunrise_sunset.py:80-115): the forward forecast delegates to an external ephemeris library whose results cannot be modelled here; skipping circumpolar dates and building the table are left out with it.
- The Streamlit interface (sunrise_sunset.py:121-363): form widgets, session state, map, charts, table and CSV download are presentation; its recomputation of the day length only repeats the core formula for display.
- The day of the year is an input in 1..366 rather than computed from a calendar date by the `datetime` library.
- `sin`, `cos`, `tan` and `atan` are parameters, not evaluated: properties that need their values or bounds take those facts as preconditions, and which real dates fall inside the 0.001 threshold is not decided.
- Floating-point rounding: the model computes over exact reals, so results such as 114.3825 are the exact values of the formulas, not IEEE doubles.
