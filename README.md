# CanIBreatheHere: the breathable-air model

A Dafny model of the `BreathableAir` class of CanIBreatheHere
(`source/CanIBreatheHere/BreathableAir.php`). The class answers "is the air
breathable at this latitude and longitude?". It works in four steps:

- It asks a remote elevation service for the altitude, once, and caches it.
- It assumes a temperature of 0 °C, also cached.
- It computes the pressure with the isothermal barometric formula
  P = P0 · exp(−M·g·z / R / T), using P0 = 101325 Pa, M = 0.0289644 kg/mol,
  g = 9.80665 m/s² and R = 8.31447 J/(mol·K).
- It sorts that pressure into "Yes" (above 80609 Pa), "Maybe" (above
  69208 Pa) or "Nope". A pressure equal to a cut-off falls in the lower band.

Files:

- `wrappers.dfy`: `Option` and `Result`.
- `exponential.dfy`: the platform's `exp` is a parameter `exp: real -> real`.
  `IsExponential(exp)` requires two laws: exp(x + y) = exp(x)·exp(y) and
  exp(x) ≥ 1 + x. These two laws hold only for e^x. From them the module
  derives exp(0) = 1, positivity, strict monotonicity and the bound
  exp(−a)·(1 + a) ≤ 1.
- `elevation.dfy`: the elevation service and the checks on its reply. A
  `Reply` records how far an exchange got: the transport could not be
  created, the request did not complete, or a response arrived with a status
  code and a body. The body is either malformed XML or a document with its
  `/height/meters` values. `ElevationService.Height` may return any reply and
  appends every exchange to `log`, so `log` counts the lookups.
- `breathable_air.dfy`: the formula, the verdict and the `BreathableAir` class.
  The class has the source's four fields. Its methods have the source's
  control flow: the cache test, the four checks in order, altitude before
  temperature.
- `usage.dfy`: two client methods. They show what follows from calling the
  class twice.

The parse-error check in `getAltitude` (BreathableAir.php:115) tests the
`DOMDocument` object, which is never false, so it can never fire. A malformed
body gives zero `/height/meters` entries and fails the cardinality check.
This is how `DOMDocument::loadXML` behaves on PHP 5 and 7, where a body it
cannot load yields a warning and `false`. The
model therefore has no parse-error case, and
`MalformedOrAmbiguousIsCardinalityError` states this behaviour.

The code retries after a failed lookup, and the model follows the code. A
failed lookup leaves `$altitude` unset, so the next `getAltitude` call asks
the service again. "At most one lookup per object" therefore holds only from
the first successful lookup on. `Usage.AltitudeTwice` states both cases.

## Model

| member | source | states |
|---|---|---|
| Elevation.LookupAltitude | source/CanIBreatheHere/BreathableAir.php:93-126 | a reply yields an altitude exactly when the transport was created, the request completed, the status is 200 and there is exactly one `/height/meters` entry; the altitude is then that entry |
| Elevation.FailuresInCheckOrder | source/CanIBreatheHere/BreathableAir.php:93-124 | each failure is the first failing check in the order init, exec, status, cardinality |
| Elevation.MalformedOrAmbiguousIsCardinalityError | source/CanIBreatheHere/BreathableAir.php:113-124 | with status 200, a malformed body or a document with zero or several heights is a cardinality error; no first match is taken |
| Elevation.ElevationService.Height | source/CanIBreatheHere/BreathableAir.php:93-109 | one request to the service at a position, recorded in the log with whatever reply came back |
| CanIBreatheHere.Kelvin | source/CanIBreatheHere/BreathableAir.php:157 | a Celsius temperature in kelvins is positive exactly above absolute zero; the assumed 0 °C is 273.15 K |
| CanIBreatheHere.Exponent | source/CanIBreatheHere/BreathableAir.php:160 | the exponent −M·g·z/R/T is 0 at sea level and, for T > 0, negative exactly above sea level |
| CanIBreatheHere.AtmosphericPressure | source/CanIBreatheHere/BreathableAir.php:139-162 | the barometric formula P0·exp(−M·g·z/R/T); for T > 0 the pressure is below 101325 Pa exactly above sea level |
| CanIBreatheHere.SeaLevelPressureIsP0 | source/CanIBreatheHere/BreathableAir.php:139-163 | at altitude 0 the pressure is exactly 101325 Pa |
| CanIBreatheHere.PressurePositive | source/CanIBreatheHere/BreathableAir.php:159-162 | the computed pressure is positive at every altitude |
| CanIBreatheHere.ExponentDecreasing | source/CanIBreatheHere/BreathableAir.php:160 | for T > 0 the exponent −M·g·z/R/T falls strictly as z rises |
| CanIBreatheHere.PressureDecreasesWithAltitude | source/CanIBreatheHere/BreathableAir.php:139-163 | for T > 0 the pressure strictly decreases as the altitude rises |
| CanIBreatheHere.Classify | source/CanIBreatheHere/BreathableAir.php:175-187 | Yes exactly above 80609 Pa, Maybe exactly in (69208, 80609], Nope exactly at or below 69208 Pa: the three bands cover every pressure |
| CanIBreatheHere.Answer | source/CanIBreatheHere/BreathableAir.php:169-187 | the answer text is always one of "Yes", "Maybe", "Nope" |
| CanIBreatheHere.AnswerInjective | source/CanIBreatheHere/BreathableAir.php:169-187 | the three answers are distinct texts |
| CanIBreatheHere.ClassifyAtBoundaries | source/CanIBreatheHere/BreathableAir.php:175-186 | 80609.000001 is Yes, 80609 is Maybe, 69208.000001 is Maybe, 69208 is Nope |
| CanIBreatheHere.ClassifyMonotone | source/CanIBreatheHere/BreathableAir.php:175-186 | a higher pressure never gives a worse verdict, ordering Nope < Maybe < Yes |
| CanIBreatheHere.SeaLevelIsBreathable | source/CanIBreatheHere/BreathableAir.php:139-177 | at altitude 0 the verdict is Yes |
| CanIBreatheHere.AtOrBelowSeaLevelIsBreathable | source/CanIBreatheHere/BreathableAir.php:139-177 | at or below sea level the pressure is at least 101325 Pa and the verdict is Yes |
| CanIBreatheHere.VerdictWorsensWithAltitude | source/CanIBreatheHere/BreathableAir.php:139-187 | for T > 0 a higher altitude never gives a better verdict |
| CanIBreatheHere.EverestIsNope | source/CanIBreatheHere/BreathableAir.php:139-186 | at 8848 m and 0 °C the pressure is at most P0 / 2.1 and the verdict is Nope |
| CanIBreatheHere.PressureFrom | source/CanIBreatheHere/BreathableAir.php:151-162 | a looked-up altitude gives the pressure at that altitude and 273.15 K, below 101325 Pa exactly above sea level; a failed lookup gives its own error and no pressure |
| CanIBreatheHere.AnswerFrom | source/CanIBreatheHere/BreathableAir.php:171-187 | a looked-up altitude gives "Yes", "Maybe" or "Nope" exactly in the three pressure bands at 273.15 K; a failed lookup gives its own error and no answer |
| CanIBreatheHere.FailurePropagates | source/CanIBreatheHere/BreathableAir.php:151-173 | a failed lookup gives neither a pressure nor an answer but the same error, unchanged |
| CanIBreatheHere.EndToEndAnswers | source/CanIBreatheHere/BreathableAir.php:139-188 | an altitude of 0 m answers "Yes"; 8848 m answers "Nope" |
| CanIBreatheHere.BreathableAir.constructor | source/CanIBreatheHere/BreathableAir.php:51-55 | stores latitude and longitude; nothing is cached |
| CanIBreatheHere.BreathableAir.GetTemperature | source/CanIBreatheHere/BreathableAir.php:65-72 | returns 0 °C and caches it; a cached temperature is never changed |
| CanIBreatheHere.BreathableAir.GetAltitude | source/CanIBreatheHere/BreathableAir.php:89-130 | with a cached altitude: returns it, the service is not asked and nothing changes; without one: the service is asked exactly once at this position, the result is the checked reply, and the altitude is cached only on success; position and temperature never change |
| CanIBreatheHere.BreathableAir.GetAtmosphericPressure | source/CanIBreatheHere/BreathableAir.php:139-163 | the pressure for the looked-up altitude at 273.15 K, or the lookup's error unchanged; the temperature is cached only when the lookup succeeded |
| CanIBreatheHere.BreathableAir.IsBreathable | source/CanIBreatheHere/BreathableAir.php:171-188 | the answer text for that pressure's band, or the lookup's error unchanged |
| Usage.AltitudeTwice | source/CanIBreatheHere/BreathableAir.php:89-130 | two calls on an object with nothing cached: after a successful first call there is one lookup and the second call returns the same altitude; after a failed first call there are two lookups |
| Usage.BreathableTwice | source/CanIBreatheHere/BreathableAir.php:171-188 | once an answer has been given, asking again gives the same answer with no further lookup: after a successful first call the log has grown by exactly the one lookup the first call made, or by none if the altitude was already cached |

## Left out

- The curl transport and the `DOMDocument`/`DOMXPath` parsing (BreathableAir.php:93-120) are network I/O and library calls. They are replaced by the `Reply` that `ElevationService.Height` returns. An exchange is logged even when the transport could not be created.
- The text-to-number conversion of the `/height/meters` node value when the `Length` is built (BreathableAir.php:126) is not modelled. The document carries the heights as reals.
- Floating-point evaluation of `exp` and of the constants is not modelled. Arithmetic is exact over the reals, and `exp` is any function that satisfies `IsExponential`.
- The PhpUnitsOfMeasure `Length`, `Temperature` and `Pressure` classes and `toUnit` are not part of this model. Altitudes are plain metres, pressures plain pascals, and 0 °C is 273.15 K.
- `AtmosphericPressure` requires a temperature other than 0 K, where the source would divide by zero. The class only ever passes 273.15 K.
- On PHP 8 and later, `loadXML('')` throws a `ValueError` for an empty body (BreathableAir.php:114) before the cardinality check is reached. The model follows the PHP 5 and 7 behaviour, where an empty body is a cardinality error like any other malformed body.
- `curl_close`, skipped on the error paths, is resource handling and not behaviour.
- `www/__main.php` (route wiring, configuration, a duplicate uncached `getAltitude`, placeholder outputs) and `www/resources/js/main.js` (browser geolocation and page updates) are I/O and user interface, not part of this model.
- EverestIsNope: bounds the pressure at 8848 m by P0 / 2.1 (about 48250 Pa) instead of the roughly 33500 Pa that e^x gives. The tangent bound alone gives this, and it is enough for the verdict.
