/**
 * Whether the air at a latitude/longitude is breathable.
 *
 * `BreathableAir` keeps a position, fetches the altitude there from the
 * elevation service once it is first needed, assumes a temperature of 0 °C,
 * turns both into an atmospheric pressure with the isothermal barometric
 * formula and sorts that pressure into three bands: Yes, Maybe and Nope.
 *
 * Units are fixed: altitudes in metres, temperatures in degrees Celsius or
 * kelvins, pressures in pascals. Floating-point numbers become reals.
 */
module CanIBreatheHere {
  import opened Wrappers
  import opened Exponential
  import opened Elevation

  // ---------------------------------------------------------------------
  // Temperature
  // ---------------------------------------------------------------------

  datatype Temperature = Celsius(degrees: real)

  const ZeroCelsiusInKelvin: real := 273.15

  /** The temperature in kelvins; positive exactly above absolute zero. */
  function Kelvin(t: Temperature): (k: real)
    ensures k > 0.0 <==> t.degrees > -ZeroCelsiusInKelvin
    ensures t == AssumedTemperature ==> k == ZeroCelsiusInKelvin
  {
    t.degrees + ZeroCelsiusInKelvin
  }

  /** The temperature assumed everywhere: freezing point, 0 °C. */
  const AssumedTemperature: Temperature := Celsius(0.0)

  // ---------------------------------------------------------------------
  // Barometric formula
  // ---------------------------------------------------------------------

  /** Pressure at sea level (Pa). */
  const SeaLevelPressure: real := 101325.0
  /** Mass of one mole of air (kg/mol). */
  const MolarMassOfAir: real := 0.0289644
  /** Gravitational acceleration (m/s²). */
  const Gravity: real := 9.80665
  /** Gas constant (J/(mol·K)). */
  const GasConstant: real := 8.31447

  /** The exponent of the barometric formula, -M·g·z / R / T, evaluated in
      the same order as the source. */
  function Exponent(z: real, t: real): (r: real)
    requires t != 0.0
    ensures z == 0.0 ==> r == 0.0
    ensures t > 0.0 ==> (r < 0.0 <==> z > 0.0)
  {
    -MolarMassOfAir * Gravity * z / GasConstant / t
  }

  /** Pressure (Pa) at altitude `z` (m) and temperature `t` (K):
      P = P0 · exp(-M·g·z / (R·T)). For a positive temperature it is below
      the sea-level pressure P0 exactly above sea level. */
  function AtmosphericPressure(exp: real -> real, z: real, t: real): (p: real)
    requires t != 0.0
    ensures IsExponential(exp) && t > 0.0 ==> (p < SeaLevelPressure <==> z > 0.0)
  {
    ExpBelowOne(exp, Exponent(z, t));
    SeaLevelPressure * exp(Exponent(z, t))
  }

  /** At sea level the exponent vanishes and the pressure is exactly P0. */
  lemma SeaLevelPressureIsP0(exp: real -> real, t: real)
    requires IsExponential(exp)
    requires t != 0.0
    ensures AtmosphericPressure(exp, 0.0, t) == SeaLevelPressure
  {
    assert Exponent(0.0, t) == 0.0;
    ExpAtZero(exp);
  }

  /** The pressure is positive at every altitude. */
  lemma PressurePositive(exp: real -> real, z: real, t: real)
    requires IsExponential(exp)
    requires t != 0.0
    ensures AtmosphericPressure(exp, z, t) > 0.0
  {
    ExpPositive(exp, Exponent(z, t));
  }

  /** For a positive temperature the exponent falls as the altitude rises. */
  lemma ExponentDecreasing(z1: real, z2: real, t: real)
    requires t > 0.0
    requires z1 < z2
    ensures Exponent(z2, t) < Exponent(z1, t)
  {
  }

  /** For a positive temperature the pressure strictly decreases as the
      altitude rises. */
  lemma PressureDecreasesWithAltitude(exp: real -> real, z1: real, z2: real, t: real)
    requires IsExponential(exp)
    requires t > 0.0
    requires z1 < z2
    ensures AtmosphericPressure(exp, z2, t) < AtmosphericPressure(exp, z1, t)
  {
    ExponentDecreasing(z1, z2, t);
    ExpStrictlyIncreasing(exp, Exponent(z2, t), Exponent(z1, t));
  }

  // ---------------------------------------------------------------------
  // Breathability verdict
  // ---------------------------------------------------------------------

  datatype Verdict = Yes | Maybe | Nope

  /** Above this pressure (Pa), roughly 6000 ft and below, the answer is Yes. */
  const YesAbove: real := 80609.0
  /** Above this pressure (Pa), roughly below 10000 ft, the answer is at least Maybe. */
  const MaybeAbove: real := 69208.0

  /** The band a pressure (Pa) falls in. Both cut-offs are strict, so a
      pressure equal to a cut-off belongs to the lower band. */
  function Classify(pressure: real): (v: Verdict)
    ensures v == Yes <==> pressure > YesAbove
    ensures v == Maybe <==> MaybeAbove < pressure <= YesAbove
    ensures v == Nope <==> pressure <= MaybeAbove
  {
    if pressure > YesAbove then Yes
    else if pressure > MaybeAbove then Maybe
    else Nope
  }

  /** The answer as the text the caller receives. */
  function Answer(v: Verdict): (s: string)
    ensures s == "Yes" || s == "Maybe" || s == "Nope"
  {
    match v
    case Yes => "Yes"
    case Maybe => "Maybe"
    case Nope => "Nope"
  }

  /** Distinct verdicts are told apart by their text. */
  lemma AnswerInjective(v: Verdict, w: Verdict)
    requires Answer(v) == Answer(w)
    ensures v == w
  {
  }

  /** Orders the verdicts Nope < Maybe < Yes. */
  function Rank(v: Verdict): nat {
    match v
    case Nope => 0
    case Maybe => 1
    case Yes => 2
  }

  /** The cut-offs themselves, and values just above them. */
  lemma ClassifyAtBoundaries()
    ensures Classify(80609.000001) == Yes
    ensures Classify(80609.0) == Maybe
    ensures Classify(69208.000001) == Maybe
    ensures Classify(69208.0) == Nope
  {
  }

  /** A higher pressure never gives a worse verdict. */
  lemma ClassifyMonotone(p1: real, p2: real)
    requires p1 <= p2
    ensures Rank(Classify(p1)) <= Rank(Classify(p2))
  {
  }

  /** At sea level the pressure is P0 and the air is breathable. */
  lemma SeaLevelIsBreathable(exp: real -> real, t: real)
    requires IsExponential(exp)
    requires t != 0.0
    ensures Classify(AtmosphericPressure(exp, 0.0, t)) == Yes
  {
    SeaLevelPressureIsP0(exp, t);
  }

  /** At or below sea level the pressure is at least P0, so the verdict is Yes;
      this follows from the contract of `AtmosphericPressure`. */
  lemma AtOrBelowSeaLevelIsBreathable(exp: real -> real, z: real, t: real)
    requires IsExponential(exp)
    requires t > 0.0
    requires z <= 0.0
    ensures AtmosphericPressure(exp, z, t) >= SeaLevelPressure
    ensures Classify(AtmosphericPressure(exp, z, t)) == Yes
  {
  }

  /** Going higher never improves the verdict. */
  lemma VerdictWorsensWithAltitude(exp: real -> real, z1: real, z2: real, t: real)
    requires IsExponential(exp)
    requires t > 0.0
    requires z1 <= z2
    ensures Rank(Classify(AtmosphericPressure(exp, z2, t))) <=
            Rank(Classify(AtmosphericPressure(exp, z1, t)))
  {
    if z1 < z2 {
      PressureDecreasesWithAltitude(exp, z1, z2, t);
    }
    ClassifyMonotone(AtmosphericPressure(exp, z2, t), AtmosphericPressure(exp, z1, t));
  }

  /** At the height of Mount Everest (8848 m) at 0 °C the pressure is at most
      P0 / 2.1, about 48250 Pa, so the verdict is Nope. */
  lemma EverestIsNope(exp: real -> real)
    requires IsExponential(exp)
    ensures AtmosphericPressure(exp, 8848.0, Kelvin(AssumedTemperature)) * 2.1 <= SeaLevelPressure
    ensures Classify(AtmosphericPressure(exp, 8848.0, Kelvin(AssumedTemperature))) == Nope
  {
    var e := Exponent(8848.0, Kelvin(AssumedTemperature));
    var a := -e;
    assert a > 1.1;
    assert -a == e;
    ExpNegativeBound(exp, a);
    ExpPositive(exp, e);
    ScaleBelow(exp(e), 2.1, 1.0 + a);
  }

  // ---------------------------------------------------------------------
  // The pipeline as functions of the altitude lookup's outcome
  // ---------------------------------------------------------------------

  /** The pressure for a looked-up altitude at the assumed temperature; a
      failed lookup passes through unchanged. */
  function PressureFrom(exp: real -> real, altitude: Result<real, LookupError>): (r: Result<real, LookupError>)
    ensures r.Success? <==> altitude.Success?
    ensures altitude.Failure? ==> r.error == altitude.error
    ensures altitude.Success? ==> r.value == AtmosphericPressure(exp, altitude.value, ZeroCelsiusInKelvin)
    ensures IsExponential(exp) && altitude.Success? ==> (r.value < SeaLevelPressure <==> altitude.value > 0.0)
  {
    match altitude
    case Success(z) => Success(AtmosphericPressure(exp, z, Kelvin(AssumedTemperature)))
    case Failure(e) => Failure(e)
  }

  /** The answer for a looked-up altitude; a failed lookup passes through unchanged. */
  function AnswerFrom(exp: real -> real, altitude: Result<real, LookupError>): (r: Result<string, LookupError>)
    ensures r.Success? <==> altitude.Success?
    ensures altitude.Failure? ==> r.error == altitude.error
    ensures altitude.Success? ==>
              var p := AtmosphericPressure(exp, altitude.value, ZeroCelsiusInKelvin);
              (r.value == "Yes" <==> p > YesAbove) &&
              (r.value == "Maybe" <==> MaybeAbove < p <= YesAbove) &&
              (r.value == "Nope" <==> p <= MaybeAbove)
  {
    match PressureFrom(exp, altitude)
    case Success(p) => Success(Answer(Classify(p)))
    case Failure(e) => Failure(e)
  }

  /** A failed lookup yields neither a pressure nor an answer, but the same error. */
  lemma FailurePropagates(exp: real -> real, altitude: Result<real, LookupError>)
    ensures altitude.Failure? <==> PressureFrom(exp, altitude).Failure?
    ensures altitude.Failure? <==> AnswerFrom(exp, altitude).Failure?
    ensures altitude.Failure? ==>
              PressureFrom(exp, altitude) == Failure(altitude.error) &&
              AnswerFrom(exp, altitude) == Failure(altitude.error)
  {
  }

  /** The end-to-end answers: sea level is "Yes", Mount Everest is "Nope". */
  lemma EndToEndAnswers(exp: real -> real)
    requires IsExponential(exp)
    ensures AnswerFrom(exp, Success(0.0)) == Success("Yes")
    ensures AnswerFrom(exp, Success(8848.0)) == Success("Nope")
  {
    SeaLevelIsBreathable(exp, Kelvin(AssumedTemperature));
    EverestIsNope(exp);
  }

  // ---------------------------------------------------------------------
  // Memoised altitude lookup
  // ---------------------------------------------------------------------

  /**
   * How a cached altitude and the service log evolve over one altitude
   * request made at position `at`: with a cached altitude nothing happens;
   * without one the service is asked exactly once, and the altitude becomes
   * cached only when that reply passes every check.
   */
  ghost predicate Memoised(cachedBefore: Option<real>, logBefore: seq<Exchange>, at: Coordinate,
                           cachedAfter: Option<real>, logAfter: seq<Exchange>)
  {
    if cachedBefore.Some? then
      cachedAfter == cachedBefore && logAfter == logBefore
    else
      |logAfter| == |logBefore| + 1 && logAfter[..|logBefore|] == logBefore &&
      logAfter[|logBefore|].at == at &&
      cachedAfter == match LookupAltitude(logAfter[|logBefore|].reply) {
                       case Success(z) => Some(z)
                       case Failure(_) => None
                     }
  }

  /** The outcome of that altitude request: the cached altitude, or the
      result of checking the one new reply. */
  ghost function AltitudeOutcome(cachedBefore: Option<real>, logBefore: seq<Exchange>,
                                 logAfter: seq<Exchange>): Result<real, LookupError>
    requires cachedBefore.Some? || |logAfter| > |logBefore|
  {
    if cachedBefore.Some? then Success(cachedBefore.value)
    else LookupAltitude(logAfter[|logBefore|].reply)
  }

  // ---------------------------------------------------------------------
  // The BreathableAir object
  // ---------------------------------------------------------------------

  class BreathableAir {
    /** Position, in decimal degrees. */
    var latitude: real
    var longitude: real
    /** Cached temperature; unset until first asked for. */
    var temperature: Option<Temperature>
    /** Cached altitude in metres; unset until a lookup succeeds. */
    var altitude: Option<real>

    /** The only temperature ever cached is the assumed one. */
    ghost predicate Valid()
      reads this
    {
      temperature.None? || temperature == Some(AssumedTemperature)
    }

    function Position(): Coordinate
      reads this
    {
      Coordinate(latitude, longitude)
    }

    /** Stores the position; nothing is cached yet. */
    constructor (latitude: real, longitude: real)
      ensures Valid()
      ensures this.latitude == latitude && this.longitude == longitude
      ensures temperature.None? && altitude.None?
    {
      this.latitude := latitude;
      this.longitude := longitude;
      temperature := None;
      altitude := None;
    }

    /** The temperature here: 0 °C, cached on the first call and returned from
        the cache afterwards. */
    method GetTemperature() returns (t: Temperature)
      requires Valid()
      modifies this`temperature
      ensures Valid()
      ensures t == AssumedTemperature && temperature == Some(t)
      ensures old(temperature).Some? ==> temperature == old(temperature)
    {
      if temperature.None? {
        temperature := Some(Celsius(0.0));
      }
      t := temperature.value;
    }

    /**
     * The altitude here, in metres. Without a cached altitude the elevation
     * service is asked once and its reply is checked in order: transport
     * created, request completed, status 200, exactly one height. Only a
     * reply that passes all four is cached; after a failure the altitude
     * stays unset, so a later call asks the service again.
     */
    method GetAltitude(service: ElevationService) returns (r: Result<real, LookupError>)
      modifies this`altitude, service
      ensures latitude == old(latitude) && longitude == old(longitude)
      ensures temperature == old(temperature)
      ensures Memoised(old(altitude), old(service.log), Position(), altitude, service.log)
      ensures r == AltitudeOutcome(old(altitude), old(service.log), service.log)
    {
      if altitude.Some? {
        return Success(altitude.value);
      }
      var reply := service.Height(Coordinate(latitude, longitude));
      assert service.log[|old(service.log)|] == Exchange(Position(), reply);
      if reply.InitFailure? {
        return Failure(InitError);
      }
      if reply.ExecFailure? {
        return Failure(ExecError);
      }
      if reply.status != HttpOk {
        return Failure(StatusError);
      }
      var entries := Entries(reply.document);
      if |entries| != 1 {
        return Failure(CardinalityError);
      }
      altitude := Some(entries[0]);
      r := Success(entries[0]);
    }

    /**
     * The atmospheric pressure here, in pascals. The altitude is fetched
     * first and the temperature second, so a failed lookup ends the call
     * before the temperature is cached, and its error is returned unchanged.
     */
    method GetAtmosphericPressure(service: ElevationService, exp: real -> real)
      returns (r: Result<real, LookupError>)
      requires Valid()
      modifies this`altitude, this`temperature, service
      ensures Valid()
      ensures latitude == old(latitude) && longitude == old(longitude)
      ensures Memoised(old(altitude), old(service.log), Position(), altitude, service.log)
      ensures r == PressureFrom(exp, AltitudeOutcome(old(altitude), old(service.log), service.log))
      ensures temperature ==
                if r.Success? then Some(AssumedTemperature) else old(temperature)
    {
      var z := GetAltitude(service);
      if z.Failure? {
        return Failure(z.error);
      }
      var t := GetTemperature();
      r := Success(AtmosphericPressure(exp, z.value, Kelvin(t)));
    }

    /** "Yes", "Maybe" or "Nope" for the pressure here; a failed lookup's
        error is returned unchanged. */
    method IsBreathable(service: ElevationService, exp: real -> real)
      returns (r: Result<string, LookupError>)
      requires Valid()
      modifies this`altitude, this`temperature, service
      ensures Valid()
      ensures latitude == old(latitude) && longitude == old(longitude)
      ensures Memoised(old(altitude), old(service.log), Position(), altitude, service.log)
      ensures r == AnswerFrom(exp, AltitudeOutcome(old(altitude), old(service.log), service.log))
      ensures temperature ==
                if r.Success? then Some(AssumedTemperature) else old(temperature)
    {
      var p := GetAtmosphericPressure(service, exp);
      if p.Failure? {
        return Failure(p.error);
      }
      var pressure := p.value;
      if pressure > YesAbove {
        r := Success("Yes");
      } else if pressure > MaybeAbove {
        r := Success("Maybe");
      } else {
        r := Success("Nope");
      }
    }
  }
}
