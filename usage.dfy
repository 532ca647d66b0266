/**
 * What a caller can rely on when it asks one `BreathableAir` object twice,
 * derived from the method contracts alone.
 */
module Usage {
  import opened Wrappers
  import opened Elevation
  import opened CanIBreatheHere

  /** Two altitude requests on an object with nothing cached: a successful
      first lookup is the only one, and the second call repeats its value;
      a failed first lookup is retried by the second call. */
  method AltitudeTwice(air: BreathableAir, service: ElevationService)
    returns (first: Result<real, LookupError>, second: Result<real, LookupError>)
    requires air.altitude.None?
    modifies air, service
    ensures first.Success? ==> second == first && |service.log| == |old(service.log)| + 1
    ensures first.Failure? ==> |service.log| == |old(service.log)| + 2
    ensures air.altitude.Some? <==> second.Success?
  {
    first := air.GetAltitude(service);
    second := air.GetAltitude(service);
  }

  /** Once an answer has been given, asking again gives the same answer and
      does not consult the service: after a successful first call the only
      lookup is the one the first call made, if nothing was cached before. */
  method BreathableTwice(air: BreathableAir, service: ElevationService, exp: real -> real)
    returns (first: Result<string, LookupError>, second: Result<string, LookupError>)
    requires air.Valid()
    modifies air, service
    ensures first.Success? ==> second == first
    ensures |service.log| <= |old(service.log)| + 2
    ensures first.Success? ==>
              |service.log| == |old(service.log)| + (if old(air.altitude).Some? then 0 else 1)
  {
    first := air.IsBreathable(service, exp);
    ghost var logBetween := service.log;
    second := air.IsBreathable(service, exp);
    assert first.Success? ==> service.log == logBetween;
  }
}
