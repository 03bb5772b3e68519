/**
 * The catalogue's one entity, its validation rule, and which branch of the
 * gravity formula applies to it (models/exoplanet.go).
 */
module Models {
  import opened Wrappers

  /** A UUID: 128 bits. The nil UUID is 0. */
  newtype Uuid = x: int | 0 <= x < 0x1_0000_0000_0000_0000_0000_0000_0000_0000

  const NilUuid: Uuid := 0

  /**
   * The planet type is a plain string in the source; only two values are
   * named, but nothing stops a record from carrying any other string.
   */
  type ExoplanetType = string

  const GasGiant: ExoplanetType := "gasGiant"
  const Terrestrial: ExoplanetType := "terrestrial"

  /** Distance in light years, radius and mass in Earth units; mass is optional. */
  datatype Exoplanet = Exoplanet(
    id: Uuid,
    name: string,
    description: string,
    distance: int,
    radius: real,
    mass: Option<real>,
    planetType: ExoplanetType)

  /** The zero value of the record, returned alongside a lookup error. */
  const ZeroExoplanet := Exoplanet(NilUuid, "", "", 0, 0.0, None, "")

  /** The three ways a record can fail validation, one message each. */
  datatype ValidationError = DistanceOutOfRange | RadiusOutOfRange | MassOutOfRange {

    function Message(): string {
      match this
      case DistanceOutOfRange => "distance must be between 10 and 1000 ligth years"
      case RadiusOutOfRange => "radius must be between 0.1 and 10 Earth-radius units"
      case MassOutOfRange =>
        "mass must be provided and between 0.1 and 10 Earth-mass units for terrestrial planets"
    }
  }

  // The catalogue's range rules, each on its own, both bounds exclusive.

  predicate DistanceInRange(e: Exoplanet) { 10 < e.distance < 1000 }

  predicate RadiusInRange(e: Exoplanet) { 0.1 < e.radius < 10.0 }

  predicate MassInRange(e: Exoplanet) { e.mass.Some? && 0.1 < e.mass.value < 10.0 }

  /**
   * Checks distance, then radius, then (for terrestrial planets only) mass,
   * and reports the first rule that fails; `None` is success.
   */
  function Validate(e: Exoplanet): (r: Option<ValidationError>)
    // distance is checked first, whatever the other fields hold
    ensures !DistanceInRange(e) ==> r == Some(DistanceOutOfRange)
    // radius is reported only for an in-range distance
    ensures r == Some(RadiusOutOfRange) <==> DistanceInRange(e) && !RadiusInRange(e)
    // mass is reported only for a terrestrial planet whose distance and radius pass
    ensures r == Some(MassOutOfRange) <==>
      DistanceInRange(e) && RadiusInRange(e) && e.planetType == Terrestrial && !MassInRange(e)
    // success: every applicable rule holds
    ensures r == None <==>
      DistanceInRange(e) && RadiusInRange(e) && (e.planetType == Terrestrial ==> MassInRange(e))
    // a valid terrestrial planet has a mass, so the gravity formula can read it
    ensures r == None && e.planetType == Terrestrial ==> e.mass.Some?
    // any other type (gas giant or an arbitrary string) ignores mass
    ensures e.planetType != Terrestrial ==> (r == None <==> DistanceInRange(e) && RadiusInRange(e))
  {
    if e.distance <= 10 || e.distance >= 1000 then
      Some(DistanceOutOfRange)
    else if e.radius <= 0.1 || e.radius >= 10.0 then
      Some(RadiusOutOfRange)
    else if e.planetType == Terrestrial && (e.mass.None? || e.mass.value <= 0.1 || e.mass.value >= 10.0) then
      Some(MassOutOfRange)
    else
      None
  }

  /** Validation reads only distance, radius, type and (for terrestrial planets) mass. */
  lemma ValidateIgnoresIdentity(e: Exoplanet, id: Uuid, name: string, description: string)
    ensures Validate(e.(id := id, name := name, description := description)) == Validate(e)
  {
  }

  /** For a type other than terrestrial, replacing the mass never changes the verdict. */
  lemma ValidateIgnoresMassUnlessTerrestrial(e: Exoplanet, mass: Option<real>)
    requires e.planetType != Terrestrial
    ensures Validate(e.(mass := mass)) == Validate(e)
  {
  }

  /** The three branches of the gravity formula. */
  datatype GravityBranch =
    | GasGiantGravity      // 0.5 / radius^2
    | TerrestrialGravity   // mass / radius^2, dereferencing the optional mass
    | ZeroGravity          // 0, which makes the fuel estimate divide by zero

  /** Which branch the gravity formula takes for `e`. */
  function GravityBranchOf(e: Exoplanet): (b: GravityBranch)
    ensures b == ZeroGravity <==> e.planetType != GasGiant && e.planetType != Terrestrial
    ensures b == TerrestrialGravity <==> e.planetType == Terrestrial
    ensures b == GasGiantGravity <==> e.planetType == GasGiant
  {
    if e.planetType == GasGiant then GasGiantGravity
    else if e.planetType == Terrestrial then TerrestrialGravity
    else ZeroGravity
  }

  /** The gravity formula can be evaluated: it does not dereference a missing mass. */
  predicate GravityDefined(e: Exoplanet) {
    GravityBranchOf(e) == TerrestrialGravity ==> e.mass.Some?
  }

  /** A record that passes validation never makes the gravity formula read a missing mass. */
  lemma ValidPlanetHasDefinedGravity(e: Exoplanet)
    requires Validate(e) == None
    ensures GravityDefined(e)
  {
  }

  /**
   * Validation does not rule out the zero-gravity branch: every record of
   * any other type with in-range distance and radius passes, whatever its mass.
   */
  lemma ValidationAdmitsZeroGravity(e: Exoplanet)
    requires DistanceInRange(e) && RadiusInRange(e)
    requires e.planetType != GasGiant && e.planetType != Terrestrial
    ensures Validate(e) == None && GravityBranchOf(e) == ZeroGravity
  {
  }

  /**
   * The result of the fuel estimate: zero where the service reports an error,
   * otherwise the float `planet.FuelEstimation(crewCapacity)`, kept as a term
   * and not evaluated.
   */
  datatype FuelCost = ZeroCost | Estimate(planet: Exoplanet, crewCapacity: int)
}
