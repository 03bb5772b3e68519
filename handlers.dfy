/**
 * The request handlers (handlers/exoplanet_handlers.go) without HTTP and
 * JSON: each handler takes the parsed pieces of a request, runs its checks
 * in the source's order, calls the service and answers a status code and a
 * body. Parsing itself (uuid.Parse, the JSON decoder, strconv.Atoi) and the
 * fresh id from uuid.New are inputs.
 */
module Handlers {
  import opened Wrappers
  import opened Models
  import opened Repository
  import opened Services

  const StatusOK := 200
  const StatusCreated := 201
  const StatusNoContent := 204
  const StatusBadRequest := 400
  const StatusNotFound := 404
  const StatusInternalServerError := 500

  /** What a parser the model does not perform produced: a value, or an error message. */
  datatype Decoded<T> = Decoded(value: T) | Undecodable(message: string)

  /** A decoded JSON value; numbers are decoded as floats, modelled here as reals. */
  datatype Json =
    | JNull
    | JBool(truth: bool)
    | JNumber(number: real)
    | JString(str: string)
    | JArray(items: seq<Json>)
    | JObject(members: map<string, Json>)

  /** A request body decoded into a map from key to JSON value. */
  type JsonObject = map<string, Json>

  datatype Body =
    | NoBody
    | PlanetBody(planet: Exoplanet)
    | PlanetListBody(planets: seq<Exoplanet>)
    | FuelBody(fuelCost: FuelCost)
    | ErrorBody(message: string)

  datatype Response = Response(status: int, body: Body)

  /** An error answer: the status and a body holding the message. */
  function ErrorResponse(status: int, message: string): Response {
    Response(status, ErrorBody(message))
  }

  /** Every stored record passes validation, as all writes through the handlers ensure. */
  ghost predicate CatalogueValid(store: Store) {
    forall id :: id in store ==> Validate(store[id]) == None
  }

  // ---------------------------------------------------------------------------
  // The field-by-field patch of UpdateExoplanet

  /** The string under `key`, when the key is present and holds a JSON string. */
  function StringAt(data: JsonObject, key: string): (r: Option<string>)
    ensures r.Some? <==> key in data && data[key].JString?
    ensures r.Some? ==> data[key] == JString(r.value)
  {
    if key in data then
      match data[key]
      case JString(s) => Some(s)
      case _ => None
    else None
  }

  /** The number under `key`, when the key is present and holds a JSON number. */
  function NumberAt(data: JsonObject, key: string): (r: Option<real>)
    ensures r.Some? <==> key in data && data[key].JNumber?
    ensures r.Some? ==> data[key] == JNumber(r.value)
  {
    if key in data then
      match data[key]
      case JNumber(n) => Some(n)
      case _ => None
    else None
  }

  /** Conversion of a float to an integer: the fraction is dropped, rounding toward zero. */
  function TruncateToInt(x: real): (n: int)
    ensures 0.0 <= x ==> n as real <= x < n as real + 1.0
    ensures x < 0.0 ==> n as real - 1.0 < x <= n as real
  {
    if x >= 0.0 then x.Floor else -((-x).Floor)
  }

  /**
   * The record after the patch: a field is overwritten only when its key is
   * present with the JSON type the field expects; every other field, the id
   * included, keeps its value.
   */
  function ApplyPatch(e: Exoplanet, data: JsonObject): (r: Exoplanet)
    ensures r.id == e.id
    ensures "name" in data && data["name"].JString? ==> r.name == data["name"].str
    ensures !("name" in data && data["name"].JString?) ==> r.name == e.name
    ensures "description" in data && data["description"].JString? ==> r.description == data["description"].str
    ensures !("description" in data && data["description"].JString?) ==> r.description == e.description
    ensures "distance" in data && data["distance"].JNumber? ==>
      r.distance == TruncateToInt(data["distance"].number)
    ensures !("distance" in data && data["distance"].JNumber?) ==> r.distance == e.distance
    ensures "radius" in data && data["radius"].JNumber? ==> r.radius == data["radius"].number
    ensures !("radius" in data && data["radius"].JNumber?) ==> r.radius == e.radius
    ensures "mass" in data && data["mass"].JNumber? ==> r.mass == Some(data["mass"].number)
    ensures !("mass" in data && data["mass"].JNumber?) ==> r.mass == e.mass
    ensures "type" in data && data["type"].JString? ==> r.planetType == data["type"].str
    ensures !("type" in data && data["type"].JString?) ==> r.planetType == e.planetType
  {
    var name := StringAt(data, "name");
    var description := StringAt(data, "description");
    var distance := NumberAt(data, "distance");
    var radius := NumberAt(data, "radius");
    var mass := NumberAt(data, "mass");
    var planetType := StringAt(data, "type");
    Exoplanet(
      e.id,
      name.GetOr(e.name),
      description.GetOr(e.description),
      if distance.Some? then TruncateToInt(distance.value) else e.distance,
      radius.GetOr(e.radius),
      if mass.Some? then mass else e.mass,
      planetType.GetOr(e.planetType))
  }

  /** Keys outside the six, including "id", and the six with a wrong JSON type change nothing. */
  lemma PatchWithoutUsableFieldsIsIdentity(e: Exoplanet, data: JsonObject)
    requires forall key :: key in data && key in {"distance", "radius", "mass"} ==> !data[key].JNumber?
    requires forall key :: key in data && key in {"name", "description", "type"} ==> !data[key].JString?
    ensures ApplyPatch(e, data) == e
  {
  }

  /** Applying the same patch twice gives the same record as applying it once. */
  lemma PatchIdempotent(e: Exoplanet, data: JsonObject)
    ensures ApplyPatch(ApplyPatch(e, data), data) == ApplyPatch(e, data)
  {
  }

  /** A patch never removes a mass: null or a wrong type leaves the old value. */
  lemma PatchKeepsMassPresent(e: Exoplanet, data: JsonObject)
    requires e.mass.Some?
    ensures ApplyPatch(e, data).mass.Some?
  {
  }

  /** The patch as the handler performs it, one field after the other on a local copy. */
  method UpdateProvidedFields(existing: Exoplanet, updateData: JsonObject) returns (patched: Exoplanet)
    ensures patched == ApplyPatch(existing, updateData)
  {
    patched := existing;
    var name := StringAt(updateData, "name");
    if name.Some? {
      patched := patched.(name := name.value);
    }
    var description := StringAt(updateData, "description");
    if description.Some? {
      patched := patched.(description := description.value);
    }
    var distance := NumberAt(updateData, "distance");
    if distance.Some? {
      patched := patched.(distance := TruncateToInt(distance.value));
    }
    var radius := NumberAt(updateData, "radius");
    if radius.Some? {
      patched := patched.(radius := radius.value);
    }
    var mass := NumberAt(updateData, "mass");
    if mass.Some? {
      patched := patched.(mass := Some(mass.value));
    }
    var planetType := StringAt(updateData, "type");
    if planetType.Some? {
      patched := patched.(planetType := planetType.value);
    }
  }

  // ---------------------------------------------------------------------------
  // The handlers

  class ExoplanetHandler {
    const service: ExoplanetService

    constructor (service: ExoplanetService)
      ensures this.service == service
    {
      this.service := service;
    }

    /**
     * POST /exoplanets: decode, validate, then give the record a fresh id and
     * store it. The id is assigned only after validation passes.
     */
    method AddExoplanet(body: Decoded<Exoplanet>, newId: Uuid) returns (response: Response)
      requires service.repo.Valid()
      modifies service.repo
      ensures service.repo.Valid()
      ensures body.Undecodable? ==> response == ErrorResponse(StatusBadRequest, body.message)
      ensures body.Decoded? && Validate(body.value) != None ==>
        response == ErrorResponse(StatusBadRequest, Validate(body.value).value.Message())
      ensures body.Decoded? && Validate(body.value) == None ==>
        var created := body.value.(id := newId);
        && response == Response(StatusCreated, PlanetBody(created))
        && service.repo.exoplanets == old(service.repo.exoplanets)[newId := created]
      ensures response.status != StatusCreated ==> service.repo.exoplanets == old(service.repo.exoplanets)
      ensures CatalogueValid(old(service.repo.exoplanets)) ==> CatalogueValid(service.repo.exoplanets)
    {
      if body.Undecodable? {
        return ErrorResponse(StatusBadRequest, body.message);
      }
      var exoplanet := body.value;
      var invalid := Validate(exoplanet);
      if invalid.Some? {
        return ErrorResponse(StatusBadRequest, invalid.value.Message());
      }
      exoplanet := exoplanet.(id := newId);
      ValidateIgnoresIdentity(body.value, newId, body.value.name, body.value.description);
      var err := service.AddExoplanet(exoplanet);
      match err {
        case Some(e) => return ErrorResponse(StatusInternalServerError, e.Message());
        case None =>
      }
      response := Response(StatusCreated, PlanetBody(exoplanet));
    }

    /** GET /exoplanets: every stored record, in no particular order. */
    method ListExoplanets() returns (response: Response)
      ensures response.status == StatusOK && response.body.PlanetListBody?
      ensures multiset(response.body.planets) == Values(service.repo.exoplanets)
    {
      var planets, err := service.ListExoplanets();
      match err {
        case Some(e) => return ErrorResponse(StatusInternalServerError, e.Message());
        case None =>
      }
      response := Response(StatusOK, PlanetListBody(planets));
    }

    /** GET /exoplanets/{id}: 400 for an unparsable id, 404 for an absent one. */
    method GetExoplanetByID(id: Decoded<Uuid>) returns (response: Response)
      requires service.repo.Valid()
      ensures id.Undecodable? ==> response == ErrorResponse(StatusBadRequest, id.message)
      ensures id.Decoded? && id.value !in service.repo.exoplanets ==>
        response == ErrorResponse(StatusNotFound, NotFound.Message())
      ensures id.Decoded? && id.value in service.repo.exoplanets ==>
        response == Response(StatusOK, PlanetBody(service.repo.exoplanets[id.value]))
    {
      if id.Undecodable? {
        return ErrorResponse(StatusBadRequest, id.message);
      }
      var exoplanet, err := service.GetExoplanetByID(id.value);
      match err {
        case Some(e) => return ErrorResponse(StatusNotFound, e.Message());
        case None =>
      }
      response := Response(StatusOK, PlanetBody(exoplanet));
    }

    /**
     * PUT /exoplanets/{id}: checks the id, then that the record exists (before
     * the body is looked at), then the body; patches the stored record field
     * by field and validates the result before writing it back.
     */
    method UpdateExoplanet(id: Decoded<Uuid>, body: Decoded<JsonObject>) returns (response: Response)
      requires service.repo.Valid()
      modifies service.repo
      ensures service.repo.Valid()
      ensures id.Undecodable? ==> response == ErrorResponse(StatusBadRequest, "invalid UUID")
      ensures id.Decoded? && id.value !in old(service.repo.exoplanets) ==>
        response == ErrorResponse(StatusNotFound, "exoplanet not found")
      ensures id.Decoded? && id.value in old(service.repo.exoplanets) && body.Undecodable? ==>
        response == ErrorResponse(StatusBadRequest, body.message)
      ensures id.Decoded? && id.value in old(service.repo.exoplanets) && body.Decoded? ==>
        var merged := ApplyPatch(old(service.repo.exoplanets)[id.value], body.value);
        && (Validate(merged) != None ==>
              response == ErrorResponse(StatusBadRequest, Validate(merged).value.Message()))
        && (Validate(merged) == None ==>
              && response == Response(StatusOK, PlanetBody(merged))
              && merged.id == id.value
              && service.repo.exoplanets == old(service.repo.exoplanets)[id.value := merged])
      ensures response.status != StatusOK ==> service.repo.exoplanets == old(service.repo.exoplanets)
      ensures service.repo.exoplanets.Keys == old(service.repo.exoplanets.Keys)
      ensures CatalogueValid(old(service.repo.exoplanets)) ==> CatalogueValid(service.repo.exoplanets)
    {
      if id.Undecodable? {
        return ErrorResponse(StatusBadRequest, "invalid UUID");
      }
      var existing, err := service.GetExoplanetByID(id.value);
      if err != None {
        return ErrorResponse(StatusNotFound, "exoplanet not found");
      }
      if body.Undecodable? {
        return ErrorResponse(StatusBadRequest, body.message);
      }
      existing := UpdateProvidedFields(existing, body.value);
      var invalid := Validate(existing);
      if invalid.Some? {
        return ErrorResponse(StatusBadRequest, invalid.value.Message());
      }
      var updateErr := service.UpdateExoplanet(existing);
      match updateErr {
        case Some(e) => return ErrorResponse(StatusInternalServerError, e.Message());
        case None =>
      }
      response := Response(StatusOK, PlanetBody(existing));
    }

    /** DELETE /exoplanets/{id}: 204 for every parsable id, present or not. */
    method DeleteExoplanet(id: Decoded<Uuid>) returns (response: Response)
      requires service.repo.Valid()
      modifies service.repo
      ensures service.repo.Valid()
      ensures id.Undecodable? ==>
        && response == ErrorResponse(StatusBadRequest, "planet id not found")
        && service.repo.exoplanets == old(service.repo.exoplanets)
      ensures id.Decoded? ==>
        && response == Response(StatusNoContent, NoBody)
        && service.repo.exoplanets == old(service.repo.exoplanets) - {id.value}
      ensures CatalogueValid(old(service.repo.exoplanets)) ==> CatalogueValid(service.repo.exoplanets)
    {
      if id.Undecodable? {
        return ErrorResponse(StatusBadRequest, "planet id not found");
      }
      var err := service.DeleteExoplanet(id.value);
      match err {
        case Some(_) => return ErrorResponse(StatusInternalServerError, "failed to delete planet");
        case None =>
      }
      response := Response(StatusNoContent, NoBody);
    }

    /**
     * GET /exoplanets/{id}/fuel?crew=N: `crew` is the raw query value ("" when
     * missing) and `crewNumber` what strconv.Atoi made of it. An absent planet
     * answers 500, not 404. The store is only read.
     */
    method EstimateFuel(id: Decoded<Uuid>, crew: string, crewNumber: Decoded<int>) returns (response: Response)
      requires service.repo.Valid()
      ensures id.Undecodable? ==> response == ErrorResponse(StatusBadRequest, id.message)
      ensures id.Decoded? && crew == "" ==>
        response == ErrorResponse(StatusBadRequest, "crew capacity is required")
      ensures id.Decoded? && crew != "" && (crewNumber.Undecodable? || crewNumber.value <= 0) ==>
        response == ErrorResponse(StatusBadRequest, "invalid crew capacity")
      ensures id.Decoded? && crew != "" && crewNumber.Decoded? && crewNumber.value > 0 ==>
        if id.value in service.repo.exoplanets then
          response == Response(StatusOK, FuelBody(Estimate(service.repo.exoplanets[id.value], crewNumber.value)))
        else
          response == ErrorResponse(StatusInternalServerError, NotFound.Message())
      ensures response.status == StatusOK && CatalogueValid(service.repo.exoplanets) ==>
        GravityDefined(response.body.fuelCost.planet)
    {
      if id.Undecodable? {
        return ErrorResponse(StatusBadRequest, id.message);
      }
      if crew == "" {
        return ErrorResponse(StatusBadRequest, "crew capacity is required");
      }
      if crewNumber.Undecodable? || crewNumber.value <= 0 {
        return ErrorResponse(StatusBadRequest, "invalid crew capacity");
      }
      var fuelCost, err := service.EstimateFuel(id.value, crewNumber.value);
      match err {
        case Some(e) => return ErrorResponse(StatusInternalServerError, e.Message());
        case None =>
      }
      response := Response(StatusOK, FuelBody(fuelCost));
      if CatalogueValid(service.repo.exoplanets) {
        ValidPlanetHasDefinedGravity(service.repo.exoplanets[id.value]);
      }
    }
  }
}
