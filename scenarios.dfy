/**
 * Sequences of calls against the repository and the handlers, and what the
 * contracts of the single calls let a caller conclude about them.
 */
module Scenarios {
  import opened Wrappers
  import opened Models
  import opened Repository
  import opened Services
  import opened Handlers

  /** Storing a record under a key that was absent adds exactly that record to `Values`. */
  lemma ValuesInsert(m: Store, e: Exoplanet)
    requires e.id !in m
    ensures Values(m[e.id := e]) == Values(m) + multiset{e}
  {
    ValuesRemove(m[e.id := e], e.id);
    assert m[e.id := e] - {e.id} == m;
  }

  /** Add, then Get on the same id: the record comes back unchanged. */
  method AddThenGet(repo: InMemoryExoplanetRepository, e: Exoplanet) returns (got: Exoplanet, err: Option<RepositoryError>)
    requires repo.Valid()
    modifies repo
    ensures got == e && err == None
  {
    var _ := repo.AddExoplanet(e);
    got, err := repo.GetExoplanetByID(e.id);
  }

  /** Delete, then Get on the same id: NotFound, whether or not the id was present. */
  method DeleteThenGet(repo: InMemoryExoplanetRepository, id: Uuid) returns (got: Exoplanet, err: Option<RepositoryError>)
    requires repo.Valid()
    modifies repo
    ensures got == ZeroExoplanet && err == Some(NotFound)
  {
    var _ := repo.DeleteExoplanet(id);
    got, err := repo.GetExoplanetByID(id);
  }

  /** Adding records with distinct ids to a fresh repository, then listing: each comes back once. */
  method AddAllThenList(planets: seq<Exoplanet>) returns (listed: seq<Exoplanet>)
    requires forall i, j :: 0 <= i < j < |planets| ==> planets[i].id != planets[j].id
    ensures |listed| == |planets|
    ensures multiset(listed) == multiset(planets)
  {
    var repo := new InMemoryExoplanetRepository();
    var i := 0;
    while i < |planets|
      invariant 0 <= i <= |planets|
      invariant repo.Valid()
      invariant forall j :: i <= j < |planets| ==> planets[j].id !in repo.exoplanets
      invariant Values(repo.exoplanets) == multiset(planets[..i])
    {
      ValuesInsert(repo.exoplanets, planets[i]);
      var _ := repo.AddExoplanet(planets[i]);
      assert planets[..i + 1] == planets[..i] + [planets[i]];
      i := i + 1;
    }
    assert planets[..i] == planets;
    var err;
    listed, err := repo.ListExoplanets();
    assert |listed| == |multiset(listed)| == |multiset(planets)|;
  }

  /**
   * Against an empty catalogue: create a valid terrestrial planet, then ask
   * for the fuel for a crew of three; the planet is found under the new id.
   */
  method CreateThenEstimateFuel(newId: Uuid) returns (created: Response, fuel: Response)
    ensures created.status == StatusCreated && created.body.PlanetBody?
    ensures created.body.planet.id == newId
    ensures fuel == Response(StatusOK, FuelBody(Estimate(created.body.planet, 3)))
  {
    var repo := new InMemoryExoplanetRepository();
    var service := new ExoplanetService(repo);
    var handler := new ExoplanetHandler(service);
    var planet := Exoplanet(NilUuid, "Kepler-22b", "", 50, 1.0, Some(1.0), Terrestrial);
    created := handler.AddExoplanet(Decoded(planet), newId);
    fuel := handler.EstimateFuel(Decoded(newId), "3", Decoded(3));
  }

  /** Against any catalogue: a distance of 5 is refused with the distance message and nothing is stored. */
  method CreateTooClose(handler: ExoplanetHandler, newId: Uuid) returns (response: Response)
    requires handler.service.repo.Valid()
    modifies handler.service.repo
    ensures response == ErrorResponse(StatusBadRequest, "distance must be between 10 and 1000 ligth years")
    ensures handler.service.repo.exoplanets == old(handler.service.repo.exoplanets)
  {
    var planet := Exoplanet(NilUuid, "Too close", "", 5, 1.0, Some(1.0), Terrestrial);
    response := handler.AddExoplanet(Decoded(planet), newId);
  }

  /** Against an empty catalogue: any id is unknown (404), and a crew of 0 or -1 is refused (400). */
  method QueryEmptyCatalogue(id: Uuid) returns (get: Response, zeroCrew: Response, negativeCrew: Response)
    ensures get.status == StatusNotFound
    ensures zeroCrew == ErrorResponse(StatusBadRequest, "invalid crew capacity")
    ensures negativeCrew == ErrorResponse(StatusBadRequest, "invalid crew capacity")
  {
    var repo := new InMemoryExoplanetRepository();
    var service := new ExoplanetService(repo);
    var handler := new ExoplanetHandler(service);
    get := handler.GetExoplanetByID(Decoded(id));
    zeroCrew := handler.EstimateFuel(Decoded(id), "0", Decoded(0));
    negativeCrew := handler.EstimateFuel(Decoded(id), "-1", Decoded(-1));
  }
}
