/**
 * The application service (services/exoplanet_service.go): every CRUD call
 * is passed to the repository unchanged; the fuel estimate looks the record
 * up first and passes a lookup failure on.
 */
module Services {
  import opened Wrappers
  import opened Models
  import opened Repository

  class ExoplanetService {
    /** The service's only state; set once, never reassigned. */
    const repo: InMemoryExoplanetRepository

    constructor (repo: InMemoryExoplanetRepository)
      ensures this.repo == repo
    {
      this.repo := repo;
    }

    method AddExoplanet(exoplanet: Exoplanet) returns (err: Option<RepositoryError>)
      requires repo.Valid()
      modifies repo
      ensures repo.Valid()
      ensures repo.exoplanets == old(repo.exoplanets)[exoplanet.id := exoplanet]
      ensures err == None
    {
      err := repo.AddExoplanet(exoplanet);
    }

    method ListExoplanets() returns (planets: seq<Exoplanet>, err: Option<RepositoryError>)
      ensures multiset(planets) == Values(repo.exoplanets)
      ensures |planets| == |repo.exoplanets|
      ensures err == None
    {
      planets, err := repo.ListExoplanets();
    }

    method GetExoplanetByID(id: Uuid) returns (planet: Exoplanet, err: Option<RepositoryError>)
      requires repo.Valid()
      ensures id in repo.exoplanets ==> planet == repo.exoplanets[id] && err == None
      ensures id !in repo.exoplanets ==> planet == ZeroExoplanet && err == Some(NotFound)
      ensures err == None ==> planet.id == id
    {
      planet, err := repo.GetExoplanetByID(id);
    }

    method UpdateExoplanet(exoplanet: Exoplanet) returns (err: Option<RepositoryError>)
      requires repo.Valid()
      modifies repo
      ensures repo.Valid()
      ensures repo.exoplanets == old(repo.exoplanets)[exoplanet.id := exoplanet]
      ensures err == None
    {
      err := repo.UpdateExoplanet(exoplanet);
    }

    method DeleteExoplanet(id: Uuid) returns (err: Option<RepositoryError>)
      requires repo.Valid()
      modifies repo
      ensures repo.Valid()
      ensures repo.exoplanets == old(repo.exoplanets) - {id}
      ensures err == None
    {
      err := repo.DeleteExoplanet(id);
    }

    /**
     * The fuel estimate for the record under `id`: zero and the lookup error
     * when there is none. It reads the store and changes nothing (no modifies
     * clause). The crew count is not checked here.
     */
    method EstimateFuel(id: Uuid, crewCapacity: int) returns (fuel: FuelCost, err: Option<RepositoryError>)
      requires repo.Valid()
      ensures id !in repo.exoplanets ==> fuel == ZeroCost && err == Some(NotFound)
      ensures id in repo.exoplanets ==> fuel == Estimate(repo.exoplanets[id], crewCapacity) && err == None
      ensures err == None <==> id in repo.exoplanets
    {
      var exoplanet;
      exoplanet, err := repo.GetExoplanetByID(id);
      if err != None {
        return ZeroCost, err;
      }
      fuel := Estimate(exoplanet, crewCapacity);
    }
  }
}
