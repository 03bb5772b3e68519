# Exoplanet catalogue — a Dafny model

This project models the core of a small REST service that keeps a catalogue of
exoplanets: the record and its validation rule, the in-memory store keyed by
UUID, the service layer that passes calls to the store and looks planets up for
the fuel estimate, and the decision logic of the six HTTP handlers (which
status code each request gets, and what happens to the store).

Layout, one module per source file:

- `wrappers.dfy` — `Option`, standing for a Go field that may be nil and for a nil or non-nil error.
- `models.dfy` (module `Models`) — the `Exoplanet` record, `Validate`, which
  branch of the gravity formula applies, and the symbolic fuel result.
- `repository.dfy` (module `Repository`) — class `InMemoryExoplanetRepository`
  with a mutable `map<Uuid, Exoplanet>`; its object invariant says every
  record is stored under its own id. `Values(m)` is the multiset of stored
  records that the list operation must return.
- `services.dfy` (module `Services`) — class `ExoplanetService` holding a
  `const` reference to the repository.
- `handlers.dfy` (module `Handlers`) — class `ExoplanetHandler`; requests
  arrive already parsed (`Decoded<T>`: a value or the parser's error
  message), answers are `Response(status, body)`. The partial update is
  `ApplyPatch` over a decoded JSON object, performed field by field by
  `UpdateProvidedFields`. `CatalogueValid` says every stored record passes
  validation; every writing handler preserves it.
- `scenarios.dfy` (module `Scenarios`) — call sequences: add then get, delete
  then get, add distinct records then list, and the end-to-end requests
  (create then estimate fuel, a too-close planet, queries on an empty
  catalogue).

The planet type is a plain string with the two named constants `"gasGiant"`
and `"terrestrial"`. Although only those two are meant to occur, the code
converts any string (`models.ExoplanetType(...)` in the update handler, and
the JSON decoder in the create handler) and validation only tests for
`terrestrial`; the model follows the code, so a record of any other type can
be stored and then takes the zero-gravity branch. `Validate` is a function of
the record: it only compares values and changes nothing.

The program's entry point calls `NewInMemoryExoplanetRepository`
(main.go:20), while the constructor is declared as
`NewInMemoryExoplanentRepository` (repository/exoplanet_repository.go:22).
The model's constructor is what that function does: it yields an empty map.

## Model

| member | source | states |
|---|---|---|
| Models.Validate | models/exoplanet.go:27-41 | A distance outside (10, 1000) gives the distance error whatever the other fields hold; the radius error comes exactly when distance passes and radius is outside (0.1, 10); the mass error exactly when both pass, the type is terrestrial and the mass is missing or outside (0.1, 10); success exactly when every applicable rule holds; a valid terrestrial record has a mass; for any other type mass is ignored |
| Models.ValidateIgnoresIdentity | models/exoplanet.go:27-41 | Validation does not look at id, name or description, so assigning the id after validation cannot change the verdict |
| Models.ValidateIgnoresMassUnlessTerrestrial | models/exoplanet.go:35-39 | For a non-terrestrial type, any mass (present, absent, out of range) gives the same verdict |
| Models.GravityBranchOf | models/exoplanet.go:43-50 | The zero branch is taken exactly when the type is neither gasGiant nor terrestrial; the mass-reading branch exactly for terrestrial |
| Models.ValidPlanetHasDefinedGravity | models/exoplanet.go:35-47 | A record that passes validation never sends the gravity formula to dereference a missing mass |
| Models.ValidationAdmitsZeroGravity | models/exoplanet.go:35-49 | Validation does not exclude the zero-gravity branch: every record of any other type with in-range distance and radius is valid, whatever its mass, and takes the zero branch |
| Repository.ValuesSize | repository/exoplanet_repository.go:33-39 | The multiset of stored records has exactly one element per key |
| Repository.ValuesMembership | repository/exoplanet_repository.go:33-39 | A record is in that multiset exactly when some key maps to it |
| Repository.KeyedValuesDistinct | repository/exoplanet_repository.go:33-39 | In a store keyed by id no record occurs twice, so the listing holds each record once |
| Repository.InMemoryExoplanetRepository.constructor | repository/exoplanet_repository.go:22-26 | A new repository is empty and satisfies the keyed-by-id invariant |
| Repository.InMemoryExoplanetRepository.AddExoplanet | repository/exoplanet_repository.go:28-31 | The map afterwards is the old map with the record under its id, overwriting without a duplicate check; size grows by one only for a new id; every other key keeps its entry; always nil |
| Repository.InMemoryExoplanetRepository.ListExoplanets | repository/exoplanet_repository.go:33-39 | The returned sequence is a permutation of the stored records: its multiset equals the map's values, its length the map's size, its members exactly the stored records; always nil |
| Repository.InMemoryExoplanetRepository.GetExoplanetByID | repository/exoplanet_repository.go:41-47 | A present id yields its record (whose id is that id) and nil; an absent id yields the zero record and the "exoplanet not found" error |
| Repository.InMemoryExoplanetRepository.UpdateExoplanet | repository/exoplanet_repository.go:49-52 | Exactly the effect of AddExoplanet, succeeding also when the id was absent |
| Repository.InMemoryExoplanetRepository.DeleteExoplanet | repository/exoplanet_repository.go:54-57 | The id is gone afterwards; an absent id leaves the map unchanged; size drops by one only for a present id; every other key keeps its entry; always nil |
| Services.ExoplanetService.constructor | services/exoplanet_service.go:14-18 | The service's only state is the repository reference it is given (a constant field) |
| Services.ExoplanetService.AddExoplanet | services/exoplanet_service.go:20-22 | Same effect on the store and same result as the repository's add |
| Services.ExoplanetService.ListExoplanets | services/exoplanet_service.go:24-26 | Same result as the repository's list: a permutation of the stored records |
| Services.ExoplanetService.GetExoplanetByID | services/exoplanet_service.go:28-30 | Same result as the repository's lookup, error included |
| Services.ExoplanetService.UpdateExoplanet | services/exoplanet_service.go:32-34 | Same effect on the store and same result as the repository's update |
| Services.ExoplanetService.DeleteExoplanet | services/exoplanet_service.go:36-38 | Same effect on the store and same result as the repository's delete |
| Services.ExoplanetService.EstimateFuel | services/exoplanet_service.go:40-46 | An absent id gives zero and the repository's not-found error; a present id gives the estimate for the stored record and nil; the store is not modified |
| Handlers.StringAt | handlers/exoplanet_handlers.go:88 | The string type assertion succeeds exactly when the key is present and holds a JSON string |
| Handlers.NumberAt | handlers/exoplanet_handlers.go:94 | The float type assertion succeeds exactly when the key is present and holds a JSON number |
| Handlers.TruncateToInt | handlers/exoplanet_handlers.go:95 | The float-to-int conversion drops the fraction toward zero |
| Handlers.ApplyPatch | handlers/exoplanet_handlers.go:87-105 | Each field is overwritten exactly when its key is present with the expected JSON type (distance truncated, mass made present); otherwise the field, and always the id, keeps its value |
| Handlers.PatchWithoutUsableFieldsIsIdentity | handlers/exoplanet_handlers.go:87-105 | A body in which no string field (name, description, type) holds a JSON string and no numeric field (distance, radius, mass) holds a JSON number changes nothing: unknown keys such as "id", null, booleans, arrays and objects are all ignored |
| Handlers.PatchIdempotent | handlers/exoplanet_handlers.go:87-105 | Applying the same patch twice equals applying it once |
| Handlers.PatchKeepsMassPresent | handlers/exoplanet_handlers.go:100-102 | A null or wrongly typed mass never removes an existing mass |
| Handlers.UpdateProvidedFields | handlers/exoplanet_handlers.go:87-105 | The one-field-at-a-time update of the local record yields exactly ApplyPatch |
| Handlers.ExoplanetHandler.constructor | handlers/exoplanet_handlers.go:19-23 | The handler holds the service it is given |
| Handlers.ExoplanetHandler.AddExoplanet | handlers/exoplanet_handlers.go:25-41 | Undecodable body: 400; failed validation: 400 with the validation message and the store unchanged; otherwise 201 with the record under the new id, and that same record stored under it; every non-201 answer leaves the store unchanged; a valid catalogue stays valid |
| Handlers.ExoplanetHandler.ListExoplanets | handlers/exoplanet_handlers.go:43-50 | 200 with a permutation of the stored records |
| Handlers.ExoplanetHandler.GetExoplanetByID | handlers/exoplanet_handlers.go:52-65 | Unparsable id: 400; absent id: 404; present id: 200 with the stored record |
| Handlers.ExoplanetHandler.UpdateExoplanet | handlers/exoplanet_handlers.go:67-118 | Checks in order: bad UUID 400, absent planet 404 whatever the body, bad body 400, invalid merged record 400; on success 200 with the merged record, stored under the path id; every error answer leaves the store unchanged; the set of ids never changes; a valid catalogue stays valid |
| Handlers.ExoplanetHandler.DeleteExoplanet | handlers/exoplanet_handlers.go:120-132 | Unparsable id: 400 and nothing removed; any parsable id, present or not: 204 and the id removed; a valid catalogue stays valid |
| Handlers.ExoplanetHandler.EstimateFuel | handlers/exoplanet_handlers.go:134-157 | Checks in order: bad id 400, missing crew 400, non-integer or non-positive crew 400, absent planet 500 (not 404), else 200 with the estimate for the stored record; in a valid catalogue that estimate never reads a missing mass |
| Scenarios.AddThenGet | repository/exoplanet_repository.go:28-47 | Add then Get on the same id returns the record that was added |
| Scenarios.DeleteThenGet | repository/exoplanet_repository.go:41-57 | Delete then Get on the same id fails with not-found, whether or not the id was present |
| Scenarios.AddAllThenList | repository/exoplanet_repository.go:28-39 | After adding N records with distinct ids to a new repository, the listing holds exactly those N records |
| Scenarios.CreateThenEstimateFuel | handlers/exoplanet_handlers.go:25-157 | Creating a valid terrestrial planet (distance 50, radius 1, mass 1) answers 201 with a record carrying the new id, and the fuel request for a crew of 3 on that id answers 200 with its estimate |
| Scenarios.CreateTooClose | handlers/exoplanet_handlers.go:25-34 | A distance of 5 is refused with 400 and the distance message, and nothing is stored |
| Scenarios.QueryEmptyCatalogue | handlers/exoplanet_handlers.go:52-150 | On an empty catalogue any id gets 404, and a crew of 0 or -1 gets 400 |

## Left out

- The numeric values of gravity and of the fuel estimate (float64 arithmetic with `math.Pow`, and the division by zero in the zero-gravity branch): the fuel result is kept as the term `Estimate(planet, crew)`, and only the branch of the gravity formula is modelled.
- Services.ExoplanetService.EstimateFuel: returns `Estimate(planet, crew)` also for a stored terrestrial record without a mass, where the Go code would panic on the nil dereference in `Gravity`; `CatalogueValid` and the handlers' contracts show such a record is never stored through the handlers.
- JSON decoding, `uuid.Parse`, `uuid.New` and `strconv.Atoi` are not modelled: their results are inputs (`Decoded<T>` and the new id). In `EstimateFuel` the raw crew string and its `Atoi` result are independent inputs.
- Float64 behaviour: radius, mass and JSON numbers are reals, so NaN, infinities, rounding of the bounds 0.1 and 10, and out-of-range float-to-int conversion are not modelled.
- The repository is reached through the Go interface `ExoplanetRepository`; the model uses the one implementation directly.
- The 500 answers after a store error are kept in the handlers but cannot occur, since every store operation returns nil.
- Response writing (headers, JSON encoding and its failure path, the body sent with 204), routing, the 404 fallback route, server configuration and graceful shutdown: main.go and utils/response.go are not part of this model.
- Concurrent requests share the map without synchronisation; the model is sequential.
