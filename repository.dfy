/**
 * The in-memory keyed store (repository/exoplanet_repository.go): one
 * mutable map from id to record, with no validation of its own.
 */
module Repository {
  import opened Wrappers
  import opened Models

  type Store = map<Uuid, Exoplanet>

  /** The store's only error. */
  datatype RepositoryError = NotFound {
    function Message(): string { "exoplanet not found" }
  }

  /** Every record is stored under its own id; adding and updating keep this so. */
  ghost predicate KeyedById(m: Store) {
    forall id :: id in m ==> m[id].id == id
  }

  /** The stored records, counted with multiplicity. */
  ghost function Values(m: Store): multiset<Exoplanet>
    decreases |m|
  {
    if m == map[] then multiset{}
    else
      var id :| id in m;
      assert (m - {id}).Keys == m.Keys - {id};
      multiset{m[id]} + Values(m - {id})
  }

  /** Taking any one key out of the map takes its record out of `Values`. */
  lemma {:induction false} ValuesRemove(m: Store, id: Uuid)
    requires id in m
    ensures Values(m) == multiset{m[id]} + Values(m - {id})
    decreases |m|
  {
    var first :| first in m && Values(m) == multiset{m[first]} + Values(m - {first});
    if first != id {
      var rest := m - {first} - {id};
      assert rest == m - {id} - {first};
      assert |m - {first}| < |m| by {
        assert (m - {first}).Keys == m.Keys - {first};
      }
      assert |m - {id}| < |m| by {
        assert (m - {id}).Keys == m.Keys - {id};
      }
      ValuesRemove(m - {first}, id);
      ValuesRemove(m - {id}, first);
    }
  }

  /** `Values` has one element per key. */
  lemma {:induction false} ValuesSize(m: Store)
    ensures |Values(m)| == |m|
    decreases |m|
  {
    if m != map[] {
      var id :| id in m;
      ValuesRemove(m, id);
      assert (m - {id}).Keys == m.Keys - {id};
      ValuesSize(m - {id});
    }
  }

  /** A record is among `Values(m)` exactly when some key maps to it. */
  lemma {:induction false} ValuesMembership(m: Store, e: Exoplanet)
    ensures e in Values(m) <==> e in m.Values
    decreases |m|
  {
    if m != map[] {
      var id :| id in m;
      ValuesRemove(m, id);
      assert (m - {id}).Keys == m.Keys - {id};
      ValuesMembership(m - {id}, e);
      assert m.Values == (m - {id}).Values + {m[id]} by {
        forall v | v in m.Values ensures v in (m - {id}).Values + {m[id]} {
          var k :| k in m && m[k] == v;
          if k != id { assert (m - {id})[k] == v; }
        }
      }
    }
  }

  /** In a store keyed by id no record occurs twice. */
  lemma {:induction false} KeyedValuesDistinct(m: Store, e: Exoplanet)
    requires KeyedById(m)
    ensures Values(m)[e] <= 1
    decreases |m|
  {
    if m != map[] {
      var id :| id in m;
      ValuesRemove(m, id);
      assert (m - {id}).Keys == m.Keys - {id};
      KeyedValuesDistinct(m - {id}, e);
      if e == m[id] {
        ValuesMembership(m - {id}, e);
        assert e !in (m - {id}).Values;
      }
    }
  }

  class InMemoryExoplanetRepository {
    var exoplanets: Store

    ghost predicate Valid()
      reads this
    {
      KeyedById(exoplanets)
    }

    /** A fresh repository holds no records. */
    constructor ()
      ensures Valid()
      ensures exoplanets == map[]
    {
      exoplanets := map[];
    }

    /** Stores `exoplanet` under its id, replacing any record already there; never fails. */
    method AddExoplanet(exoplanet: Exoplanet) returns (err: Option<RepositoryError>)
      requires Valid()
      modifies this
      ensures Valid()
      ensures exoplanets == old(exoplanets)[exoplanet.id := exoplanet]
      ensures |exoplanets| == if exoplanet.id in old(exoplanets) then |old(exoplanets)| else |old(exoplanets)| + 1
      ensures forall id :: id != exoplanet.id ==> EqualAt(exoplanets, old(exoplanets), id)
      ensures err == None
    {
      exoplanets := exoplanets[exoplanet.id := exoplanet];
      err := None;
    }

    /** Copies out every stored record, in no particular order; never fails. */
    method ListExoplanets() returns (planets: seq<Exoplanet>, err: Option<RepositoryError>)
      ensures multiset(planets) == Values(exoplanets)
      ensures |planets| == |exoplanets|
      ensures forall e :: e in planets <==> e in exoplanets.Values
      ensures err == None
    {
      planets := [];
      var rest := exoplanets.Keys;
      assert Restrict(exoplanets, rest) == exoplanets;
      while rest != {}
        invariant rest <= exoplanets.Keys
        invariant multiset(planets) + Values(Restrict(exoplanets, rest)) == Values(exoplanets)
        decreases rest
      {
        var id :| id in rest;
        RestrictRemove(exoplanets, rest, id);
        planets := planets + [exoplanets[id]];
        rest := rest - {id};
      }
      assert Restrict(exoplanets, rest) == map[];
      ValuesSize(exoplanets);
      forall e ensures e in planets <==> e in exoplanets.Values {
        ValuesMembership(exoplanets, e);
        assert e in planets <==> e in multiset(planets);
      }
      err := None;
    }

    /** The record stored under `id`, or the zero record and NotFound. */
    method GetExoplanetByID(id: Uuid) returns (planet: Exoplanet, err: Option<RepositoryError>)
      requires Valid()
      ensures id in exoplanets ==> planet == exoplanets[id] && err == None
      ensures id !in exoplanets ==> planet == ZeroExoplanet && err == Some(NotFound)
      ensures err == None ==> planet.id == id
    {
      if id !in exoplanets {
        return ZeroExoplanet, Some(NotFound);
      }
      planet := exoplanets[id];
      err := None;
    }

    /** Exactly the effect of AddExoplanet: no check that `exoplanet.id` is already present. */
    method UpdateExoplanet(exoplanet: Exoplanet) returns (err: Option<RepositoryError>)
      requires Valid()
      modifies this
      ensures Valid()
      ensures exoplanets == old(exoplanets)[exoplanet.id := exoplanet]
      ensures |exoplanets| == if exoplanet.id in old(exoplanets) then |old(exoplanets)| else |old(exoplanets)| + 1
      ensures forall id :: id != exoplanet.id ==> EqualAt(exoplanets, old(exoplanets), id)
      ensures err == None
    {
      exoplanets := exoplanets[exoplanet.id := exoplanet];
      err := None;
    }

    /** Removes the record under `id`, if any; an absent id is not an error. */
    method DeleteExoplanet(id: Uuid) returns (err: Option<RepositoryError>)
      requires Valid()
      modifies this
      ensures Valid()
      ensures exoplanets == old(exoplanets) - {id}
      ensures id !in exoplanets
      ensures id !in old(exoplanets) ==> exoplanets == old(exoplanets)
      ensures |exoplanets| == if id in old(exoplanets) then |old(exoplanets)| - 1 else |old(exoplanets)|
      ensures forall other :: other != id ==> EqualAt(exoplanets, old(exoplanets), other)
      ensures err == None
    {
      exoplanets := exoplanets - {id};
      err := None;
    }
  }

  /** The part of `m` whose keys are in `keys`. */
  function Restrict(m: Store, keys: set<Uuid>): (r: Store)
    ensures r.Keys == m.Keys * keys
  {
    map id | id in m && id in keys :: m[id]
  }

  /** Dropping one selected key from a restriction, as one step of ListExoplanets does. */
  lemma RestrictRemove(m: Store, keys: set<Uuid>, id: Uuid)
    requires keys <= m.Keys && id in keys
    ensures Values(Restrict(m, keys)) == multiset{m[id]} + Values(Restrict(m, keys - {id}))
  {
    ValuesRemove(Restrict(m, keys), id);
    assert Restrict(m, keys) - {id} == Restrict(m, keys - {id});
  }

  /** `m` and `m'` agree on `id`: both lack it or both map it to the same record. */
  predicate EqualAt(m: Store, m': Store, id: Uuid) {
    (id !in m && id !in m') || (id in m && id in m' && m[id] == m'[id])
  }
}
