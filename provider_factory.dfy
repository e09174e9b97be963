/** The provider registry: every person data provider the application knows, keyed by
    the type it reports, and the lookup the person service uses to pick one. */
module ProviderFactory {
  import opened Wrappers
  import opened ProviderTypes
  import opened CsvProvider

  /** A person data provider as the registry sees it: the flat-file provider, or the
      database provider, whose behaviour is not part of this model. */
  datatype Provider = CsvSource(csv: CsvPersonDataProvider) | DbSource

  /** getProviderType of each provider: CSV for the flat-file one, DB for the other. */
  function TypeOf(p: Provider): (t: PersonDataProviderType)
    ensures t == CSV <==> p.CsvSource?
    ensures t == DB <==> p.DbSource?
  {
    match p
    case CsvSource(c) => c.GetProviderType()
    case DbSource => DB
  }

  /** The exception the map collector throws on a second provider with the same type. */
  datatype DuplicateKey = DuplicateKey(key: PersonDataProviderType)

  /** The exception build throws when no provider has the requested type. */
  datatype NoProviderFound = NoProviderFound(providerType: PersonDataProviderType)

  /** The registry once built: the provider of each type. */
  datatype PersonDataProviderFactory = PersonDataProviderFactory(providerType: map<PersonDataProviderType, Provider>)

  /** The types of the providers in ps. */
  ghost function TypesOf(ps: seq<Provider>): set<PersonDataProviderType> {
    set i | 0 <= i < |ps| :: TypeOf(ps[i])
  }

  /** No two providers in ps report the same type. */
  ghost predicate DistinctTypes(ps: seq<Provider>) {
    forall i, j :: 0 <= i < j < |ps| ==> TypeOf(ps[i]) != TypeOf(ps[j])
  }

  /** The types of a list with a provider in front: that provider's type and the rest's. */
  lemma TypesOfCons(p: Provider, ps: seq<Provider>)
    ensures TypesOf([p] + ps) == {TypeOf(p)} + TypesOf(ps)
  {
    var qs := [p] + ps;
    forall u | u in TypesOf(qs) ensures u in {TypeOf(p)} + TypesOf(ps) {
      var i :| 0 <= i < |qs| && TypeOf(qs[i]) == u;
      if i > 0 { assert qs[i] == ps[i - 1]; }
    }
    forall u | u in TypesOf(ps) ensures u in TypesOf(qs) {
      var i :| 0 <= i < |ps| && TypeOf(ps[i]) == u;
      assert qs[i + 1] == ps[i];
    }
    assert qs[0] == p && TypeOf(qs[0]) in TypesOf(qs);
  }

  /** A list with a provider in front has distinct types exactly when the rest has and
      does not report that provider's type. */
  lemma DistinctTypesCons(p: Provider, ps: seq<Provider>)
    ensures DistinctTypes([p] + ps) <==> DistinctTypes(ps) && TypeOf(p) !in TypesOf(ps)
  {
    var qs := [p] + ps;
    assert qs[0] == p;
    assert forall i :: 0 <= i < |ps| ==> qs[i + 1] == ps[i];
    if DistinctTypes(ps) && TypeOf(p) !in TypesOf(ps) {
      forall i, j | 0 <= i < j < |qs| ensures TypeOf(qs[i]) != TypeOf(qs[j]) {
        assert TypeOf(ps[j - 1]) in TypesOf(ps);
      }
    }
    if DistinctTypes(qs) {
      forall u | u in TypesOf(ps) ensures u != TypeOf(p) {
        var i :| 0 <= i < |ps| && TypeOf(ps[i]) == u;
        assert TypeOf(qs[0]) != TypeOf(qs[i + 1]);
      }
    }
  }

  /** The map collector keyed by provider type, continuing from the entries in acc:
      each provider is added in list order, and the first whose type is already a key
      ends the collection with that key as the error. */
  function CollectByType(ps: seq<Provider>, acc: map<PersonDataProviderType, Provider>)
    : (r: Result<map<PersonDataProviderType, Provider>, DuplicateKey>)
    ensures r.Success? <==> DistinctTypes(ps) && TypesOf(ps) !! acc.Keys
    ensures r.Failure? ==> r.error.key in TypesOf(ps)
    ensures r.Success? ==> r.value.Keys == acc.Keys + TypesOf(ps)
    ensures r.Success? ==> forall t :: t in acc ==> r.value[t] == acc[t]
    ensures r.Success? ==> forall i :: 0 <= i < |ps| ==> r.value[TypeOf(ps[i])] == ps[i]
    decreases |ps|
  {
    if ps == [] then Success(acc)
    else
      var t := TypeOf(ps[0]);
      TypesOfCons(ps[0], ps[1..]);
      DistinctTypesCons(ps[0], ps[1..]);
      assert [ps[0]] + ps[1..] == ps;
      if t in acc then Failure(DuplicateKey(t))
      else
        var r := CollectByType(ps[1..], acc[t := ps[0]]);
        if r.Success? then
          assert forall i :: 1 <= i < |ps| ==> ps[i] == ps[1..][i - 1];
          r
        else r
  }

  /** The collector fails exactly at the first provider j whose type is already a key:
      the providers before j are collected without a clash, and j's type is the error. */
  lemma {:induction false} CollectFailsAtFirstDuplicate(ps: seq<Provider>, acc: map<PersonDataProviderType, Provider>)
    returns (j: nat)
    requires CollectByType(ps, acc).Failure?
    ensures j < |ps| && CollectByType(ps, acc).error == DuplicateKey(TypeOf(ps[j]))
    ensures TypeOf(ps[j]) in acc.Keys + TypesOf(ps[..j])
    ensures DistinctTypes(ps[..j]) && TypesOf(ps[..j]) !! acc.Keys
    decreases |ps|
  {
    assert ps != [];
    var t := TypeOf(ps[0]);
    assert TypesOf([]) == {};
    if t in acc {
      j := 0;
      assert ps[..0] == [];
    } else {
      var k := CollectFailsAtFirstDuplicate(ps[1..], acc[t := ps[0]]);
      j := k + 1;
      assert ps[..j] == [ps[0]] + ps[1..][..k];
      assert ps[j] == ps[1..][k];
      TypesOfCons(ps[0], ps[1..][..k]);
      DistinctTypesCons(ps[0], ps[1..][..k]);
    }
  }

  /** The constructor: the providers collected into a map from each one's type to it. */
  function NewFactory(providers: seq<Provider>): (r: Result<PersonDataProviderFactory, DuplicateKey>)
    ensures r.Success? <==> DistinctTypes(providers)
    ensures r.Failure? ==> r.error.key in TypesOf(providers)
    ensures r.Success? ==> r.value.providerType.Keys == TypesOf(providers)
    ensures r.Success? ==> forall i :: 0 <= i < |providers| ==> r.value.providerType[TypeOf(providers[i])] == providers[i]
  {
    match CollectByType(providers, map[])
    case Failure(e) => Failure(e)
    case Success(m) => Success(PersonDataProviderFactory(m))
  }

  /** A failing constructor names the type of the first provider whose type an earlier
      provider already reported. */
  lemma NewFactoryFailsAtFirstDuplicate(providers: seq<Provider>) returns (i: nat, j: nat)
    requires NewFactory(providers).Failure?
    ensures i < j < |providers| && TypeOf(providers[i]) == TypeOf(providers[j])
    ensures NewFactory(providers).error == DuplicateKey(TypeOf(providers[j]))
    ensures DistinctTypes(providers[..j])
  {
    j := CollectFailsAtFirstDuplicate(providers, map[]);
    assert TypeOf(providers[j]) in TypesOf(providers[..j]);
    var k :| 0 <= k < |providers[..j]| && TypeOf(providers[..j][k]) == TypeOf(providers[j]);
    i := k;
  }

  /** build: the provider registered for the type, or NoProviderFound. */
  function Build(factory: PersonDataProviderFactory, t: PersonDataProviderType): (r: Result<Provider, NoProviderFound>)
    ensures r.Success? <==> t in factory.providerType
    ensures r.Success? ==> r.value == factory.providerType[t]
    ensures r.Failure? ==> r.error == NoProviderFound(t)
  {
    if t in factory.providerType then Success(factory.providerType[t])
    else Failure(NoProviderFound(t))
  }

  /** From a registry built out of a list of providers, build finds a provider exactly
      for the types some provider reports, and what it finds is in the list and reports
      the requested type. */
  lemma BuildOnNewFactory(providers: seq<Provider>, t: PersonDataProviderType)
    requires NewFactory(providers).Success?
    ensures Build(NewFactory(providers).value, t).Success? <==>
      exists i :: 0 <= i < |providers| && TypeOf(providers[i]) == t
    ensures Build(NewFactory(providers).value, t).Success? ==>
      var p := Build(NewFactory(providers).value, t).value;
      TypeOf(p) == t && exists i :: 0 <= i < |providers| && providers[i] == p
  {
  }

  /** Every provider given to the constructor is what build answers for its own type. */
  lemma BuildReachesEachProvider(providers: seq<Provider>, i: nat)
    requires NewFactory(providers).Success? && i < |providers|
    ensures Build(NewFactory(providers).value, TypeOf(providers[i])) == Success(providers[i])
  {
  }

  /** The application's own wiring: the flat-file provider and the database provider
      register side by side, and the service's request for CSV yields the flat-file one. */
  lemma ApplicationWiring(csv: CsvPersonDataProvider)
    ensures NewFactory([CsvSource(csv), DbSource]).Success?
    ensures Build(NewFactory([CsvSource(csv), DbSource]).value, CSV) == Success(CsvSource(csv))
    ensures Build(NewFactory([CsvSource(csv), DbSource]).value, DB) == Success(DbSource)
  {
    var ps := [CsvSource(csv), DbSource];
    assert TypeOf(ps[0]) == CSV && TypeOf(ps[1]) == DB;
  }

  /** Two providers of the same type make the constructor fail with that type. */
  lemma DuplicateTypeRejected(a: CsvPersonDataProvider, b: CsvPersonDataProvider)
    ensures NewFactory([CsvSource(a), DbSource, CsvSource(b)]) == Failure(DuplicateKey(CSV))
  {
    var ps := [CsvSource(a), DbSource, CsvSource(b)];
    assert TypeOf(ps[0]) == CSV && TypeOf(ps[1]) == DB && TypeOf(ps[2]) == CSV;
    var m1 := map[CSV := ps[0]];
    var m2 := m1[DB := DbSource];
    assert CollectByType(ps, map[]) == CollectByType(ps[1..], m1);
    assert ps[1..][1..] == [CsvSource(b)];
    assert CollectByType(ps[1..], m1) == CollectByType([CsvSource(b)], m2);
    assert CSV in m2;
  }
}
