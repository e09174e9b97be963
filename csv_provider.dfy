/** The flat-file person provider: the loader that turns the file's lines into Person
    objects, and the lookups over the loaded list. */
module CsvProvider {
  import opened Wrappers
  import opened JavaText
  import opened PersonEntity
  import opened CsvFormat
  import opened ProviderTypes

  /** persons are distinct objects, and the i-th one holds records[i]. */
  ghost predicate Loaded(persons: seq<Person>, records: seq<PersonRecord>)
    reads persons
  {
    && |persons| == |records|
    && (forall i :: 0 <= i < |persons| ==> persons[i].Holds(records[i]))
    && (forall i, j :: 0 <= i < j < |persons| ==> persons[i] != persons[j])
  }

  /** A fresh person holding one more record keeps the list loaded. */
  lemma AppendLoaded(persons: seq<Person>, records: seq<PersonRecord>, p: Person, r: PersonRecord)
    requires Loaded(persons, records) && p !in persons && p.Holds(r)
    ensures Loaded(persons + [p], records + [r])
  {
  }

  /** PersonNotFoundException, carrying the id that was asked for. */
  datatype PersonNotFoundException = PersonNotFoundException(id: int)

  /** Index of the first person whose id is id, or |ps|. */
  function IndexOfId(ps: seq<Person>, id: int): (k: nat)
    reads ps
    ensures k <= |ps|
    ensures forall j :: 0 <= j < k ==> ps[j].id != Some(id)
    ensures k < |ps| ==> ps[k].id == Some(id)
    decreases |ps|
  {
    if ps == [] then 0
    else if ps[0].id == Some(id) then 0
    else 1 + IndexOfId(ps[1..], id)
  }

  /** r is s with some elements left out, the rest in their original order. */
  predicate IsSubsequence<T(==)>(r: seq<T>, s: seq<T>)
    decreases |s|
  {
    if r == [] then true
    else if s == [] then false
    else if r[0] == s[0] then IsSubsequence(r[1..], s[1..])
    else IsSubsequence(r, s[1..])
  }

  /** The persons of ps whose colour is color, in list order. */
  function WithColor(ps: seq<Person>, color: string): (r: seq<Person>)
    reads ps
    ensures forall p :: p in r ==> p in ps
    ensures forall p :: p in r ==> p.color == Some(color)
    ensures forall j :: 0 <= j < |ps| && ps[j].color == Some(color) ==> ps[j] in r
    ensures r == [] <==> forall j :: 0 <= j < |ps| ==> ps[j].color != Some(color)
    ensures forall p :: p in ps && p.color == Some(color) ==> multiset(r)[p] == multiset(ps)[p]
    ensures IsSubsequence(r, ps)
    decreases |ps|
  {
    if ps == [] then []
    else
      var rest := WithColor(ps[1..], color);
      assert ps == [ps[0]] + ps[1..];
      assert multiset(ps) == multiset([ps[0]]) + multiset(ps[1..]);
      if ps[0].color == Some(color) then
        assert ([ps[0]] + rest)[1..] == rest;
        assert multiset([ps[0]] + rest) == multiset([ps[0]]) + multiset(rest);
        [ps[0]] + rest
      else
        rest
  }

  class CsvPersonDataProvider {
    const personData: seq<Person>

    /** Keeps the list the loader produced. */
    constructor FromLoaded(persons: seq<Person>)
      ensures personData == persons
    {
      personData := persons;
    }

    /** The constructor: loads the file's lines; a colour column that is not a number
        aborts construction with the NumberFormatException. */
    static method Create(lines: seq<string>) returns (r: Result<CsvPersonDataProvider, NumberFormatException>)
      ensures r.Failure? <==> Load(lines).Failure?
      ensures r.Failure? ==> r.error == Load(lines).error
      ensures r.Success? ==> fresh(r.value) && Loaded(r.value.personData, Load(lines).value)
    {
      var loaded := LoadObjectList(lines);
      if loaded.Failure? {
        r := Failure(loaded.error);
      } else {
        var provider := new CsvPersonDataProvider.FromLoaded(loaded.value);
        r := Success(provider);
      }
    }

    /** loadObjectList: reads the lines one by one, gathering trimmed lines in a buffer
        until it holds a complete record, and builds one numbered Person per record. */
    static method LoadObjectList(lines: seq<string>) returns (r: Result<seq<Person>, NumberFormatException>)
      ensures r.Failure? <==> Load(lines).Failure?
      ensures r.Failure? ==> r.error == Load(lines).error
      ensures r.Success? ==> Loaded(r.value, Load(lines).value)
    {
      var persons: seq<Person> := [];
      var lineNumber := 1;
      var currentLine := "";
      ghost var records: seq<PersonRecord> := [];
      var i := 0;
      while i < |lines|
        invariant 0 <= i <= |lines|
        invariant Run(Start, lines) == Run(LoadState(currentLine, records, lineNumber), lines[i..])
        invariant Loaded(persons, records)
      {
        ghost var before := LoadState(currentLine, records, lineNumber);
        RunFrom(before, lines, i);
        currentLine := currentLine + Trim(lines[i]);
        if MatchesRecordEnd(currentLine) {
          var parts := Split(currentLine, ',');
          if |parts| >= 4 {
            var person := NewPerson(parts, lineNumber);
            if person.Failure? {
              StepFails(before, lines[i]);
              return Failure(person.error);
            }
            ghost var record := RecordOf(parts, lineNumber).value;
            StepAppends(before, lines[i]);
            AppendLoaded(persons, records, person.value, record);
            persons := persons + [person.value];
            records := records + [record];
            lineNumber := lineNumber + 1;
          } else {
            StepDiscards(before, lines[i]);
          }
          currentLine := "";
        } else {
          StepWaits(before, lines[i]);
        }
        i := i + 1;
      }
      assert lines[i..] == [];
      r := Success(persons);
    }

    /** The body of the loop for one complete record with at least four columns: the
        surname and given name columns, the address split into zipcode and city, the
        colour code looked up, the id set after construction. */
    static method NewPerson(parts: seq<string>, id: int) returns (r: Result<Person, NumberFormatException>)
      requires |parts| >= 4
      ensures r.Failure? <==> RecordOf(parts, id).Failure?
      ensures r.Failure? ==> r.error == RecordOf(parts, id).error
      ensures r.Success? ==> fresh(r.value) && r.value.Holds(RecordOf(parts, id).value)
    {
      var lastName := Trim(parts[0]);
      var firstName := Trim(parts[1]);
      var address := Trim(parts[2]);
      var colorCode := ParseInt(Trim(parts[3]));
      if colorCode.Failure? {
        return Failure(colorCode.error);
      }
      var zipcode := "";
      var city := "";
      var addressParts := SplitAtFirstSpaceRun(address);
      if |addressParts| >= 1 {
        zipcode := addressParts[0];
      }
      if |addressParts| >= 2 {
        city := addressParts[1];
      }
      var color := ColorOf(colorCode.value);
      var person := new Person(firstName, lastName, zipcode, city, color);
      person.SetId(id);
      r := Success(person);
    }

    /** all(): the loaded list itself. */
    function All(): (r: seq<Person>)
      ensures r == personData
    {
      personData
    }

    /** save(): not implemented for the flat file; answers null and changes nothing. */
    method Save(person: Person) returns (r: Option<Person>)
      ensures r == None
    {
      r := None;
    }

    /** findById(): the first person whose id is id, or PersonNotFoundException. */
    function FindById(id: int): (r: Result<Person, PersonNotFoundException>)
      reads personData
      ensures r.Success? ==> r.value.id == Some(id)
      ensures r.Success? ==> exists k :: 0 <= k < |personData| && personData[k] == r.value
                                       && forall j :: 0 <= j < k ==> personData[j].id != Some(id)
      ensures r.Failure? ==> r.error == PersonNotFoundException(id)
      ensures r.Failure? <==> forall k :: 0 <= k < |personData| ==> personData[k].id != Some(id)
    {
      var k := IndexOfId(personData, id);
      if k < |personData| then Success(personData[k]) else Failure(PersonNotFoundException(id))
    }

    /** findByColor(): the persons whose colour is color, in list order. */
    function FindByColor(color: string): (r: seq<Person>)
      reads personData
      ensures forall p :: p in r ==> p in personData && p.color == Some(color)
      ensures forall k :: 0 <= k < |personData| && personData[k].color == Some(color) ==> personData[k] in r
      ensures r == [] <==> forall k :: 0 <= k < |personData| ==> personData[k].color != Some(color)
      ensures forall p :: p in personData && p.color == Some(color) ==> multiset(r)[p] == multiset(personData)[p]
      ensures IsSubsequence(r, personData)
    {
      WithColor(personData, color)
    }

    /** getProviderType(): the flat-file provider is registered as CSV. */
    function GetProviderType(): (t: PersonDataProviderType)
      ensures t == CSV
    {
      CSV
    }
  }

  /** In a list numbered 1, 2, 3, ... the person with id k sits at position k - 1. */
  lemma IndexOfSequentialId(ps: seq<Person>, id: int)
    requires forall k :: 0 <= k < |ps| ==> ps[k].id == Some(k + 1)
    ensures IndexOfId(ps, id) == if 1 <= id <= |ps| then id - 1 else |ps|
  {
    var k := IndexOfId(ps, id);
    if 1 <= id <= |ps| {
      assert ps[id - 1].id == Some(id);
    }
  }

  /** On a freshly loaded provider the person with id k is the k-th one loaded, and no
      other id is found. */
  lemma FindByIdOnLoaded(provider: CsvPersonDataProvider, lines: seq<string>, id: int)
    requires Load(lines).Success? && Loaded(provider.personData, Load(lines).value)
    ensures provider.FindById(id).Success? <==> 1 <= id <= |provider.personData|
    ensures 1 <= id <= |provider.personData| ==> provider.FindById(id) == Success(provider.personData[id - 1])
  {
    var ps, rs := provider.personData, Load(lines).value;
    assert forall i :: 0 <= i < |rs| ==> rs[i].id == i + 1;
    forall k | 0 <= k < |ps| ensures ps[k].id == Some(k + 1) {
      assert ps[k].Holds(rs[k]);
    }
    IndexOfSequentialId(ps, id);
  }

  /** On a freshly loaded provider a colour outside the eight labels finds nobody. */
  lemma FindByColorOnLoaded(provider: CsvPersonDataProvider, lines: seq<string>, color: string)
    requires Load(lines).Success? && Loaded(provider.personData, Load(lines).value)
    requires color !in ColorLabels
    ensures provider.FindByColor(color) == []
  {
    var ps, rs := provider.personData, Load(lines).value;
    assert forall i :: 0 <= i < |rs| ==> rs[i].color in ColorLabels;
    forall k | 0 <= k < |ps| ensures ps[k].color != Some(color) {
      assert ps[k].Holds(rs[k]);
    }
  }
}
