# person-app: the flat-file person provider, in Dafny

This project models the core of person-app. The core has three parts:

- **The CSV person provider.** It reads a sample file of people into `Person` objects. It then answers `all`, `findById` and `findByColor` over the loaded list.
- **The provider registry.** It maps each provider's type (CSV or DB) to that provider. `build` looks a provider up by type.
- **The `Person` entity.**

The file loader works line by line:

1. Each physical line is trimmed and appended to a buffer.
2. The buffer is a complete record once it matches `.*,\s*\d+\s*$`.
3. A complete record is split on commas.
4. With at least four columns, the record becomes a `Person`:
   - surname and given name come from the first two columns;
   - zipcode and city come from the third column, split at its first whitespace run;
   - the colour label is looked up from the integer in the fourth column.
5. The person gets the next id, starting at 1.
6. After every complete record the buffer is emptied.

The files are:

- `wrappers.dfy`: the `Option` and `Result` types.
- `java_text.dfy`: the Java string operations the loader relies on.
  - `String.trim`.
  - `split(",")`, which drops trailing empty strings.
  - `split("\\s+", 2)`.
  - `Integer.parseInt` and its `NumberFormatException`.
  - The regex character classes `\s`, `\d` and `.`.
- `person.dfy`: the mutable `Person` class. Every field is optional: Java's `null` is `None`. The file also defines `PersonRecord`, the value of a fully set person.
- `csv_format.dfy`:
  - `COLOR_MAP`;
  - the complete-record test, with a proof that it decides exactly the regular expression;
  - the mapping of one record's columns to a person;
  - the whole load as a fold (`Step`, `Run`, `Load`) over the lines, with its invariants.
- `csv_provider.dfy`:
  - the imperative loader `LoadObjectList`, proved equal to the fold;
  - the provider class and its lookups.
- `provider_types.dfy`, `provider_factory.dfy`: the provider types and the registry.

## Model

| member | source | states |
|---|---|---|
| CsvFormat.ColorOf | person-app/src/main/java/com/mapo/personapp/person/CsvPersonDataProvider.java:16-26 | the looked-up label is one of the eight labels (seven colours or "unknown"); it is "unknown" exactly when the code is outside 1..7 |
| CsvFormat.ColorOfInjective | person-app/src/main/java/com/mapo/personapp/person/CsvPersonDataProvider.java:19-25 | the seven listed codes carry seven different labels |
| JavaText.Trim | person-app/src/main/java/com/mapo/personapp/person/CsvPersonDataProvider.java:43 | the result is the input minus its leading and trailing characters <= U+0020, and begins and ends with a kept character |
| JavaText.TrimIdempotent | person-app/src/main/java/com/mapo/personapp/person/CsvPersonDataProvider.java:50-53 | trimming an already trimmed line or column changes nothing |
| CsvFormat.IsNumberTail | person-app/src/main/java/com/mapo/personapp/person/CsvPersonDataProvider.java:46 | the test for the numeric last field; IsNumberTailCorrect proves it accepts exactly `\s*\d+\s*` |
| CsvFormat.IsNumberTailCorrect | person-app/src/main/java/com/mapo/personapp/person/CsvPersonDataProvider.java:46 | the run-measuring test accepts a text exactly when it is spaces, one or more digits, then spaces (`\s*\d+\s*`) |
| CsvFormat.IsNumberTailSound | person-app/src/main/java/com/mapo/personapp/person/CsvPersonDataProvider.java:46 | every text the run-measuring test accepts is spaces, one or more digits, then spaces |
| CsvFormat.IsNumberTailComplete | person-app/src/main/java/com/mapo/personapp/person/CsvPersonDataProvider.java:46 | every text made of spaces, one or more digits and spaces passes the run-measuring test |
| CsvFormat.MatchesFromWitness | person-app/src/main/java/com/mapo/personapp/person/CsvPersonDataProvider.java:46 | a buffer the test accepts has a comma after a line-terminator-free prefix, followed by a number tail |
| CsvFormat.MatchesFromComplete | person-app/src/main/java/com/mapo/personapp/person/CsvPersonDataProvider.java:46 | every such comma position makes the test accept |
| CsvFormat.MatchesRecordEndCorrect | person-app/src/main/java/com/mapo/personapp/person/CsvPersonDataProvider.java:46 | the complete-record test holds exactly when the whole buffer matches `.*,\s*\d+\s*$`, where `.` excludes line terminators |
| CsvFormat.MatchesRecordEnd | person-app/src/main/java/com/mapo/personapp/person/CsvPersonDataProvider.java:46 | the complete-record test; MatchesRecordEndCorrect proves it holds exactly when the buffer matches `.*,\s*\d+\s*$` |
| JavaText.Pieces | person-app/src/main/java/com/mapo/personapp/person/CsvPersonDataProvider.java:47 | cutting at every comma gives at least one piece, none containing a comma, and joining them back with commas gives the input |
| JavaText.PiecesOfJoin | person-app/src/main/java/com/mapo/personapp/person/CsvPersonDataProvider.java:47 | cutting comma-free pieces joined by commas gives back exactly those pieces |
| JavaText.DropTrailingEmpty | person-app/src/main/java/com/mapo/personapp/person/CsvPersonDataProvider.java:47 | removes exactly the trailing empty pieces: the result is a prefix, its last piece is non-empty, and every dropped piece is empty |
| JavaText.Split | person-app/src/main/java/com/mapo/personapp/person/CsvPersonDataProvider.java:47 | `split(",")`: a text without a comma comes back whole; otherwise the result is the comma pieces with the trailing empty ones dropped, and its last piece is non-empty |
| JavaText.SplitAtFirstSpaceRun | person-app/src/main/java/com/mapo/personapp/person/CsvPersonDataProvider.java:58 | `split("\\s+", 2)`: a single piece, the text itself, exactly when it has no whitespace; otherwise the text before the first whitespace run and everything after that run |
| JavaText.ParseInt | person-app/src/main/java/com/mapo/personapp/person/CsvPersonDataProvider.java:53 | succeeds exactly for an optionally signed digit string whose value lies in the 32-bit range, and then gives that value; every other input, including a digit string that overflows, fails with NumberFormatException naming the input |
| JavaText.ParseIntOfIntToString | person-app/src/main/java/com/mapo/personapp/person/CsvPersonDataProvider.java:53 | the decimal notation of an integer parses exactly when the integer is in the 32-bit range, and then back to that integer |
| CsvFormat.SplitAddress | person-app/src/main/java/com/mapo/personapp/person/CsvPersonDataProvider.java:55-64 | the zipcode has no whitespace; without whitespace the address is the zipcode and the city is ""; otherwise zipcode, a whitespace run and city make up the address, and the city keeps its inner whitespace |
| CsvFormat.RecordOf | person-app/src/main/java/com/mapo/personapp/person/CsvPersonDataProvider.java:50-68 | it fails exactly when the trimmed fourth column is no int, with that error. Otherwise: the id is the given one; the surname is the trimmed first column and the given name the trimmed second; zipcode and city come from the trimmed third; the colour is the table label of the parsed fourth column, one of the eight labels |
| CsvFormat.RecordColorFromCode | person-app/src/main/java/com/mapo/personapp/person/CsvPersonDataProvider.java:53-66 | a colour column holding the notation of a code (blanks around it allowed) yields exactly that code's label, e.g. "4" gives "rot"; a code beyond the 32-bit range fails |
| CsvFormat.Step | person-app/src/main/java/com/mapo/personapp/person/CsvPersonDataProvider.java:43-73 | one line: a failure happens only on a complete record of four or more columns; the buffer extended by the trimmed line is reset to empty when it forms a complete record, and is kept as it is otherwise; the persons so far stay and grow by at most one, and the id counter advances exactly by the number added |
| CsvFormat.StepWaits | person-app/src/main/java/com/mapo/personapp/person/CsvPersonDataProvider.java:43-46 | a line after which the buffer is no complete record only appends the trimmed line to the buffer |
| CsvFormat.StepDiscards | person-app/src/main/java/com/mapo/personapp/person/CsvPersonDataProvider.java:47-73 | a complete record with fewer than four columns empties the buffer, adds no person and uses no id |
| CsvFormat.StepFails | person-app/src/main/java/com/mapo/personapp/person/CsvPersonDataProvider.java:53 | a complete record whose colour column is no int ends the load with that NumberFormatException |
| CsvFormat.StepAppends | person-app/src/main/java/com/mapo/personapp/person/CsvPersonDataProvider.java:66-73 | a complete record with four or more columns and a numeric colour appends its person, advances the id by one and empties the buffer |
| CsvFormat.StepOutcome | person-app/src/main/java/com/mapo/personapp/person/CsvPersonDataProvider.java:43-73 | on a successful step the buffer becomes empty when it held a complete record, and otherwise is the old buffer plus the trimmed line; persons grow by one (with the current id) exactly for a complete record of four or more columns; a failure happens only on such a record |
| CsvFormat.AppendKeepsWellFormed | person-app/src/main/java/com/mapo/personapp/person/CsvPersonDataProvider.java:68-70 | appending a person that carries the next id and a known colour, and advancing the counter, keeps the numbering invariant |
| CsvFormat.RunFrom | person-app/src/main/java/com/mapo/personapp/person/CsvPersonDataProvider.java:42 | running from line i is one step on line i followed by running from line i + 1 |
| CsvFormat.StepKeepsWellFormed | person-app/src/main/java/com/mapo/personapp/person/CsvPersonDataProvider.java:36-70 | each line keeps the invariant: person i has id i + 1, the next id is one past the count, and every colour is one of the eight labels |
| CsvFormat.RunKeepsWellFormed | person-app/src/main/java/com/mapo/personapp/person/CsvPersonDataProvider.java:42-75 | the whole loop keeps that invariant |
| CsvFormat.Run | person-app/src/main/java/com/mapo/personapp/person/CsvPersonDataProvider.java:42-75 | the loop over all lines: persons are only appended, never removed or changed, and at most one per line |
| CsvFormat.Load | person-app/src/main/java/com/mapo/personapp/person/CsvPersonDataProvider.java:33-78 | the persons of the whole file: it fails exactly when a step fails; otherwise the i-th person has id i + 1 (so ids are 1, 2, 3, ... and unique), every colour is one of the eight labels, and there are at most as many persons as lines |
| CsvProvider.AppendLoaded | person-app/src/main/java/com/mapo/personapp/person/CsvPersonDataProvider.java:69 | appending a new person object that holds the next record keeps the list of persons in step with the records |
| CsvProvider.CsvPersonDataProvider.LoadObjectList | person-app/src/main/java/com/mapo/personapp/person/CsvPersonDataProvider.java:33-78 | the imperative loop fails exactly when the load fold fails, with the same error. Otherwise it returns distinct Person objects, the i-th holding the fold's i-th record |
| CsvProvider.CsvPersonDataProvider.NewPerson | person-app/src/main/java/com/mapo/personapp/person/CsvPersonDataProvider.java:50-68 | builds a new Person holding exactly RecordOf's record, or fails exactly when RecordOf does, with the same error |
| CsvProvider.CsvPersonDataProvider.Create | person-app/src/main/java/com/mapo/personapp/person/CsvPersonDataProvider.java:28-29 | construction fails exactly when the load does; otherwise the new provider's list holds the loaded records |
| CsvProvider.CsvPersonDataProvider.FromLoaded | person-app/src/main/java/com/mapo/personapp/person/CsvPersonDataProvider.java:29 | the provider keeps the loaded list as its data |
| CsvProvider.CsvPersonDataProvider.All | person-app/src/main/java/com/mapo/personapp/person/CsvPersonDataProvider.java:98-100 | answers the stored list itself, the same on every call; the list is a value here, so callers cannot change it through the answer |
| CsvProvider.CsvPersonDataProvider.Save | person-app/src/main/java/com/mapo/personapp/person/CsvPersonDataProvider.java:103-106 | answers null and, having no modifies clause, changes no data |
| CsvProvider.IndexOfId | person-app/src/main/java/com/mapo/personapp/person/CsvPersonDataProvider.java:110-111 | the position of the first person with that id, or the list length when there is none |
| CsvProvider.IndexOfSequentialId | person-app/src/main/java/com/mapo/personapp/person/CsvPersonDataProvider.java:110-111 | in a list numbered 1, 2, 3, ... the first person with id k is at position k - 1, and there is none outside 1..length |
| CsvProvider.CsvPersonDataProvider.FindById | person-app/src/main/java/com/mapo/personapp/person/CsvPersonDataProvider.java:109-112 | answers the first person with that id; fails with PersonNotFoundException(id) exactly when no person has it |
| CsvProvider.FindByIdOnLoaded | person-app/src/main/java/com/mapo/personapp/person/CsvPersonDataProvider.java:109-112 | on a loaded provider, findById(k) finds a person exactly for 1 <= k <= count, and that person is the k-th loaded |
| CsvProvider.WithColor | person-app/src/main/java/com/mapo/personapp/person/CsvPersonDataProvider.java:116-117 | the filter keeps exactly the persons with that colour, each as often as it occurs in the list, in list order, and is empty exactly when none has it |
| CsvProvider.CsvPersonDataProvider.FindByColor | person-app/src/main/java/com/mapo/personapp/person/CsvPersonDataProvider.java:115-118 | exactly the persons with that colour, each as often as in the list, as a subsequence of the list (order kept); empty exactly when none matches |
| CsvProvider.FindByColorOnLoaded | person-app/src/main/java/com/mapo/personapp/person/CsvPersonDataProvider.java:115-118 | on a loaded provider, a colour outside the eight labels finds nobody |
| CsvProvider.CsvPersonDataProvider.GetProviderType | person-app/src/main/java/com/mapo/personapp/person/CsvPersonDataProvider.java:121-123 | the flat-file provider reports CSV |
| PersonEntity.Person.Empty | person-app/src/main/java/com/mapo/personapp/person/Person.java:14 | the no-argument constructor leaves all six fields unset |
| PersonEntity.Person.constructor | person-app/src/main/java/com/mapo/personapp/person/Person.java:26-32 | each of the five arguments lands in the field of the same name, and the id stays unset |
| PersonEntity.Person.SetId | person-app/src/main/java/com/mapo/personapp/person/Person.java:11-18 | sets the id and leaves the other five fields unchanged |
| ProviderFactory.TypeOf | person-app/src/main/java/com/mapo/personapp/person/CsvPersonDataProvider.java:121-123 | a provider's type is CSV exactly for the flat-file provider and DB exactly for the database one (whose `getProviderType` is DbPersonDataProvider.java:36-39) |
| ProviderFactory.TypesOfCons | person-app/src/main/java/com/mapo/personapp/person/PersonDataProviderFactory.java:14 | putting a provider in front adds exactly its type to the set of reported types |
| ProviderFactory.DistinctTypesCons | person-app/src/main/java/com/mapo/personapp/person/PersonDataProviderFactory.java:14 | with a provider in front, the types stay pairwise distinct exactly when the rest is distinct and does not report that provider's type |
| ProviderFactory.CollectByType | person-app/src/main/java/com/mapo/personapp/person/PersonDataProviderFactory.java:14 | the collector succeeds exactly when the types are pairwise distinct and new to the map. Its keys are then the old keys plus those types; old entries are kept and each provider sits under its own type. A failure names a type of the list |
| ProviderFactory.CollectFailsAtFirstDuplicate | person-app/src/main/java/com/mapo/personapp/person/PersonDataProviderFactory.java:14 | a failure names the type of the first provider whose type is already a key; the providers before it clash nowhere |
| ProviderFactory.NewFactory | person-app/src/main/java/com/mapo/personapp/person/PersonDataProviderFactory.java:13-15 | the constructor succeeds exactly when no two providers report the same type. The map's keys are then the reported types and each provider sits under its own type |
| ProviderFactory.NewFactoryFailsAtFirstDuplicate | person-app/src/main/java/com/mapo/personapp/person/PersonDataProviderFactory.java:14 | a failing constructor names the type of the first provider whose type an earlier provider already reported |
| ProviderFactory.Build | person-app/src/main/java/com/mapo/personapp/person/PersonDataProviderFactory.java:17-23 | answers the provider registered for the type; fails with NoProviderFound(type) exactly when none is registered |
| ProviderFactory.BuildOnNewFactory | person-app/src/main/java/com/mapo/personapp/person/PersonDataProviderFactory.java:14-22 | on a constructed registry, build succeeds exactly for the types some provider reports; what it returns is one of the providers and reports the requested type |
| ProviderFactory.BuildReachesEachProvider | person-app/src/main/java/com/mapo/personapp/person/PersonDataProviderFactory.java:14-22 | every provider passed to the constructor is what build returns for its own type |
| ProviderFactory.ApplicationWiring | person-app/src/main/java/com/mapo/personapp/person/PersonService.java:11 | registering the flat-file and database providers together succeeds; build(CSV) gives the flat-file one and build(DB) the database one |
| ProviderFactory.DuplicateTypeRejected | person-app/src/main/java/com/mapo/personapp/person/PersonDataProviderFactory.java:14 | two flat-file providers make the constructor fail with the duplicate key CSV |

## Left out

- Reading the file: the resource lookup, the readers and the swallowed `IOException` (CsvPersonDataProvider.java:34, 38, 76-78). The loader takes the file's lines as a sequence of strings.
- The Jackson JSON array, which is built and then discarded (CsvPersonDataProvider.java:80-93), and the `println` in the constructor.
- The `NumberFormatException` from the colour column is an uncaught exception in Java. It propagates out of the constructor. Here it is the `Failure` of a `Result`, and it aborts the load the same way.
- JavaText.ParseInt: the Unicode digits outside `0`-`9` that `Integer.parseInt` also accepts are rejected. ASCII digits only.
- JavaText.Trim, JavaText.Split and JavaText.SplitAtFirstSpaceRun are written directly for their arguments (`","`, `"\\s+"` with limit 2). The general regex engine is not modelled.
- The lookups compare `Option` values. Java would throw `NullPointerException` on a person whose id or colour is null. The loader never produces one; such a person simply does not match here.
- `Person.id` is a Java `Long`. It is an unbounded integer here: the loader's counter could only overflow after 2^63 records.
- Person's other Lombok setters and getters, and the JPA annotations. Only `setId` is used by the core.
- `DbPersonDataProvider`, `PersonRepository`, `PersonController` and `PersonService`. They forward to Spring Data or HTTP routing. The database provider appears only as `ProviderFactory.DbSource`, with type DB.
- CsvProvider.CsvPersonDataProvider.All: `all()` hands out the provider's own mutable list, so a Java caller could clear or change it and later `findById` and `findByColor` calls would see that. Here the list is an immutable sequence, so this aliasing is not captured.
- `PersonDataProvider.java` is an interface with no logic. The registry's `Provider` datatype stands for it.
- `PersonDataProviderType.java` is not part of this model's sources. Its two values, CSV and DB, are the ones the providers report.
- Repeated `build` calls return the same provider because the registry is an immutable value. No separate lemma states this.
