/** The flat-file person format read by the CSV provider: the colour table, the test
    that a buffer holds one complete record, the mapping of one record's columns to a
    person, and the whole line-by-line load as a function of the lines. */
module CsvFormat {
  import opened Wrappers
  import opened JavaText
  import opened PersonEntity

  // ---------------------------------------------------------------------------
  // COLOR_MAP

  /** Colour code to German colour label. */
  const ColorMap: map<int, string> :=
    map[1 := "blau", 2 := "grün", 3 := "violett", 4 := "rot", 5 := "gelb", 6 := "türkis", 7 := "weiß"]

  /** The label of every code the table does not list. */
  const Unknown: string := "unknown"

  /** The eight labels a parsed person can carry. */
  const ColorLabels: set<string> :=
    {"blau", "grün", "violett", "rot", "gelb", "türkis", "weiß", "unknown"}

  /** COLOR_MAP.getOrDefault(code, "unknown"). */
  function ColorOf(code: int): (name: string)
    ensures name in ColorLabels
    ensures name == Unknown <==> !(1 <= code <= 7)
  {
    if code in ColorMap then ColorMap[code] else Unknown
  }

  /** The seven listed codes have seven different labels. */
  lemma ColorOfInjective(a: int, b: int)
    requires 1 <= a <= 7 && 1 <= b <= 7
    requires ColorOf(a) == ColorOf(b)
    ensures a == b
  {
  }

  // ---------------------------------------------------------------------------
  // The complete-record test: buffer.matches(".*,\\s*\\d+\\s*$")

  /** The last field of a complete record, \s*\d+\s*, decided by measuring the runs. */
  predicate IsNumberTail(t: string) {
    var a := SpaceRunLength(t);
    var n := DigitRunLength(t[a..]);
    n > 0 && AllSpace(t[a + n..])
  }

  /** The same field as the regex describes it: spaces, at least one digit, spaces. */
  ghost predicate NumberTailShape(t: string) {
    exists a, b :: 0 <= a < b <= |t| && AllSpace(t[..a]) && AllDigits(t[a..b]) && AllSpace(t[b..])
  }

  /** A run length is pinned down by where the run ends. */
  lemma SpaceRunLengthIs(t: string, a: nat)
    requires a <= |t| && AllSpace(t[..a])
    requires a < |t| ==> !IsSpace(t[a])
    ensures SpaceRunLength(t) == a
  {
    var n := SpaceRunLength(t);
    forall k | 0 <= k < a ensures IsSpace(t[k]) { assert t[k] == t[..a][k]; }
    forall k | 0 <= k < n ensures IsSpace(t[k]) { assert t[k] == t[..n][k]; }
  }

  lemma DigitRunLengthIs(t: string, a: nat)
    requires a <= |t| && AllDigits(t[..a])
    requires a < |t| ==> !IsDigit(t[a])
    ensures DigitRunLength(t) == a
  {
    var n := DigitRunLength(t);
    forall k | 0 <= k < a ensures IsDigit(t[k]) { assert t[k] == t[..a][k]; }
    forall k | 0 <= k < n ensures IsDigit(t[k]) { assert t[k] == t[..n][k]; }
  }

  /** What the run-measuring test accepts has the regex's shape. */
  lemma IsNumberTailSound(t: string)
    requires IsNumberTail(t)
    ensures NumberTailShape(t)
  {
    var a := SpaceRunLength(t);
    var n := DigitRunLength(t[a..]);
    assert t[a..][..n] == t[a..a + n];
    assert AllSpace(t[..a]) && AllDigits(t[a..a + n]) && AllSpace(t[a + n..]);
  }

  /** Every text of the regex's shape, split at a and b, passes the run-measuring test. */
  lemma IsNumberTailComplete(t: string, a: nat, b: nat)
    requires a < b <= |t| && AllSpace(t[..a]) && AllDigits(t[a..b]) && AllSpace(t[b..])
    ensures IsNumberTail(t)
  {
    assert t[a] == t[a..b][0];
    SpaceRunLengthIs(t, a);
    var u := t[a..];
    assert u[..b - a] == t[a..b];
    assert b < |t| ==> t[b] == t[b..][0] && u[b - a] == t[b];
    DigitRunLengthIs(u, b - a);
    assert u[b - a..] == t[b..];
  }

  lemma IsNumberTailCorrect(t: string)
    ensures IsNumberTail(t) <==> NumberTailShape(t)
  {
    if IsNumberTail(t) {
      IsNumberTailSound(t);
    }
    if NumberTailShape(t) {
      var a, b :| 0 <= a < b <= |t| && AllSpace(t[..a]) && AllDigits(t[a..b]) && AllSpace(t[b..]);
      IsNumberTailComplete(t, a, b);
    }
  }

  /** Some comma at k >= lo ends a stretch s[lo..k] the regex '.' can match and is followed
      by the numeric last field. */
  ghost predicate CommaBeforeNumberAt(s: string, lo: nat, k: nat) {
    lo <= k < |s| && s[k] == ',' && NoLineTerminator(s[lo..k]) && IsNumberTail(s[k + 1..])
  }

  /** Scans s from i for a comma that starts the numeric last field; the scan stops at
      the first character '.' cannot match. */
  predicate MatchesFrom(s: string, i: nat)
    requires i <= |s|
    decreases |s| - i
  {
    if i == |s| then false
    else if IsLineTerminator(s[i]) then false
    else (s[i] == ',' && IsNumberTail(s[i + 1..])) || MatchesFrom(s, i + 1)
  }

  /** buffer.matches(".*,\\s*\\d+\\s*$"): the buffer holds one complete record. */
  predicate MatchesRecordEnd(s: string) {
    MatchesFrom(s, 0)
  }

  /** The regex read literally: text without line terminators, a comma, spaces, digits, spaces. */
  ghost predicate RecordEndShape(s: string) {
    exists k :: 0 <= k < |s| && s[k] == ',' && NoLineTerminator(s[..k]) && NumberTailShape(s[k + 1..])
  }

  /** A match from i + 1 is a match from i when s[i] is no line terminator, and back. */
  lemma CommaBeforeNumberFrom(s: string, i: nat, k: nat)
    requires i < k < |s| && !IsLineTerminator(s[i])
    ensures CommaBeforeNumberAt(s, i, k) <==> CommaBeforeNumberAt(s, i + 1, k)
  {
  }

  /** The scan only succeeds at a comma that starts the numeric last field. */
  lemma {:induction false} MatchesFromWitness(s: string, i: nat) returns (k: nat)
    requires i <= |s| && MatchesFrom(s, i)
    ensures CommaBeforeNumberAt(s, i, k)
    decreases |s| - i
  {
    if s[i] == ',' && IsNumberTail(s[i + 1..]) {
      k := i;
      assert s[i..k] == [];
    } else {
      k := MatchesFromWitness(s, i + 1);
      CommaBeforeNumberFrom(s, i, k);
    }
  }

  /** The scan finds every comma that starts the numeric last field. */
  lemma {:induction false} MatchesFromComplete(s: string, i: nat, k: nat)
    requires i <= |s| && CommaBeforeNumberAt(s, i, k)
    ensures MatchesFrom(s, i)
    decreases k - i
  {
    if k > i {
      assert s[i] == s[i..k][0];
      CommaBeforeNumberFrom(s, i, k);
      MatchesFromComplete(s, i + 1, k);
    }
  }

  /** The scan decides exactly the regex. */
  lemma MatchesRecordEndCorrect(s: string)
    ensures MatchesRecordEnd(s) <==> RecordEndShape(s)
  {
    if MatchesRecordEnd(s) {
      var k := MatchesFromWitness(s, 0);
      IsNumberTailCorrect(s[k + 1..]);
      assert s[0..k] == s[..k];
    }
    if RecordEndShape(s) {
      var k :| 0 <= k < |s| && s[k] == ',' && NoLineTerminator(s[..k]) && NumberTailShape(s[k + 1..]);
      IsNumberTailCorrect(s[k + 1..]);
      assert s[0..k] == s[..k];
      MatchesFromComplete(s, 0, k);
    }
  }

  // ---------------------------------------------------------------------------
  // One record

  /** Zipcode and city from the trimmed address column: the text before the first
      whitespace run, and everything after that run. */
  function SplitAddress(address: string): (zc: (string, string))
    ensures NoSpace(zc.0)
    ensures NoSpace(address) ==> zc == (address, "")
    ensures !NoSpace(address) ==> SeparatedBySpace(address, zc.0, zc.1) && (zc.1 == [] || !IsSpace(zc.1[0]))
  {
    var parts := SplitAtFirstSpaceRun(address);
    var zipcode := if |parts| >= 1 then parts[0] else "";
    var city := if |parts| >= 2 then parts[1] else "";
    (zipcode, city)
  }

  /** The person one complete record describes, from its comma-split columns: surname,
      given name, "zipcode city", colour code. */
  function RecordOf(parts: seq<string>, id: int): (r: Result<PersonRecord, NumberFormatException>)
    requires |parts| >= 4
    ensures r.Failure? <==> ParseInt(Trim(parts[3])).Failure?
    ensures r.Failure? ==> r.error == NumberFormatException(Trim(parts[3]))
    ensures r.Success? ==> r.value.id == id
    ensures r.Success? ==> r.value.lastname == Trim(parts[0]) && r.value.firstname == Trim(parts[1])
    ensures r.Success? ==> (r.value.zipcode, r.value.city) == SplitAddress(Trim(parts[2]))
    ensures r.Success? ==> r.value.color == ColorOf(ParseInt(Trim(parts[3])).value)
    ensures r.Success? ==> r.value.color in ColorLabels
  {
    var lastName := Trim(parts[0]);
    var firstName := Trim(parts[1]);
    var address := SplitAddress(Trim(parts[2]));
    match ParseInt(Trim(parts[3]))
    case Failure(e) => Failure(e)
    case Success(code) => Success(PersonRecord(id, firstName, lastName, address.0, address.1, ColorOf(code)))
  }

  /** A colour column holding the decimal notation of a code, with any surrounding
      blanks, yields that code's label; a code beyond the 32-bit range fails. */
  lemma RecordColorFromCode(parts: seq<string>, id: int, code: int)
    requires |parts| >= 4 && Trim(parts[3]) == IntToString(code)
    ensures RecordOf(parts, id).Success? <==> IntMin <= code <= IntMax
    ensures RecordOf(parts, id).Success? ==> RecordOf(parts, id).value.color == ColorOf(code)
  {
    ParseIntOfIntToString(code);
  }

  // ---------------------------------------------------------------------------
  // The load, line by line

  /** What the loader carries from one line to the next: the unfinished record, the
      persons so far and the id the next person gets. */
  datatype LoadState = LoadState(buffer: string, persons: seq<PersonRecord>, nextId: int)

  const Start: LoadState := LoadState("", [], 1)

  /** One physical line: append it trimmed to the buffer; once the buffer holds a complete
      record, turn it into a person when it has at least four columns, and empty it. */
  function Step(st: LoadState, line: string): (r: Result<LoadState, NumberFormatException>)
    ensures r.Failure? ==> MatchesRecordEnd(st.buffer + Trim(line)) && |Split(st.buffer + Trim(line), ',')| >= 4
    ensures r.Success? ==> r.value.buffer == if MatchesRecordEnd(st.buffer + Trim(line)) then "" else st.buffer + Trim(line)
    ensures r.Success? ==> |st.persons| <= |r.value.persons| <= |st.persons| + 1
    ensures r.Success? ==> r.value.persons[..|st.persons|] == st.persons
    ensures r.Success? ==> r.value.nextId == st.nextId + (|r.value.persons| - |st.persons|)
  {
    var buffer := st.buffer + Trim(line);
    if !MatchesRecordEnd(buffer) then
      Success(st.(buffer := buffer))
    else
      var parts := Split(buffer, ',');
      if |parts| < 4 then
        Success(st.(buffer := ""))
      else
        match RecordOf(parts, st.nextId)
        case Failure(e) => Failure(e)
        case Success(p) => Success(LoadState("", st.persons + [p], st.nextId + 1))
  }

  /** All the lines, one step each; the first failing step ends the load. */
  function Run(st: LoadState, lines: seq<string>): (r: Result<LoadState, NumberFormatException>)
    ensures r.Success? ==> |st.persons| <= |r.value.persons| <= |st.persons| + |lines|
    ensures r.Success? ==> r.value.persons[..|st.persons|] == st.persons
    decreases |lines|
  {
    if lines == [] then Success(st)
    else
      match Step(st, lines[0])
      case Failure(e) => Failure(e)
      case Success(next) =>
        var r := Run(next, lines[1..]);
        if r.Success? then
          assert r.value.persons[..|st.persons|] == r.value.persons[..|next.persons|][..|st.persons|];
          r
        else r
  }

  /** A line after which the buffer is still no complete record only extends the buffer. */
  lemma StepWaits(st: LoadState, line: string)
    requires !MatchesRecordEnd(st.buffer + Trim(line))
    ensures Step(st, line) == Success(st.(buffer := st.buffer + Trim(line)))
  {
  }

  /** A complete record with fewer than four columns is dropped without using an id. */
  lemma StepDiscards(st: LoadState, line: string)
    requires MatchesRecordEnd(st.buffer + Trim(line))
    requires |Split(st.buffer + Trim(line), ',')| < 4
    ensures Step(st, line) == Success(st.(buffer := ""))
  {
  }

  /** A complete record with four or more columns whose colour code is no number ends
      the load with that code's error. */
  lemma StepFails(st: LoadState, line: string)
    requires MatchesRecordEnd(st.buffer + Trim(line))
    requires |Split(st.buffer + Trim(line), ',')| >= 4
    requires RecordOf(Split(st.buffer + Trim(line), ','), st.nextId).Failure?
    ensures Step(st, line) == Failure(RecordOf(Split(st.buffer + Trim(line), ','), st.nextId).error)
  {
  }

  /** A complete record with four or more columns and a numeric colour code becomes the
      next person, with the next id, and empties the buffer. */
  lemma StepAppends(st: LoadState, line: string)
    requires MatchesRecordEnd(st.buffer + Trim(line))
    requires |Split(st.buffer + Trim(line), ',')| >= 4
    requires RecordOf(Split(st.buffer + Trim(line), ','), st.nextId).Success?
    ensures Step(st, line).Success?
    ensures Step(st, line).value.buffer == ""
    ensures Step(st, line).value.persons == st.persons + [RecordOf(Split(st.buffer + Trim(line), ','), st.nextId).value]
    ensures Step(st, line).value.nextId == st.nextId + 1
  {
  }

  /** Running from line i is one step on line i, then running from line i + 1. */
  lemma RunFrom(st: LoadState, lines: seq<string>, i: nat)
    requires i < |lines|
    ensures Run(st, lines[i..]) == match Step(st, lines[i])
      case Failure(e) => Failure(e)
      case Success(next) => Run(next, lines[i + 1..])
  {
  }

  /** The persons a file with these lines yields; a record left unfinished at the end of
      the file is dropped. */
  function Load(lines: seq<string>): (r: Result<seq<PersonRecord>, NumberFormatException>)
    ensures r.Failure? <==> Run(Start, lines).Failure?
    ensures r.Success? ==> |r.value| <= |lines|
    ensures r.Success? ==> forall i :: 0 <= i < |r.value| ==> r.value[i].id == i + 1
    ensures r.Success? ==> forall i :: 0 <= i < |r.value| ==> r.value[i].color in ColorLabels
  {
    RunKeepsWellFormed(Start, lines);
    match Run(Start, lines)
    case Failure(e) => Failure(e)
    case Success(st) => Success(st.persons)
  }

  /** What one line does to the buffer, the persons and the id counter. */
  lemma StepOutcome(st: LoadState, line: string)
    ensures var buffer := st.buffer + Trim(line);
      match Step(st, line)
      case Failure(_) => RecordEndShape(buffer) && |Split(buffer, ',')| >= 4
      case Success(next) =>
        && next.buffer == (if RecordEndShape(buffer) then "" else buffer)
        && (if RecordEndShape(buffer) && |Split(buffer, ',')| >= 4
            then |next.persons| == |st.persons| + 1 && next.persons[..|st.persons|] == st.persons
                 && next.persons[|st.persons|].id == st.nextId && next.nextId == st.nextId + 1
            else next.persons == st.persons && next.nextId == st.nextId)
  {
    MatchesRecordEndCorrect(st.buffer + Trim(line));
  }

  /** Ids run 1, 2, 3, ... in list order and every colour is one of the eight labels. */
  ghost predicate WellFormed(st: LoadState) {
    && st.nextId == |st.persons| + 1
    && (forall i :: 0 <= i < |st.persons| ==> st.persons[i].id == i + 1)
    && (forall i :: 0 <= i < |st.persons| ==> st.persons[i].color in ColorLabels)
  }

  /** Appending a person with the next id and a known colour keeps the numbering. */
  lemma AppendKeepsWellFormed(st: LoadState, p: PersonRecord, buffer: string)
    requires WellFormed(st) && p.id == st.nextId && p.color in ColorLabels
    ensures WellFormed(LoadState(buffer, st.persons + [p], st.nextId + 1))
  {
  }

  lemma StepKeepsWellFormed(st: LoadState, line: string)
    requires WellFormed(st)
    ensures Step(st, line).Success? ==> WellFormed(Step(st, line).value)
  {
    var buffer := st.buffer + Trim(line);
    if !MatchesRecordEnd(buffer) {
      StepWaits(st, line);
    } else if |Split(buffer, ',')| < 4 {
      StepDiscards(st, line);
    } else if RecordOf(Split(buffer, ','), st.nextId).Failure? {
      StepFails(st, line);
    } else {
      StepAppends(st, line);
      var p := RecordOf(Split(buffer, ','), st.nextId).value;
      AppendKeepsWellFormed(st, p, "");
      assert Step(st, line).value == LoadState("", st.persons + [p], st.nextId + 1);
    }
  }

  lemma {:induction false} RunKeepsWellFormed(st: LoadState, lines: seq<string>)
    requires WellFormed(st)
    ensures Run(st, lines).Success? ==> WellFormed(Run(st, lines).value)
    decreases |lines|
  {
    if lines != [] {
      match Step(st, lines[0])
      case Failure(_) =>
      case Success(next) =>
        StepKeepsWellFormed(st, lines[0]);
        RunKeepsWellFormed(next, lines[1..]);
    }
  }
}
