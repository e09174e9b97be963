/** The parts of java.lang.String and java.util.regex that the CSV loader relies on:
    String.trim(), String.split(",") (trailing empty strings dropped),
    String.split("\\s+", 2), the regex classes \s, \d and '.', and Integer.parseInt. */
module JavaText {
  import opened Wrappers

  // ---------------------------------------------------------------------------
  // Character classes

  /** String.trim() strips every character whose code is at most U+0020. */
  predicate IsTrimmable(c: char) { c <= ' ' }

  /** The regex class \s without UNICODE_CHARACTER_CLASS: [ \t\n\x0B\f\r]. */
  predicate IsSpace(c: char) {
    c == ' ' || c == '\t' || c == '\n' || c == '\U{000B}' || c == '\U{000C}' || c == '\r'
  }

  /** The regex class \d without UNICODE_CHARACTER_CLASS: [0-9]. */
  predicate IsDigit(c: char) { '0' <= c <= '9' }

  /** The characters the regex '.' does not match (no DOTALL flag). */
  predicate IsLineTerminator(c: char) {
    c == '\n' || c == '\r' || c == '\U{0085}' || c == '\U{2028}' || c == '\U{2029}'
  }

  predicate AllTrimmable(s: string) { forall i :: 0 <= i < |s| ==> IsTrimmable(s[i]) }
  predicate AllSpace(s: string) { forall i :: 0 <= i < |s| ==> IsSpace(s[i]) }
  predicate NoSpace(s: string) { forall i :: 0 <= i < |s| ==> !IsSpace(s[i]) }
  predicate AllDigits(s: string) { forall i :: 0 <= i < |s| ==> IsDigit(s[i]) }
  predicate NoLineTerminator(s: string) { forall i :: 0 <= i < |s| ==> !IsLineTerminator(s[i]) }

  // ---------------------------------------------------------------------------
  // String.trim()

  /** Length of the longest prefix of s that trim() strips. */
  function TrimStart(s: string): (n: nat)
    ensures n <= |s| && AllTrimmable(s[..n])
    ensures n < |s| ==> !IsTrimmable(s[n])
  {
    if s == [] || !IsTrimmable(s[0]) then 0
    else
      var m := TrimStart(s[1..]);
      assert s[..1 + m] == [s[0]] + s[1..][..m];
      1 + m
  }

  /** End of the text trim() keeps, scanning back from the end but never below lo. */
  function TrimEnd(s: string, lo: nat): (n: nat)
    requires lo <= |s|
    ensures lo <= n <= |s| && AllTrimmable(s[n..])
    ensures lo < n ==> !IsTrimmable(s[n - 1])
    decreases |s|
  {
    if |s| == lo || !IsTrimmable(s[|s| - 1]) then |s|
    else
      var n := TrimEnd(s[..|s| - 1], lo);
      assert s[n..] == s[..|s| - 1][n..] + [s[|s| - 1]];
      n
  }

  /** r is what is left of s once a trimmable prefix and a trimmable suffix are cut off. */
  ghost predicate IsTrimOf(s: string, r: string) {
    exists i :: 0 <= i <= |s| - |r| && s[i..i + |r|] == r && AllTrimmable(s[..i]) && AllTrimmable(s[i + |r|..])
  }

  /** String.trim(). */
  function Trim(s: string): (r: string)
    ensures IsTrimOf(s, r)
    ensures r == [] || (!IsTrimmable(r[0]) && !IsTrimmable(r[|r| - 1]))
  {
    var a := TrimStart(s);
    var b := TrimEnd(s, a);
    assert s[a..a + |s[a..b]|] == s[a..b];
    s[a..b]
  }

  /** Trimming twice is trimming once. */
  lemma TrimIdempotent(s: string)
    ensures Trim(Trim(s)) == Trim(s)
  {
  }

  // ---------------------------------------------------------------------------
  // String.split(",")

  /** Index of the first c in s, or |s| when s holds none. */
  function IndexOf(s: string, c: char): (i: nat)
    ensures i <= |s| && c !in s[..i]
    ensures i < |s| ==> s[i] == c
  {
    if s == [] then 0
    else if s[0] == c then 0
    else
      var m := IndexOf(s[1..], c);
      assert s[..1 + m] == [s[0]] + s[1..][..m];
      1 + m
  }

  /** The pieces joined back with the separator c in between. */
  function Join(ps: seq<string>, c: char): string
  {
    if ps == [] then ""
    else if |ps| == 1 then ps[0]
    else ps[0] + [c] + Join(ps[1..], c)
  }

  /** Every stretch of s between two separators c, empty stretches included. */
  function Pieces(s: string, c: char): (ps: seq<string>)
    ensures |ps| >= 1
    ensures forall k :: 0 <= k < |ps| ==> c !in ps[k]
    ensures Join(ps, c) == s
    decreases |s|
  {
    var i := IndexOf(s, c);
    if i == |s| then
      assert s[..i] == s;
      [s]
    else
      var rest := Pieces(s[i + 1..], c);
      assert s == s[..i] + [c] + s[i + 1..];
      assert ([s[..i]] + rest)[1..] == rest;
      [s[..i]] + rest
  }

  /** The first separator is the one that ends a separator-free prefix. */
  lemma IndexOfAfter(p: string, rest: string, c: char)
    requires c !in p
    ensures IndexOf(p + [c] + rest, c) == |p|
  {
    var s := p + [c] + rest;
    var i := IndexOf(s, c);
    forall k | 0 <= k < i ensures s[k] != c {
      assert s[k] == s[..i][k];
    }
    assert s[|p|] == c;
    assert forall k :: 0 <= k < |p| ==> s[k] == p[k];
  }

  /** Splitting a join gives the pieces back, as long as no piece holds the separator. */
  lemma {:induction false} PiecesOfJoin(ps: seq<string>, c: char)
    requires |ps| >= 1
    requires forall k :: 0 <= k < |ps| ==> c !in ps[k]
    ensures Pieces(Join(ps, c), c) == ps
    decreases |ps|
  {
    if |ps| == 1 {
      var s := ps[0];
      assert forall k :: 0 <= k < |s| ==> s[k] in ps[0];
    } else {
      var p, tail := ps[0], Join(ps[1..], c);
      var s := p + [c] + tail;
      assert Join(ps, c) == s;
      IndexOfAfter(p, tail, c);
      assert s[..|p|] == p && s[|p| + 1..] == tail;
      PiecesOfJoin(ps[1..], c);
      assert Pieces(s, c) == [p] + Pieces(tail, c);
      assert ps == [p] + ps[1..];
    }
  }

  /** The pieces without the run of empty strings at the end. */
  function DropTrailingEmpty(ps: seq<string>): (r: seq<string>)
    ensures |r| <= |ps| && r == ps[..|r|]
    ensures r == [] || r[|r| - 1] != []
    ensures forall k :: |r| <= k < |ps| ==> ps[k] == []
  {
    if ps == [] || ps[|ps| - 1] != [] then ps
    else DropTrailingEmpty(ps[..|ps| - 1])
  }

  /** String.split(String.valueOf(c)) for a separator that is not a regex metacharacter:
      a string without the separator comes back whole (even the empty string);
      otherwise the pieces between separators, trailing empty pieces dropped. */
  function Split(s: string, c: char): (r: seq<string>)
    ensures forall k :: 0 <= k < |r| ==> c !in r[k]
    ensures c !in s ==> r == [s]
    ensures c in s ==> |r| <= |Pieces(s, c)| && r == Pieces(s, c)[..|r|] && (r == [] || r[|r| - 1] != [])
    ensures c in s ==> forall k :: |r| <= k < |Pieces(s, c)| ==> Pieces(s, c)[k] == []
  {
    if c !in s then [s] else DropTrailingEmpty(Pieces(s, c))
  }

  // ---------------------------------------------------------------------------
  // String.split("\\s+", 2)

  /** Index of the first \s character of s, or |s|. */
  function FirstSpace(s: string): (i: nat)
    ensures i <= |s| && NoSpace(s[..i])
    ensures i < |s| ==> IsSpace(s[i])
  {
    if s == [] || IsSpace(s[0]) then 0
    else
      var m := FirstSpace(s[1..]);
      assert s[..1 + m] == [s[0]] + s[1..][..m];
      1 + m
  }

  /** Length of the run of \s characters that starts s. */
  function SpaceRunLength(s: string): (n: nat)
    ensures n <= |s| && AllSpace(s[..n])
    ensures n < |s| ==> !IsSpace(s[n])
  {
    if s == [] || !IsSpace(s[0]) then 0
    else
      var m := SpaceRunLength(s[1..]);
      assert s[..1 + m] == [s[0]] + s[1..][..m];
      1 + m
  }

  /** Length of the run of \d characters that starts s. */
  function DigitRunLength(s: string): (n: nat)
    ensures n <= |s| && AllDigits(s[..n])
    ensures n < |s| ==> !IsDigit(s[n])
  {
    if s == [] || !IsDigit(s[0]) then 0
    else
      var m := DigitRunLength(s[1..]);
      assert s[..1 + m] == [s[0]] + s[1..][..m];
      1 + m
  }

  /** s is a, then a non-empty run of \s characters, then b. */
  ghost predicate SeparatedBySpace(s: string, a: string, b: string) {
    exists sep :: |sep| > 0 && AllSpace(sep) && s == a + sep + b
  }

  /** s.split("\\s+", 2): the whole of s when it holds no \s character; otherwise the text
      before its first \s run and everything after that run (empty pieces kept). */
  function SplitAtFirstSpaceRun(s: string): (r: seq<string>)
    ensures 1 <= |r| <= 2
    ensures |r| == 1 <==> NoSpace(s)
    ensures |r| == 1 ==> r[0] == s
    ensures |r| == 2 ==> NoSpace(r[0]) && (r[1] == [] || !IsSpace(r[1][0])) && SeparatedBySpace(s, r[0], r[1])
  {
    var i := FirstSpace(s);
    if i == |s| then
      assert s[..i] == s;
      [s]
    else
      var n := SpaceRunLength(s[i..]);
      assert n > 0;
      var sep := s[i..i + n];
      assert sep == s[i..][..n];
      assert s == s[..i] + sep + s[i + n..];
      assert s[i + n..] == s[i..][n..];
      [s[..i], s[i + n..]]
  }

  // ---------------------------------------------------------------------------
  // Integer.parseInt

  const IntMin: int := -0x8000_0000
  const IntMax: int := 0x7fff_ffff

  /** java.lang.NumberFormatException, carrying the text that did not parse. */
  datatype NumberFormatException = NumberFormatException(input: string)

  function DigitValue(c: char): nat
    requires IsDigit(c)
  {
    (c as int) - ('0' as int)
  }

  /** The value of a string of decimal digits, most significant first. */
  function DigitsValue(s: string): nat
    requires AllDigits(s)
    decreases |s|
  {
    if s == [] then 0 else 10 * DigitsValue(s[..|s| - 1]) + DigitValue(s[|s| - 1])
  }

  /** An optional '+' or '-' followed by at least one digit. */
  predicate IsSignedDigits(s: string) {
    |s| > 0 &&
    if s[0] == '+' || s[0] == '-' then |s| > 1 && AllDigits(s[1..]) else AllDigits(s)
  }

  function SignedValue(s: string): int
    requires IsSignedDigits(s)
  {
    if s[0] == '-' then -(DigitsValue(s[1..]) as int)
    else if s[0] == '+' then DigitsValue(s[1..])
    else DigitsValue(s)
  }

  /** Integer.parseInt(s): fails on anything but a signed digit string and on values
      outside the 32-bit range. */
  function ParseInt(s: string): (r: Result<int, NumberFormatException>)
    ensures r.Success? <==> IsSignedDigits(s) && IntMin <= SignedValue(s) <= IntMax
    ensures r.Success? ==> r.value == SignedValue(s) && IntMin <= r.value <= IntMax
    ensures r.Failure? ==> r.error == NumberFormatException(s)
  {
    if IsSignedDigits(s) && IntMin <= SignedValue(s) <= IntMax then Success(SignedValue(s))
    else Failure(NumberFormatException(s))
  }

  /** The shortest decimal notation of n. */
  function Decimal(n: nat): (s: string)
    ensures |s| > 0 && AllDigits(s) && DigitsValue(s) == n
  {
    var last := (('0' as int) + n % 10) as char;
    if n < 10 then
      [last]
    else
      var front := Decimal(n / 10);
      assert (front + [last])[..|front + [last]| - 1] == front;
      front + [last]
  }

  /** Integer.toString(n): a minus sign in front of negative values. */
  function IntToString(n: int): string
  {
    if n < 0 then "-" + Decimal(-n) else Decimal(n)
  }

  /** parseInt reads back every 32-bit value from its decimal notation, and rejects the
      notation of every value outside that range. */
  lemma ParseIntOfIntToString(n: int)
    ensures ParseInt(IntToString(n)).Success? <==> IntMin <= n <= IntMax
    ensures IntMin <= n <= IntMax ==> ParseInt(IntToString(n)) == Success(n)
  {
  }
}
