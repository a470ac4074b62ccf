/** The pieces of the C++ standard library string API the core relies on:
    `std::string::find`, `std::stoi` and the decimal rendering `fmt` uses for
    an `int`.
 */
module Strings {
  import opened Results

  /** `m` occurs in `s` starting at index `p`. */
  predicate OccursAt(s: string, m: string, p: nat) {
    p + |m| <= |s| && s[p..p + |m|] == m
  }

  predicate StartsWith(s: string, prefix: string) {
    OccursAt(s, prefix, 0)
  }

  lemma PrefixOfJoin(a: string, b: string)
    ensures StartsWith(a + b, a)
  {
    assert (a + b)[..|a|] == a;
  }

  /** An occurrence in a suffix is an occurrence in the whole string,
      shifted by the suffix's offset. */
  lemma OccursInSuffix(s: string, m: string, from: nat, q: nat)
    requires from <= |s|
    ensures OccursAt(s[from..], m, q) <==> OccursAt(s, m, from + q)
  {
    if from + q + |m| <= |s| {
      assert s[from..][q..q + |m|] == s[from + q..from + q + |m|];
    }
  }

  /** `s.find(m, from)`: the first occurrence of `m` at or after `from`, or
      `None` for `std::string::npos`. */
  function Find(s: string, m: string, from: nat): (r: Option<nat>)
    ensures r.Some? ==> from <= r.value && OccursAt(s, m, r.value)
    ensures r.Some? ==> forall q :: from <= q < r.value ==> !OccursAt(s, m, q)
    ensures r.None? ==> forall q :: from <= q ==> !OccursAt(s, m, q)
    decreases |s| - from
  {
    if from + |m| > |s| then None
    else if OccursAt(s, m, from) then Some(from)
    else Find(s, m, from + 1)
  }

  // ---------------------------------------------------------------------
  // Decimal integers

  const StoiError := "stoi"
  const IntMin := -0x8000_0000
  const IntMax := 0x7FFF_FFFF

  predicate IsDigit(c: char) {
    '0' <= c <= '9'
  }

  /** The characters `isspace` accepts in the C locale. */
  predicate IsSpace(c: char) {
    c == ' ' || c == '\t' || c == '\n' || c == '\r' || c == '\U{000B}' || c == '\U{000C}'
  }

  predicate AllDigits(s: string) {
    forall i :: 0 <= i < |s| ==> IsDigit(s[i])
  }

  /** Length of the longest prefix of `s` made of whitespace. */
  function LeadingSpaces(s: string): (n: nat)
    ensures n <= |s|
    ensures forall i :: 0 <= i < n ==> IsSpace(s[i])
    ensures n < |s| ==> !IsSpace(s[n])
  {
    if s != [] && IsSpace(s[0]) then 1 + LeadingSpaces(s[1..]) else 0
  }

  /** Length of the longest prefix of `s` made of decimal digits. */
  function LeadingDigits(s: string): (n: nat)
    ensures n <= |s|
    ensures AllDigits(s[..n])
    ensures n < |s| ==> !IsDigit(s[n])
  {
    if s != [] && IsDigit(s[0]) then
      var k := LeadingDigits(s[1..]);
      assert s[..1 + k] == [s[0]] + s[1..][..k];
      1 + k
    else 0
  }

  /** The value of a string of decimal digits, most significant first. */
  function DigitsValue(s: string): nat
    requires AllDigits(s)
  {
    if s == [] then 0
    else DigitsValue(s[..|s| - 1]) * 10 + (s[|s| - 1] - '0') as nat
  }

  /** `std::stoi(s)`: skip leading whitespace, read an optional sign and then
      the longest run of digits; no digits at all, or a value outside `int`,
      throws. Whatever follows the digits is ignored. */
  function Stoi(s: string): (r: Result<int>)
    ensures r.Ok? ==> IntMin <= r.value <= IntMax
    ensures r.Err? ==> r.error == StoiError
    ensures (forall i :: 0 <= i < |s| ==> !IsDigit(s[i])) ==> r.Err?
    ensures s != [] && AllDigits(s) && DigitsValue(s) <= IntMax ==> r == Ok(DigitsValue(s))
  {
    assert s != [] && AllDigits(s) ==> LeadingSpaces(s) == 0 && LeadingDigits(s) == |s| by {
      if s != [] && AllDigits(s) {
        assert !IsSpace(s[0]);
      }
    }
    assert s[..|s|] == s;
    var rest := s[LeadingSpaces(s)..];
    var signed := rest != [] && (rest[0] == '-' || rest[0] == '+');
    var body := if signed then rest[1..] else rest;
    var n := LeadingDigits(body);
    if n == 0 then Err(StoiError)
    else
      var magnitude := DigitsValue(body[..n]);
      var v: int := if signed && rest[0] == '-' then -(magnitude as int) else magnitude;
      if IntMin <= v <= IntMax then Ok(v) else Err(StoiError)
  }

  function NatToString(n: nat): (s: string)
    ensures s != [] && AllDigits(s)
  {
    var d := ['0' + (n % 10) as char];
    if n < 10 then d else NatToString(n / 10) + d
  }

  /** The decimal rendering of an `int`, with a leading `-` when negative. */
  function IntToString(n: int): string {
    if n < 0 then "-" + NatToString(-n) else NatToString(n)
  }

  lemma {:induction false} DigitsValueOfNatToString(n: nat)
    ensures DigitsValue(NatToString(n)) == n
  {
    var s := NatToString(n);
    if n >= 10 {
      DigitsValueOfNatToString(n / 10);
      assert s[..|s| - 1] == NatToString(n / 10);
    }
  }

  /** Reading back a rendered `int` gives the same `int`: the version number
      an error message names is the one `stoi` parsed. */
  lemma StoiOfIntToString(n: int)
    requires IntMin <= n <= IntMax
    ensures Stoi(IntToString(n)) == Ok(n)
  {
    var m := if n < 0 then -n else n;
    var digits := NatToString(m);
    DigitsValueOfNatToString(m);
    var s := IntToString(n);
    assert !IsSpace(s[0]);
    assert LeadingSpaces(s) == 0;
    var body := if n < 0 then s[1..] else s;
    assert body == digits;
    assert LeadingDigits(body) == |digits|;
    assert body[..|digits|] == digits;
  }
}
