/** The parts of Go's `strconv` package the core relies on: `Atoi` on a 64-bit
    platform, `Itoa` (its inverse) and `ParseBool`. */
module Strconv {
  import opened Wrappers
  import opened Strings

  const MinInt64: int := -0x8000_0000_0000_0000
  const MaxInt64: int := 0x7FFF_FFFF_FFFF_FFFF

  predicate IsDigit(c: char) {
    '0' <= c <= '9'
  }

  predicate AllDigits(s: string) {
    forall i :: 0 <= i < |s| ==> IsDigit(s[i])
  }

  /** Some character of `s` is an ASCII digit. */
  function ContainsDigit(s: string): (b: bool)
    ensures b <==> exists i :: 0 <= i < |s| && IsDigit(s[i])
  {
    if s == [] then false
    else if IsDigit(s[0]) then true
    else
      assert forall i :: 0 < i < |s| ==> s[i] == s[1..][i - 1];
      ContainsDigit(s[1..])
  }

  /** The value of a string of decimal digits, most significant first. */
  function DigitsValue(s: string): (n: nat)
    requires AllDigits(s)
  {
    if s == [] then 0
    else DigitsValue(s[..|s| - 1]) * 10 + (s[|s| - 1] as int - '0' as int)
  }

  /** `strconv.Atoi`: an optional `+` or `-`, then one or more ASCII digits,
      whose value must lie in the 64-bit range of Go's `int`; anything else is
      an error (`None`). */
  function Atoi(s: string): (r: Option<int>)
    ensures r.Some? ==> MinInt64 <= r.value <= MaxInt64
  {
    if s == [] then None
    else
      var signed := s[0] == '+' || s[0] == '-';
      var digits := if signed then s[1..] else s;
      if digits == [] || !AllDigits(digits) then None
      else
        var d: int := DigitsValue(digits);
        var v := if s[0] == '-' then -d else d;
        if MinInt64 <= v <= MaxInt64 then Some(v) else None
  }

  /** The decimal digits of a natural number, without leading zeros. */
  function NatDigits(n: nat): (s: string)
    ensures s != [] && AllDigits(s) && DigitsValue(s) == n
    ensures s[0] != '0' || n == 0
  {
    if n < 10 then [('0' as int + n) as char]
    else
      var init := NatDigits(n / 10);
      var s := init + [('0' as int + n % 10) as char];
      assert s[..|s| - 1] == init;
      s
  }

  /** `strconv.Itoa`. */
  function Itoa(n: int): string {
    if n < 0 then "-" + NatDigits(-n) else NatDigits(n)
  }

  /** Every 64-bit integer survives a round trip through its decimal text. */
  lemma AtoiItoa(n: int)
    requires MinInt64 <= n <= MaxInt64
    ensures Atoi(Itoa(n)) == Some(n)
  {
    if n < 0 {
      var s := Itoa(n);
      assert s[1..] == NatDigits(-n);
    }
  }

  /** Whatever `Atoi` accepts contains a digit. */
  lemma AtoiHasDigit(s: string)
    requires Atoi(s).Some?
    ensures ContainsDigit(s)
  {
    if s[0] == '+' || s[0] == '-' {
      assert IsDigit(s[1..][0]) && s[1] == s[1..][0];
    } else {
      assert IsDigit(s[0]);
    }
  }

  /** Lower-casing never changes what `Atoi` makes of a string. */
  lemma AtoiIgnoresCase(s: string)
    ensures Atoi(ToLower(s)) == Atoi(s)
  {
    var t := ToLower(s);
    if Atoi(s).Some? || Atoi(t).Some? {
      var u := if Atoi(s).Some? then s else t;
      AtoiAcceptsSignsAndDigits(u);
      assert forall i :: 0 <= i < |s| ==> t[i] == LowerChar(s[i]);
      assert t == s;
    }
  }

  lemma AtoiAcceptsSignsAndDigits(s: string)
    requires Atoi(s).Some?
    ensures forall i :: 0 <= i < |s| ==> IsDigit(s[i]) || s[i] == '+' || s[i] == '-'
  {
    if s[0] == '+' || s[0] == '-' {
      assert forall i :: 1 <= i < |s| ==> s[i] == s[1..][i - 1];
    }
  }

  /** `strconv.ParseBool`: the six spellings of each truth value Go accepts. */
  function ParseBool(s: string): (r: Option<bool>)
    ensures r.Some? ==> s != []
  {
    if s in {"1", "t", "T", "true", "TRUE", "True"} then Some(true)
    else if s in {"0", "f", "F", "false", "FALSE", "False"} then Some(false)
    else None
  }

  /** After lower-casing, exactly "1", "t" and "true" read as true and "0",
      "f" and "false" as false. */
  lemma ParseBoolLowered(s: string)
    ensures ParseBool(ToLower(s)) == Some(true) <==> ToLower(s) in {"1", "t", "true"}
    ensures ParseBool(ToLower(s)) == Some(false) <==> ToLower(s) in {"0", "f", "false"}
  {
    var t := ToLower(s);
    assert forall i :: 0 <= i < |t| ==> !('A' <= t[i] <= 'Z');
    assert t != "T" && t != "TRUE" && t != "True" by {
      if |t| == 1 || |t| == 4 { assert !('A' <= t[0] <= 'Z'); }
    }
    assert t != "F" && t != "FALSE" && t != "False" by {
      if |t| == 1 || |t| == 5 { assert !('A' <= t[0] <= 'Z'); }
    }
  }
}
