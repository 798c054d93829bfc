/** Decimal numbers as the agent prints and parses them. */
module Numerals {
  import opened Base

  predicate IsDigit(c: char) { '0' <= c <= '9' }

  function Decimal(n: nat): (s: string)
    ensures |s| > 0 && forall c :: c in s ==> IsDigit(c)
  {
    var last := [('0' as int + n % 10) as char];
    if n < 10 then last else Decimal(n / 10) + last
  }

  function Digits(s: string): nat
    requires forall c :: c in s ==> IsDigit(c)
  {
    if s == [] then 0
    else
      var last := s[|s| - 1];
      assert IsDigit(last);
      10 * Digits(s[..|s| - 1]) + (last as int - '0' as int)
  }

  /** Rust's `parse::<u32>`: an optional plus sign, then digits that fit. */
  function ParseU32(s: string): (r: Option<nat>)
    ensures r.Some? ==> r.value <= U32_MAX
  {
    var body := if s != [] && s[0] == '+' then s[1..] else s;
    if body == [] || exists c :: c in body && !IsDigit(c) then None
    else if Digits(body) > U32_MAX then None
    else Some(Digits(body))
  }

  lemma {:induction false} DigitsOfDecimal(n: nat)
    ensures Digits(Decimal(n)) == n
  {
    if n >= 10 {
      DigitsOfDecimal(n / 10);
      assert Decimal(n)[..|Decimal(n)| - 1] == Decimal(n / 10);
    }
  }

  lemma ParseInvertsPrinting(n: nat)
    ensures ParseU32(Decimal(n)) == if n <= U32_MAX then Some(n) else None
  {
    DigitsOfDecimal(n);
    assert IsDigit(Decimal(n)[0]);
  }

  /** The most significant digit comes first. */
  lemma DecimalByExample()
    ensures Decimal(120) == "120"
  {
    assert Decimal(12) == Decimal(1) + "2" == "12";
  }

  /** One plus sign may lead and is ignored; the largest number is 4294967295. */
  lemma ParseU32Means(s: string)
    requires forall c :: c in s ==> IsDigit(c)
    ensures ParseU32(s).Some? <==> s != "" && Digits(s) <= 4_294_967_295
    ensures ParseU32(['+'] + s) == ParseU32(s)
  {
    var plus := ['+'] + s;
    assert plus[0] == '+' && plus[1..] == s;
    if s != "" { assert s[0] in s; }
  }

  /** A sign or letter anywhere else is refused. */
  lemma ParseU32Refuses(s: string, c: char, t: string)
    requires !IsDigit(c) && (s == "" ==> c != '+')
    ensures ParseU32(s + [c] + t) == None
  {
    var all := s + [c] + t;
    assert all[|s|] == c;
    if all[0] == '+' { assert all[1..][|s| - 1] == c; } else { assert c in all; }
  }

  lemma DecimalInjective(m: nat, n: nat)
    requires Decimal(m) == Decimal(n)
    ensures m == n
  {
    DigitsOfDecimal(m);
    DigitsOfDecimal(n);
  }
}
