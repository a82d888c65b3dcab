// Decimal rendering and parsing of integers.
module Strconv {
  import opened Common

  const MIN_INT64: int := -0x8000_0000_0000_0000
  const MAX_INT64: int := 0x7fff_ffff_ffff_ffff

  function DigitChar(d: nat): char
    requires d < 10
  {
    '0' + (d as char)
  }

  predicate IsDigit(c: char) {
    '0' <= c <= '9'
  }

  function NatToString(n: nat): (s: string)
    ensures s != [] && forall c | c in s :: IsDigit(c)
  {
    if n < 10 then [DigitChar(n)] else NatToString(n / 10) + [DigitChar(n % 10)]
  }

  // What fmt prints for an integer.
  function Itoa(n: int): string {
    if n < 0 then "-" + NatToString(-n) else NatToString(n)
  }

  function DigitsValue(s: string): nat
    requires forall c | c in s :: IsDigit(c)
  {
    if s == [] then 0
    else
      assert IsDigit(s[|s| - 1]);
      10 * DigitsValue(s[..|s| - 1]) + (s[|s| - 1] as int - '0' as int)
  }

  // An optional sign, then digits only, then a value that fits 64 bits.
  function Atoi(s: string): Option<int> {
    var digits := if s != [] && (s[0] == '-' || s[0] == '+') then s[1..] else s;
    if digits == [] || exists c | c in digits :: !IsDigit(c) then None
    else
      var v: int := if s[0] == '-' then -(DigitsValue(digits) as int) else DigitsValue(digits);
      if MIN_INT64 <= v <= MAX_INT64 then Some(v) else None
  }

  lemma {:induction false} DigitsRoundTrip(n: nat)
    ensures DigitsValue(NatToString(n)) == n
  {
    if n >= 10 {
      DigitsRoundTrip(n / 10);
      assert NatToString(n)[..|NatToString(n)| - 1] == NatToString(n / 10);
    }
  }

  lemma AtoiItoa(n: int)
    requires MIN_INT64 <= n <= MAX_INT64
    ensures Atoi(Itoa(n)) == Some(n)
  {
    DigitsRoundTrip(if n < 0 then -n else n);
    if n < 0 {
      assert Itoa(n)[1..] == NatToString(-n);
    } else {
      assert IsDigit(Itoa(n)[0]);
    }
  }

  function Zeros(k: nat): (s: string)
    ensures |s| == k && forall c | c in s :: c == '0'
  {
    seq(k, i => '0')
  }

  lemma LastDigit(d: string, n: nat)
    requires |d| == n + 1 && forall c | c in d :: IsDigit(c)
    ensures (forall c | c in d[..n] :: IsDigit(c)) && IsDigit(d[n])
    ensures DigitsValue(d) == 10 * DigitsValue(d[..n]) + (d[n] as int - '0' as int)
    ensures d == d[..n] + [d[n]] && d[n] == DigitChar(d[n] as int - '0' as int)
  {
  }

  lemma AppendDigit(v: nat, d: nat)
    requires d < 10
    ensures NatToString(10 * v + d) == if v == 0 then [DigitChar(d)] else NatToString(v) + [DigitChar(d)]
  {
    assert (10 * v + d) / 10 == v && (10 * v + d) % 10 == d;
  }

  // Digits are some zeros before the shortest rendering of their value.
  lemma {:induction false} DigitsForm(d: string) returns (k: nat)
    requires d != [] && forall c | c in d :: IsDigit(c)
    ensures d == Zeros(k) + NatToString(DigitsValue(d))
  {
    var n := |d| - 1;
    LastDigit(d, n);
    var digit := d[n] as int - '0' as int;
    AppendDigit(DigitsValue(d[..n]), digit);
    if n == 0 {
      k := 0;
      assert d[..0] == [];
      assert d == Zeros(0) + d;
    } else {
      k := DigitsForm(d[..n]);
      if DigitsValue(d[..n]) == 0 {
        assert NatToString(0) == "0";
        assert Zeros(k) + "0" == Zeros(k + 1);
        k := k + 1;
      } else {
        assert d == Zeros(k) + (NatToString(DigitsValue(d[..n])) + [d[n]]);
      }
    }
  }

  lemma {:induction false} ZerosValue(k: nat, s: string)
    requires forall c | c in s :: IsDigit(c)
    ensures forall c | c in Zeros(k) + s :: IsDigit(c)
    ensures DigitsValue(Zeros(k) + s) == DigitsValue(s)
    decreases k + |s|
  {
    var d := Zeros(k) + s;
    if s != [] {
      ZerosValue(k, s[..|s| - 1]);
      LastDigit(d, |d| - 1);
      assert d[..|d| - 1] == Zeros(k) + s[..|s| - 1];
    } else if k > 0 {
      ZerosValue(k - 1, s);
      LastDigit(d, |d| - 1);
      assert d[..|d| - 1] == Zeros(k - 1) + s;
    } else {
      assert d == s;
    }
  }

  // An optional sign, any number of zeros, and the number.
  ghost predicate Numeral(s: string, sign: string, k: nat, v: int) {
    && s == sign + (Zeros(k) + NatToString(if v < 0 then -v else v))
    && sign in {"", "+", "-"} && (v < 0 ==> sign == "-") && (v > 0 ==> sign != "-")
  }

  lemma AtoiUnsigned(digits: string)
    requires digits != [] && forall c | c in digits :: IsDigit(c)
    ensures Atoi(digits) == if DigitsValue(digits) <= MAX_INT64 then Some(DigitsValue(digits)) else None
  {
    assert IsDigit(digits[0]);
  }

  lemma AtoiSigned(sign: char, digits: string)
    requires sign in {'-', '+'} && digits != [] && forall c | c in digits :: IsDigit(c)
    ensures var v: int := if sign == '-' then -(DigitsValue(digits) as int) else DigitsValue(digits) as int;
            Atoi([sign] + digits) == if MIN_INT64 <= v <= MAX_INT64 then Some(v) else None
  {
    assert ([sign] + digits)[1..] == digits;
  }

  lemma NumeralDigits(s: string, sign: string, k: nat, v: int)
    requires Numeral(s, sign, k, v)
    ensures Atoi(s) == if MIN_INT64 <= v <= MAX_INT64 then Some(v) else None
  {
    var n := if v < 0 then -v else v;
    var digits := Zeros(k) + NatToString(n);
    ZerosValue(k, NatToString(n));
    DigitsRoundTrip(n);
    if sign == "" {
      assert s == digits;
      AtoiUnsigned(digits);
    } else {
      assert sign == [sign[0]] && s == [sign[0]] + digits;
      AtoiSigned(sign[0], digits);
    }
  }

  lemma UnsignedNumeral(digits: string) returns (k: nat)
    requires digits != [] && forall c | c in digits :: IsDigit(c)
    ensures Numeral(digits, "", k, DigitsValue(digits))
  {
    k := DigitsForm(digits);
    assert digits == "" + digits;
  }

  lemma SignedNumeral(sign: char, digits: string, v: int) returns (k: nat)
    requires sign in {'-', '+'} && digits != [] && forall c | c in digits :: IsDigit(c)
    requires v == if sign == '-' then -(DigitsValue(digits) as int) else DigitsValue(digits) as int
    ensures Numeral([sign] + digits, [sign], k, v)
  {
    k := DigitsForm(digits);
  }

  lemma AtoiNumeral(s: string) returns (sign: string, k: nat)
    requires Atoi(s).Some?
    ensures Numeral(s, sign, k, Atoi(s).value)
  {
    if s[0] == '-' || s[0] == '+' {
      AtoiSigned(s[0], s[1..]);
      assert s == [s[0]] + s[1..];
      k := SignedNumeral(s[0], s[1..], Atoi(s).value);
      sign := [s[0]];
    } else {
      k := UnsignedNumeral(s);
      sign := "";
    }
  }

  // Exactly the numerals of 64-bit numbers are read, as the number they show.
  lemma AtoiIff(s: string, v: int)
    ensures Atoi(s) == Some(v) <==> MIN_INT64 <= v <= MAX_INT64 && exists sign, k :: Numeral(s, sign, k, v)
  {
    if Atoi(s) == Some(v) {
      var sign, k := AtoiNumeral(s);
    }
    if exists sign, k :: Numeral(s, sign, k, v) {
      var sign, k :| Numeral(s, sign, k, v);
      NumeralDigits(s, sign, k, v);
    }
  }

  lemma ItoaInjective(m: int, n: int)
    ensures Itoa(m) == Itoa(n) <==> m == n
  {
    DigitsRoundTrip(if m < 0 then -m else m);
    DigitsRoundTrip(if n < 0 then -n else n);
    assert m >= 0 ==> IsDigit(Itoa(m)[0]);
    assert n >= 0 ==> IsDigit(Itoa(n)[0]);
    if m < 0 && n < 0 && Itoa(m) == Itoa(n) {
      assert Itoa(m)[1..] == NatToString(-m) && Itoa(n)[1..] == NatToString(-n);
    }
  }

  lemma ItoaChars(n: int, c: char)
    requires c in Itoa(n)
    ensures c == '-' || IsDigit(c)
  {
  }
}
