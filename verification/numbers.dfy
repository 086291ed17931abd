/** The part of JavaScript's `Number(string)` that query parameters reach,
    and the decimal rendering of integers (array indices, page numbers). */
module Numbers {
  import opened Results

  predicate IsDigit(c: char)
  {
    '0' <= c <= '9'
  }

  predicate AllDigits(s: string)
  {
    forall i :: 0 <= i < |s| ==> IsDigit(s[i])
  }

  function DigitValue(c: char): nat
    requires IsDigit(c)
  {
    c as int - '0' as int
  }

  function DigitChar(d: nat): (c: char)
    requires d < 10
    ensures IsDigit(c) && DigitValue(c) == d
  {
    ('0' as int + d) as char
  }

  /** The value of a string of decimal digits, most significant first. */
  function DigitsValue(s: string): nat
    requires AllDigits(s)
    decreases |s|
  {
    if s == [] then 0 else DigitsValue(s[..|s| - 1]) * 10 + DigitValue(s[|s| - 1])
  }

  /** An optional sign followed by at least one decimal digit. */
  predicate IsNumeral(s: string)
  {
    || (s != [] && AllDigits(s))
    || (|s| >= 2 && (s[0] == '+' || s[0] == '-') && AllDigits(s[1..]))
  }

  /** `Number(s)` for a string: the empty string is 0, a signed or unsigned
      decimal numeral is its value, anything else is NaN (`None`). */
  function ParseNumber(s: string): (r: Option<int>)
    ensures r.Some? <==> s == "" || IsNumeral(s)
    ensures AllDigits(s) ==> r == Some(DigitsValue(s))
    ensures |s| >= 2 && s[0] == '+' && AllDigits(s[1..]) ==> r == Some(DigitsValue(s[1..]))
    ensures |s| >= 2 && s[0] == '-' && AllDigits(s[1..]) ==> r == Some(-(DigitsValue(s[1..]) as int))
  {
    if s == "" then Some(0)
    else if AllDigits(s) then Some(DigitsValue(s))
    else if |s| >= 2 && s[0] == '+' && AllDigits(s[1..]) then Some(DigitsValue(s[1..]))
    else if |s| >= 2 && s[0] == '-' && AllDigits(s[1..]) then Some(-(DigitsValue(s[1..]) as int))
    else None
  }

  /** The decimal digits of a natural number, without leading zeros. */
  function ShowNat(n: nat): (s: string)
    ensures s != [] && AllDigits(s)
    ensures s[0] == '0' ==> n == 0
  {
    if n < 10 then [DigitChar(n)] else ShowNat(n / 10) + [DigitChar(n % 10)]
  }

  /** `String(n)` for an integer. */
  function Show(n: int): string
  {
    if n < 0 then "-" + ShowNat(-n) else ShowNat(n)
  }

  lemma {:induction false} ShowNatValue(n: nat)
    ensures DigitsValue(ShowNat(n)) == n
  {
    if n >= 10 {
      var s := ShowNat(n);
      assert s[..|s| - 1] == ShowNat(n / 10);
      ShowNatValue(n / 10);
    }
  }

  /** Reading back what `Show` writes gives the number. */
  lemma ParseShow(n: int)
    ensures ParseNumber(Show(n)) == Some(n)
  {
    if n < 0 {
      var s := Show(n);
      assert s[1..] == ShowNat(-n);
      ShowNatValue(-n);
      assert s[0] == '-' && !AllDigits(s);
    } else {
      assert Show(n) == ShowNat(n);
      assert AllDigits(Show(n));
      ShowNatValue(n);
    }
  }

  /** Distinct numbers render differently. */
  lemma ShowInjective(a: int, b: int)
    requires Show(a) == Show(b)
    ensures a == b
  {
    ParseShow(a);
    ParseShow(b);
  }

  /** `String` is injective on the integers. */
  lemma ShowInjectiveAll()
    ensures forall a: int, b: int :: Show(a) == Show(b) ==> a == b
  {
    forall a: int, b: int | Show(a) == Show(b)
      ensures a == b
    {
      ShowInjective(a, b);
    }
  }
}
