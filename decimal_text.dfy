/** Swift's string interpolation of an integer, `"\(n)"`: the shortest decimal
    numeral of `n`, with a leading `-` when `n` is negative. A numeral in that
    form (`IsCanonical`) that reads back (`ParseInt`) as `n` is exactly the
    rendering of `n`. */
module DecimalText {
  import opened Wrappers

  predicate IsDigit(c: char) {
    '0' <= c <= '9'
  }

  function DigitChar(d: nat): (c: char)
    requires d < 10
    ensures IsDigit(c)
    ensures c == '0' <==> d == 0
  {
    ('0' as int + d) as char
  }

  function DigitValue(c: char): (r: Option<nat>)
    ensures r.Some? <==> IsDigit(c)
    ensures r.Some? ==> r.value < 10 && DigitChar(r.value) == c
  {
    if IsDigit(c) then Some(c as int - '0' as int) else None
  }

  /** Digits only, and no leading zero unless the numeral is `0` itself. */
  predicate IsCanonicalNat(t: string) {
    && |t| > 0
    && (forall i :: 0 <= i < |t| ==> IsDigit(t[i]))
    && (t[0] == '0' ==> |t| == 1)
  }

  /** The form Swift prints an integer in: a canonical natural numeral, or a
      minus sign followed by one that is not `0`. */
  predicate IsCanonical(s: string) {
    if |s| > 0 && s[0] == '-' then IsCanonicalNat(s[1..]) && s[1] != '0'
    else IsCanonicalNat(s)
  }

  /** The decimal numeral of a natural number, most significant digit first. */
  function NatText(n: nat): string
    decreases n
  {
    if n < 10 then [DigitChar(n)] else NatText(n / 10) + [DigitChar(n % 10)]
  }

  /** Reads a non-empty string of digits as a natural number. */
  function ParseNat(s: string): Option<nat>
    decreases |s|
  {
    if |s| == 0 then None
    else
      match DigitValue(s[|s| - 1])
      case None => None
      case Some(d) =>
        if |s| == 1 then Some(d)
        else
          match ParseNat(s[..|s| - 1])
          case None => None
          case Some(m) => Some(m * 10 + d)
  }

  /** Reads an optional `-` followed by digits as an integer. */
  function ParseInt(s: string): Option<int> {
    if |s| > 0 && s[0] == '-' then
      match ParseNat(s[1..])
      case None => None
      case Some(m) => Some(-(m as int))
    else
      match ParseNat(s)
      case None => None
      case Some(m) => Some(m)
  }

  lemma {:induction false} NatTextCanonical(n: nat)
    ensures IsCanonicalNat(NatText(n))
    ensures NatText(n)[0] == '0' <==> n == 0
    decreases n
  {
    if n >= 10 {
      NatTextCanonical(n / 10);
      var s := NatText(n);
      assert s[..|s| - 1] == NatText(n / 10);
      assert forall i :: 0 <= i < |s| - 1 ==> s[i] == NatText(n / 10)[i];
    }
  }

  lemma {:induction false} ParseNatText(n: nat)
    ensures ParseNat(NatText(n)) == Some(n)
    decreases n
  {
    if n >= 10 {
      var s := NatText(n);
      assert s[..|s| - 1] == NatText(n / 10);
      assert s[|s| - 1] == DigitChar(n % 10);
      ParseNatText(n / 10);
    }
  }

  /** `"\(n)"` for an integer `n`: a canonical numeral that reads back as `n`. */
  function IntText(n: int): (r: string)
    ensures IsCanonical(r)
    ensures ParseInt(r) == Some(n)
  {
    if n < 0 then
      NatTextCanonical(-n);
      ParseNatText(-n);
      var s := "-" + NatText(-n);
      assert s[0] == '-' && s[1..] == NatText(-n);
      assert ParseInt(s) == Some(n);
      s
    else
      NatTextCanonical(n);
      ParseNatText(n);
      var s := NatText(n);
      assert s[0] != '-';
      assert ParseInt(s) == Some(n);
      s
  }

  /** A rendered integer is never empty and starts with a digit or a minus sign. */
  lemma IntTextLead(n: int)
    ensures |IntText(n)| > 0
    ensures IntText(n)[0] == '-' || IsDigit(IntText(n)[0])
  {
  }

  /** Reading a numeral whose first digit is not `0` gives a positive number. */
  lemma {:induction false} ParseNatPositive(t: string, m: nat)
    requires |t| > 0 && t[0] != '0' && ParseNat(t) == Some(m)
    ensures m >= 1
    decreases |t|
  {
    if |t| > 1 {
      var u := t[..|t| - 1];
      assert u[0] == t[0];
      ParseNatPositive(u, ParseNat(u).value);
    }
  }

  /** The only canonical natural numeral that reads as `m` is the rendering of `m`. */
  lemma {:induction false} CanonicalNatUnique(t: string, m: nat)
    requires IsCanonicalNat(t) && ParseNat(t) == Some(m)
    ensures t == NatText(m)
    decreases |t|
  {
    if |t| > 1 {
      var u := t[..|t| - 1];
      var k := ParseNat(u).value;
      var d := DigitValue(t[|t| - 1]).value;
      assert m == k * 10 + d;
      assert u[0] == t[0];
      assert IsCanonicalNat(u);
      CanonicalNatUnique(u, k);
      ParseNatPositive(u, k);
      assert m / 10 == k && m % 10 == d;
      assert t == u + [t[|t| - 1]];
    }
  }

  /** The only canonical numeral that reads as `n` is the rendering of `n`. */
  lemma CanonicalTextUnique(s: string, n: int)
    requires IsCanonical(s) && ParseInt(s) == Some(n)
    ensures s == IntText(n)
  {
    if |s| > 0 && s[0] == '-' {
      var m := ParseNat(s[1..]).value;
      CanonicalNatUnique(s[1..], m);
      NatTextCanonical(m);
      assert s == "-" + s[1..];
    } else {
      CanonicalNatUnique(s, ParseNat(s).value);
    }
  }

  /** Distinct integers are rendered as distinct strings. */
  lemma IntTextInjective(a: int, b: int)
    ensures IntText(a) == IntText(b) <==> a == b
  {
  }
}
