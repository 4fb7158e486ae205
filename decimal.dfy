/** Decimal text for integers: Python's `str(int)`, `str.isdigit`, `int(str)`. */
module Decimal {
  import opened Outcomes

  predicate IsDigit(c: char) { '0' <= c <= '9' }

  predicate AllDigits(s: string) { forall i | 0 <= i < |s| :: IsDigit(s[i]) }

  /** Python's `str.isdigit()` on an ASCII string: non-empty and every character a digit. */
  predicate IsDigitString(s: string) { |s| > 0 && AllDigits(s) }

  function DigitChar(d: nat): (c: char)
    requires d < 10
    ensures IsDigit(c) && c as int - '0' as int == d
  {
    ['0', '1', '2', '3', '4', '5', '6', '7', '8', '9'][d]
  }

  function DigitValue(c: char): (d: nat)
    requires IsDigit(c)
    ensures d < 10
  {
    c as int - '0' as int
  }

  /** `str(n)` for a natural number: its shortest decimal text. */
  function NatToString(n: nat): (r: string)
    ensures IsDigitString(r)
    ensures n == 0 <==> r == "0"
    decreases n
  {
    if n < 10 then [DigitChar(n)] else NatToString(n / 10) + [DigitChar(n % 10)]
  }

  /** `str(i)` for any integer: a '-' before the digits when negative. */
  function IntToString(i: int): string
  {
    if i < 0 then "-" + NatToString(-i) else NatToString(i)
  }

  /** The number a string of digits denotes, leading zeros allowed. */
  function ValueOf(s: string): nat
    requires AllDigits(s)
    decreases |s|
  {
    if s == [] then 0 else ValueOf(s[..|s| - 1]) * 10 + DigitValue(s[|s| - 1])
  }

  /**
   * Python's `int(s)` on a string: an optional '+' or '-' followed by one or
   * more digits; anything else is a ValueError.
   */
  function ParseInt(s: string): Option<int>
  {
    if |s| > 0 && (s[0] == '-' || s[0] == '+') then
      if IsDigitString(s[1..]) then
        Some(if s[0] == '-' then -(ValueOf(s[1..]) as int) else ValueOf(s[1..]))
      else None
    else if IsDigitString(s) then Some(ValueOf(s))
    else None
  }

  /** Length of the longest run of digits at the start of `s`. */
  function DigitRun(s: string): (k: nat)
    ensures k <= |s| && AllDigits(s[..k])
    ensures k < |s| ==> !IsDigit(s[k])
  {
    if s == [] || !IsDigit(s[0]) then 0
    else
      var k := 1 + DigitRun(s[1..]);
      assert s[..k] == [s[0]] + s[1..][..k - 1];
      k
  }

  /** Reads a natural number from the front of `s`, returning it and the text after it. */
  function ReadNat(s: string): Option<(nat, string)>
  {
    var k := DigitRun(s);
    if k == 0 then None else Some((ValueOf(s[..k]), s[k..]))
  }

  /** Reads an integer (an optional '-' then digits) from the front of `s`. */
  function ReadInt(s: string): Option<(int, string)>
  {
    if |s| > 0 && s[0] == '-' then
      match ReadNat(s[1..])
      case None => None
      case Some((n, t)) => Some((-(n as int), t))
    else ReadNat(s)
  }

  lemma {:induction false} ValueOfNatToString(n: nat)
    ensures ValueOf(NatToString(n)) == n
    decreases n
  {
    if n >= 10 {
      var s := NatToString(n / 10) + [DigitChar(n % 10)];
      assert s[..|s| - 1] == NatToString(n / 10);
      ValueOfNatToString(n / 10);
    }
  }

  /** `int(str(i)) == i` for every integer. */
  lemma IntRoundTrip(i: int)
    ensures ParseInt(IntToString(i)) == Some(i)
  {
    var d := NatToString(if i < 0 then -i else i);
    ValueOfNatToString(if i < 0 then -i else i);
    if i < 0 {
      NegativeParses(d);
    } else {
      DigitStringParses(d);
    }
  }

  /** `str(n)` is already digits only, so a `ParseInt` of it is the unsigned reading. */
  lemma DigitStringParses(s: string)
    requires IsDigitString(s)
    ensures ParseInt(s) == Some(ValueOf(s) as int)
  {
    assert IsDigit(s[0]);
  }

  lemma NegativeParses(d: string)
    requires IsDigitString(d)
    ensures ParseInt("-" + d) == Some(-(ValueOf(d) as int))
  {
    var s := "-" + d;
    assert s[0] == '-';
    assert s[1..] == d;
  }

  lemma {:induction false} DigitRunOf(d: string, t: string)
    requires AllDigits(d)
    requires t == [] || !IsDigit(t[0])
    ensures DigitRun(d + t) == |d|
    decreases |d|
  {
    if d == [] {
      assert d + t == t;
    } else {
      assert (d + t)[1..] == d[1..] + t;
      DigitRunOf(d[1..], t);
    }
  }

  /** Reading a number back from its text leaves exactly what followed it. */
  lemma ReadNatOf(n: nat, t: string)
    requires t == [] || !IsDigit(t[0])
    ensures ReadNat(NatToString(n) + t) == Some((n, t))
  {
    var d := NatToString(n);
    DigitRunOf(d, t);
    assert (d + t)[..|d|] == d;
    assert (d + t)[|d|..] == t;
    ValueOfNatToString(n);
  }

  lemma ReadIntOf(i: int, t: string)
    requires t == [] || !IsDigit(t[0])
    ensures ReadInt(IntToString(i) + t) == Some((i, t))
  {
    if i < 0 {
      ReadNegativeOf(i, t);
    } else {
      ReadNonNegativeOf(i, t);
    }
  }

  lemma ReadNegativeOf(i: int, t: string)
    requires i < 0
    requires t == [] || !IsDigit(t[0])
    ensures ReadInt(IntToString(i) + t) == Some((i, t))
  {
    var n: nat := -i;
    assert IntToString(i) == "-" + NatToString(n);
    ReadSignedDigits(n, t);
  }

  lemma ReadSignedDigits(n: nat, t: string)
    requires t == [] || !IsDigit(t[0])
    ensures ReadInt("-" + NatToString(n) + t) == Some((-(n as int), t))
  {
    var d := NatToString(n);
    assert "-" + d + t == "-" + (d + t);
    ReadNatOf(n, t);
    ReadNegative(d + t, n, t);
  }

  lemma ReadNonNegativeOf(i: int, t: string)
    requires i >= 0
    requires t == [] || !IsDigit(t[0])
    ensures ReadInt(IntToString(i) + t) == Some((i, t))
  {
    ReadNatOf(i, t);
    ReadUnsigned(NatToString(i), t);
  }

  lemma ReadNegative(s: string, n: nat, t: string)
    requires ReadNat(s) == Some((n, t))
    ensures ReadInt("-" + s) == Some((-(n as int), t))
  {
    assert ("-" + s)[1..] == s;
  }

  lemma ReadUnsigned(d: string, t: string)
    requires IsDigitString(d)
    ensures ReadInt(d + t) == ReadNat(d + t)
  {
    assert (d + t)[0] == d[0];
    assert IsDigit(d[0]);
  }
}
