/** Decimal numbers: the digit scanner of src/FacadeEndpoint.cpp and the "%u" it reads back. */
module Decimal {
  import opened Text

  const UINT_MAX: nat := 0xFFFF_FFFF

  newtype uint64 = x: int | 0 <= x < 0x1_0000_0000_0000_0000

  predicate IsDigit(c: char) { '0' <= c <= '9' }

  predicate AllDigits(s: string) { forall i :: 0 <= i < |s| ==> IsDigit(s[i]) }

  function DigitOf(c: char): (d: nat)
    requires IsDigit(c)
    ensures d < 10
  {
    (c - '0') as nat
  }

  function CharOf(d: nat): (c: char)
    requires d < 10
    ensures IsDigit(c) && DigitOf(c) == d
  {
    '0' + d as char
  }

  /** The number a run of digits denotes. */
  function Value(s: string): nat
    requires AllDigits(s)
  {
    if s == "" then 0 else Value(s[..|s| - 1]) * 10 + DigitOf(s[|s| - 1])
  }

  /** What "%u" prints. */
  function Dec(n: nat): (s: string)
    ensures s != "" && AllDigits(s)
  {
    if n < 10 then [CharOf(n)] else Dec(n / 10) + [CharOf(n % 10)]
  }

  lemma {:induction false} ValueOfDec(n: nat)
    ensures Value(Dec(n)) == n
  {
    var s := Dec(n);
    if n >= 10 {
      ValueOfDec(n / 10);
      assert s[..|s| - 1] == Dec(n / 10);
    } else {
      assert s[..|s| - 1] == "";
    }
  }

  /** No zero leads, but in "0" itself. */
  lemma {:induction false} DecHasNoLeadingZero(n: nat)
    ensures Dec(n)[0] == '0' ==> Dec(n) == "0"
  {
    if n >= 10 {
      DecHasNoLeadingZero(n / 10);
      ValueOfDec(n / 10);
      assert Dec(n)[0] == Dec(n / 10)[0];
    }
  }

  function Min(a: nat, b: nat): nat { if a <= b then a else b }

  /** None unless the whole text is digits; otherwise its value, saturated at 2^32-1. */
  function Scan(s: string): Option<nat> {
    if s == "" || !AllDigits(s) then None else Some(Min(Value(s), UINT_MAX))
  }

  /** The saturating accumulator loses nothing a range check below 2^32-1 could see. */
  lemma ScanDecides(s: string, lo: nat, hi: nat)
    requires hi < UINT_MAX
    ensures (Scan(s).Some? && lo <= Scan(s).value <= hi)
       <==> (s != "" && AllDigits(s) && lo <= Value(s) <= hi)
    ensures Scan(s).Some? && Scan(s).value <= hi ==> Scan(s).value == Value(s)
  {
  }

  lemma ScanOfDec(n: nat)
    requires n <= UINT_MAX
    ensures Scan(Dec(n)) == Some(n)
  {
    ValueOfDec(n);
  }

  /**
   The scanning loop.  The accumulator is a 64-bit integer, so the type itself
   obliges every intermediate value to fit.
   */
  method ScanUInt(s: string) returns (ok: bool, value: nat)
    ensures ok <==> Scan(s).Some?
    ensures ok ==> value == Scan(s).value
  {
    value := 0;
    if s == "" {
      return false, 0;
    }
    var acc: uint64 := 0;
    var p := 0;
    while p < |s|
      invariant 0 <= p <= |s|
      invariant AllDigits(s[..p])
      invariant acc as nat == Min(Value(s[..p]), UINT_MAX)
    {
      if !IsDigit(s[p]) {
        return false, 0;
      }
      assert s[..p + 1][..p] == s[..p];
      acc := acc * 10 + DigitOf(s[p]) as uint64;
      if acc > 0xFFFF_FFFF {
        acc := 0xFFFF_FFFF;
      }
      p := p + 1;
    }
    assert s[..p] == s;
    return true, acc as nat;
  }
}
