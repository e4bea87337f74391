/** Decimal notation as printed by %d, with its inverse. */
module Decimal {
  import opened Prelude

  predicate IsDigit(c: char) { '0' <= c <= '9' }

  predicate AllDigits(s: string) { forall k :: 0 <= k < |s| ==> IsDigit(s[k]) }

  function Digit(d: nat): (c: char)
    requires d < 10
    ensures IsDigit(c) && c as int - '0' as int == d
  {
    ('0' as int + d) as char
  }

  /** The decimal digits of a natural number, without leading zeros. */
  function Dec(n: nat): string {
    if n < 10 then [Digit(n)] else Dec(n / 10) + [Digit(n % 10)]
  }

  /** The number a digit string stands for. */
  function Number(s: string): nat
    requires AllDigits(s)
  {
    if s == [] then 0 else 10 * Number(s[..|s| - 1]) + (s[|s| - 1] as int - '0' as int)
  }

  lemma {:induction false} DecNumber(n: nat)
    ensures Dec(n) != [] && AllDigits(Dec(n)) && Number(Dec(n)) == n
  {
    if n < 10 {
      assert Number([Digit(n)]) == 10 * Number([Digit(n)][..0]) + n;
    } else {
      DecNumber(n / 10);
      assert Dec(n)[..|Dec(n)| - 1] == Dec(n / 10);
    }
  }

  /** s is the usual decimal notation of n: digits, and no leading zero. */
  predicate Canonical(s: string, n: nat) {
    s != [] && AllDigits(s) && Number(s) == n && (s[0] == '0' ==> s == "0")
  }

  lemma {:induction false} NoLeadingZero(n: nat)
    ensures Dec(n) != [] && (Dec(n)[0] == '0' <==> n == 0) && (n == 0 ==> Dec(n) == "0")
  {
    if n >= 10 { NoLeadingZero(n / 10); }
  }

  /** A digit string without a leading zero that stands for 0 is "0". */
  lemma {:induction false} ZeroIs(s: string)
    requires AllDigits(s) && Number(s) == 0 && s != []
    ensures s[0] == '0'
  {
    if |s| > 1 { ZeroIs(s[..|s| - 1]); }
  }

  /** Dec(n) is the only canonical notation of n. */
  lemma {:induction false} DecIsCanonical(s: string, n: nat)
    ensures Canonical(s, n) <==> s == Dec(n)
  {
    DecNumber(n);
    NoLeadingZero(n);
    if Canonical(s, n) { CanonicalIsDec(s, n); }
  }

  lemma {:induction false} CanonicalIsDec(s: string, n: nat)
    requires Canonical(s, n)
    ensures s == Dec(n)
    decreases |s|
  {
    var k := |s| - 1;
    var front, d := s[..k], s[k] as int - '0' as int;
    assert n == 10 * Number(front) + d && 0 <= d < 10;
    assert s == front + [s[k]] && Digit(d) == s[k];
    if front != [] {
      if Number(front) == 0 { ZeroIs(front); }
      CanonicalIsDec(front, Number(front));
    }
  }

  /** What %d prints for an int. */
  function Itoa(n: int): string {
    if n < 0 then "-" + Dec(-n) else Dec(n)
  }

  function Atoi(s: string): Option<int> {
    if s != [] && AllDigits(s) then Some(Number(s))
    else if |s| > 1 && s[0] == '-' && AllDigits(s[1..]) then var n: int := Number(s[1..]); Some(-n)
    else None
  }

  /** In words: a minus sign for a negative number, then canonical digits. */
  lemma ItoaIs(n: int, digits: string)
    requires Canonical(digits, if n < 0 then -n else n)
    ensures Itoa(n) == if n < 0 then "-" + digits else digits
  {
    DecIsCanonical(digits, if n < 0 then -n else n);
  }

  lemma AtoiItoa(n: int)
    ensures Atoi(Itoa(n)) == Some(n)
    ensures Itoa(n) != []
    ensures forall k :: 0 <= k < |Itoa(n)| ==> IsDigit(Itoa(n)[k]) || (k == 0 && Itoa(n)[k] == '-')
  {
    if n < 0 {
      DecNumber(-n);
      assert Itoa(n)[1..] == Dec(-n);
      assert !AllDigits(Itoa(n)) by { assert !IsDigit(Itoa(n)[0]); }
    } else {
      DecNumber(n);
    }
  }
}
