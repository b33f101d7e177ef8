/** Numbers in decimal text. */
module Decimal {
  import opened Records

  predicate Digit(b: byte) {
    48 <= b < 58
  }

  predicate AllDigits(ds: Bytes) {
    forall i :: 0 <= i < |ds| ==> Digit(ds[i])
  }

  /** The digits of a number, no zero in front. */
  function Digits(n: nat): (ds: Bytes)
    ensures ds != [] && AllDigits(ds)
  {
    if n < 10 then [48 + n] else Digits(n / 10) + [48 + n % 10]
  }

  /** The number a run of digits names. */
  function DigitsValue(ds: Bytes): (n: nat)
    requires AllDigits(ds)
  {
    if ds == [] then 0
    else
      var last: int := ds[|ds| - 1];
      DigitsValue(ds[..|ds| - 1]) * 10 + (last - 48)
  }

  lemma {:induction false} DigitsValueOf(n: nat)
    ensures DigitsValue(Digits(n)) == n
    ensures Digits(n)[0] == 48 ==> n == 0 && |Digits(n)| == 1
  {
    if n < 10 {
      assert Digits(n)[..0] == [];
    } else {
      DigitsValueOf(n / 10);
      var ds := Digits(n / 10);
      assert (ds + [48 + n % 10])[..|ds|] == ds;
    }
  }
}
