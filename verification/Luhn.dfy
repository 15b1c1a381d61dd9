/** The check digit of card numbers, against the validator of Annex B of ISO/IEC 7812-1. */
module Luhn {

  type Digit = d: int | 0 <= d < 10

  function Doubled(d: Digit): Digit {
    if 2 * d > 9 then 2 * d - 9 else 2 * d
  }

  /** What the generator has summed of the digits before position k: it doubles by the distance from the end. */
  function PartialSum(prefix: seq<Digit>, k: nat): nat
    requires k <= |prefix|
  {
    if k == 0 then 0
    else
      PartialSum(prefix, k - 1)
      + if (|prefix| - k) % 2 == 0 then Doubled(prefix[k - 1]) else prefix[k - 1]
  }

  function CheckDigit(prefix: seq<Digit>): Digit {
    PartialSum(prefix, |prefix|) * 9 % 10
  }

  // ---- the validator: from the right, every second digit doubled, starting with the one before the check digit

  function SumFromRight(number: seq<Digit>, double: bool): nat {
    if |number| == 0 then 0
    else
      var n := |number| - 1;
      (if double then Doubled(number[n]) else number[n]) + SumFromRight(number[..n], !double)
  }

  predicate Valid(number: seq<Digit>) {
    SumFromRight(number, false) % 10 == 0
  }

  // ---- the generator meets the validator

  lemma {:induction false} SameSum(prefix: seq<Digit>, k: nat)
    requires k <= |prefix|
    ensures PartialSum(prefix, k) == SumFromRight(prefix[..k], (|prefix| - k) % 2 == 0)
  {
    if k > 0 {
      SameSum(prefix, k - 1);
      assert prefix[..k][..k - 1] == prefix[..k - 1];
    }
  }

  /** The generated digit makes the number valid, and no other digit does; for a prefix of any length. */
  lemma CheckDigitIsTheOne(prefix: seq<Digit>, d: Digit)
    ensures Valid(prefix + [d]) <==> d == CheckDigit(prefix)
  {
    SameSum(prefix, |prefix|);
    assert prefix[..|prefix|] == prefix;
    assert (prefix + [d])[..|prefix|] == prefix;
  }

  // ---- what the check detects

  predicate DoubledAt(length: nat, i: nat, double: bool)
    requires i < length
  {
    double == ((length - 1 - i) % 2 == 0)
  }

  function Weighed(d: Digit, doubled: bool): Digit {
    if doubled then Doubled(d) else d
  }

  lemma {:induction false} ReplaceDigit(number: seq<Digit>, i: nat, d: Digit, double: bool)
    requires i < |number|
    ensures var doubled := DoubledAt(|number|, i, double);
            SumFromRight(number[i := d], double) - SumFromRight(number, double)
            == Weighed(d, doubled) - Weighed(number[i], doubled)
  {
    var n := |number| - 1;
    if i < n {
      ReplaceDigit(number[..n], i, d, !double);
      assert number[i := d][..n] == number[..n][i := d];
    } else {
      assert number[i := d][..n] == number[..n];
    }
  }

  /** A single mistyped digit is always detected. */
  lemma SingleErrorDetected(number: seq<Digit>, i: nat, d: Digit)
    requires Valid(number) && i < |number| && d != number[i]
    ensures !Valid(number[i := d])
  {
    ReplaceDigit(number, i, d, false);
  }

  predicate ZeroAndNine(a: Digit, b: Digit) {
    (a == 0 && b == 9) || (a == 9 && b == 0)
  }

  /** Doubling one of two digits instead of the other changes the sum by a multiple of ten only for 0 and 9. */
  lemma DoublingTellsApart(a: Digit, b: Digit)
    requires a != b
    ensures (Doubled(a) + b - Doubled(b) - a) % 10 == 0 <==> ZeroAndNine(a, b)
  {
  }

  lemma TenSteps(before: int, after: int, shift: int)
    requires before % 10 == 0 && (after == before + shift || after == before - shift)
    ensures after % 10 == 0 <==> shift % 10 == 0
  {
  }

  /** Two neighbouring digits exchanged go unnoticed exactly when they are a 0 and a 9. */
  lemma ExchangeDetectedExactly(number: seq<Digit>, i: nat)
    requires Valid(number) && i + 1 < |number| && number[i] != number[i + 1]
    ensures Valid(number[i := number[i + 1]][i + 1 := number[i]]) <==> ZeroAndNine(number[i], number[i + 1])
  {
    var a, b := number[i], number[i + 1];
    var once := number[i := b];
    var twice := once[i + 1 := a];
    ReplaceDigit(number, i, b, false);
    ReplaceDigit(once, i + 1, a, false);
    DoublingTellsApart(a, b);
    TenSteps(SumFromRight(number, false), SumFromRight(twice, false), Doubled(a) + b - Doubled(b) - a);
  }
}
