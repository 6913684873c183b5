/** Words as bit strings, most significant bit first, as Python's binary formatting has them. */
module Bits {
  type Word = seq<bool>

  function Pow2(n: nat): (r: nat)
    ensures r > 0
  {
    if n == 0 then 1 else 2 * Pow2(n - 1)
  }

  /** The last `n` binary digits of `x`. */
  function ToBits(x: nat, n: nat): (w: Word)
    ensures |w| == n
  {
    if n == 0 then [] else ToBits(x / 2, n - 1) + [x % 2 == 1]
  }

  /** The number that a bit string denotes. */
  function FromBits(w: Word): nat {
    if w == [] then 0 else 2 * FromBits(w[..|w| - 1]) + if w[|w| - 1] then 1 else 0
  }

  lemma {:induction false} FormatInvertsParse(w: Word)
    ensures ToBits(FromBits(w), |w|) == w
  {
    if w != [] {
      FormatInvertsParse(w[..|w| - 1]);
    }
  }

  /** Words of the same length denote the same number only if they are the same. */
  lemma ParseIsInjective(a: Word, b: Word)
    requires |a| == |b|
    ensures FromBits(a) == FromBits(b) <==> a == b
  {
  }

  lemma {:induction false} ParseInvertsFormat(x: nat, n: nat)
    requires x < Pow2(n)
    ensures FromBits(ToBits(x, n)) == x
  {
    if n > 0 {
      ParseInvertsFormat(x / 2, n - 1);
      assert ToBits(x, n)[..n - 1] == ToBits(x / 2, n - 1);
    }
  }

  lemma {:induction false} ParseIsBounded(w: Word)
    ensures FromBits(w) < Pow2(|w|)
  {
    if w != [] {
      ParseIsBounded(w[..|w| - 1]);
    }
  }

  function Zeros(n: nat): Word {
    seq(n, _ => false)
  }

  function Ones(n: nat): Word {
    seq(n, _ => true)
  }

  /** `x` moved `n` bits to the left. */
  function Shifted(x: nat, n: nat): nat {
    if n == 0 then x else 2 * Shifted(x, n - 1)
  }

  lemma {:induction false} ShiftedIsProduct(x: nat, n: nat)
    ensures Shifted(x, n) == x * Pow2(n)
  {
    if n > 0 {
      ShiftedIsProduct(x, n - 1);
    }
  }

  lemma {:induction false} ShiftedZero(n: nat)
    ensures Shifted(0, n) == 0
  {
    if n > 0 {
      ShiftedZero(n - 1);
    }
  }

  lemma {:induction false} ParseConcat(a: Word, b: Word)
    ensures FromBits(a + b) == Shifted(FromBits(a), |b|) + FromBits(b)
  {
    if b == [] {
      assert a + b == a;
    } else {
      ParseConcat(a, b[..|b| - 1]);
      assert (a + b)[..|a + b| - 1] == a + b[..|b| - 1];
    }
  }

  lemma {:induction false} ParseZerosOnes(n: nat)
    ensures FromBits(Zeros(n)) == 0 && FromBits(Ones(n)) == Pow2(n) - 1
  {
    if n > 0 {
      ParseZerosOnes(n - 1);
      assert Zeros(n)[..n - 1] == Zeros(n - 1) && Ones(n)[..n - 1] == Ones(n - 1);
    }
  }

  // ---------------------------------------------------------------- bitwise operations

  function And(a: Word, b: Word): Word
    requires |a| == |b|
  {
    seq(|a|, i requires 0 <= i < |a| => a[i] && b[i])
  }

  function Or(a: Word, b: Word): Word
    requires |a| == |b|
  {
    seq(|a|, i requires 0 <= i < |a| => a[i] || b[i])
  }

  function Not(a: Word): Word {
    seq(|a|, i requires 0 <= i < |a| => !a[i])
  }

  /** Bitwise conjunction of 32-bit numbers. */
  function And32(x: nat, y: nat): nat {
    FromBits(And(ToBits(x, 32), ToBits(y, 32)))
  }
}
