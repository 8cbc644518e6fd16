/** Row indices of a truth table and their binary expansion.
    Row `r` over `n` inputs is written with `n` binary digits, the first digit
    (variable A) being the most significant one, exactly as `toBin` pads
    `r.toString(2)` to `n` digits. */
module Bits {

  /** 2^n, the number of rows of a table over n inputs. */
  function Pow2(n: nat): (r: nat)
    ensures r >= 1
  {
    if n == 0 then 1 else 2 * Pow2(n - 1)
  }

  /** The n digits of row r, most significant first (true stands for '1'). */
  function RowBits(r: nat, n: nat): (a: seq<bool>)
    ensures |a| == n
  {
    if n == 0 then [] else RowBits(r / 2, n - 1) + [r % 2 == 1]
  }

  /** The row whose digits are `a`; the inverse of RowBits. */
  function FromBits(a: seq<bool>): (r: nat)
    ensures r < Pow2(|a|)
  {
    if a == [] then 0 else 2 * FromBits(a[..|a| - 1]) + (if a[|a| - 1] then 1 else 0)
  }

  lemma {:induction false} RowBitsOfFromBits(a: seq<bool>)
    ensures RowBits(FromBits(a), |a|) == a
  {
    if a != [] {
      var init := a[..|a| - 1];
      RowBitsOfFromBits(init);
      var r := FromBits(a);
      assert r / 2 == FromBits(init);
      assert a == init + [a[|a| - 1]];
    }
  }

  lemma {:induction false} FromBitsOfRowBits(r: nat, n: nat)
    requires r < Pow2(n)
    ensures FromBits(RowBits(r, n)) == r
  {
    if n > 0 {
      FromBitsOfRowBits(r / 2, n - 1);
      var a := RowBits(r, n);
      assert a[..|a| - 1] == RowBits(r / 2, n - 1);
    }
  }

  /** Distinct rows of the table have distinct digits. */
  lemma RowBitsInjective(r1: nat, r2: nat, n: nat)
    requires r1 < Pow2(n) && r2 < Pow2(n)
    requires RowBits(r1, n) == RowBits(r2, n)
    ensures r1 == r2
  {
    FromBitsOfRowBits(r1, n);
    FromBitsOfRowBits(r2, n);
  }

  /** Every assignment of n values to the inputs is the digit string of exactly one row. */
  lemma EveryAssignmentIsARow(a: seq<bool>)
    ensures FromBits(a) < Pow2(|a|) && RowBits(FromBits(a), |a|) == a
  {
    RowBitsOfFromBits(a);
  }

  lemma {:induction false} MulAtLeast(d: nat, k: nat)
    requires k >= 1
    ensures d * k >= d
  {
    if k > 1 {
      MulAtLeast(d, k - 1);
      assert d * k == d * (k - 1) + d;
    }
  }

  /** Euclidean division is determined by its quotient-remainder decomposition. */
  lemma DivUnique(r: nat, d: nat, q: nat, rem: nat)
    requires d > 0 && rem < d && r == d * q + rem
    ensures r / d == q
  {
    var q' := r / d;
    var rem' := r % d;
    assert r == d * q' + rem';
    if q' < q {
      assert d * q == d * q' + d * (q - q');
      MulAtLeast(d, q - q');
    } else if q' > q {
      assert d * q' == d * q + d * (q' - q);
      MulAtLeast(d, q' - q);
    }
  }

  lemma DivTwice(r: nat, m: nat)
    requires m > 0
    ensures (r / 2) / m == r / (2 * m)
  {
    var q := r / 2;
    var q2 := q / m;
    var b := r % 2;
    var b2 := q % m;
    assert q == m * q2 + b2;
    calc {
      r;
      2 * q + b;
      2 * (m * q2 + b2) + b;
      (2 * m) * q2 + (2 * b2 + b);
    }
    DivUnique(r, 2 * m, q2, 2 * b2 + b);
  }

  /** Digit k of row r is bit n-1-k of r: variable A (k = 0) is the most significant bit. */
  lemma {:induction false} RowBitsAt(r: nat, n: nat, k: nat)
    requires k < n
    ensures RowBits(r, n)[k] == ((r / Pow2(n - 1 - k)) % 2 == 1)
  {
    if k < n - 1 {
      RowBitsAt(r / 2, n - 1, k);
      DivTwice(r, Pow2(n - 2 - k));
    }
  }
}
