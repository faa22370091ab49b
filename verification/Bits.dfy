/** Bitwise operations on natural numbers. */
module Bits {

  function BitOr(x: nat, y: nat): nat {
    if x == 0 && y == 0 then 0
    else (if x % 2 == 1 || y % 2 == 1 then 1 else 0) + 2 * BitOr(x / 2, y / 2)
  }

  function BitAnd(x: nat, y: nat): nat {
    if x == 0 || y == 0 then 0
    else (if x % 2 == 1 && y % 2 == 1 then 1 else 0) + 2 * BitAnd(x / 2, y / 2)
  }

  function Power(k: nat): (p: nat)
    ensures p > 0
  {
    if k == 0 then 1 else 2 * Power(k - 1)
  }

  lemma {:induction false} OrWithNone(x: nat)
    ensures BitOr(x, 0) == x
  {
    if x > 0 {
      OrWithNone(x / 2);
    }
  }

  lemma {:induction false} Halves(x: nat, p: nat)
    ensures x * (2 * p) == 2 * (x * p)
  {
  }

  /** Setting bits over `k` cleared ones is an addition. */
  lemma {:induction false} OrIsSum(x: nat, y: nat, k: nat)
    requires y < Power(k)
    ensures BitOr(x * Power(k), y) == x * Power(k) + y
  {
    if k == 0 {
      OrWithNone(x);
    } else {
      OrIsSum(x, y / 2, k - 1);
      Halves(x, Power(k - 1));
      OrStep(x * Power(k - 1), y);
    }
  }

  lemma {:induction false} OrStep(h: nat, y: nat)
    requires BitOr(h, y / 2) == h + y / 2
    ensures BitOr(2 * h, y) == 2 * h + y
  {
    assert 2 * h / 2 == h && 2 * h % 2 == 0;
  }

  lemma {:induction false} EvenRemainder(x: nat, p: nat)
    requires p > 0
    ensures x % (2 * p) == x % 2 + 2 * (x / 2 % p)
  {
    var h := x / 2;
    var q, r := h / p, h % p;
    assert h == q * p + r;
    assert 2 * h == 2 * (q * p) + 2 * r;
    Halves(q, p);
    UniqueRemainder(x, 2 * p, q, x % 2 + 2 * r);
  }

  lemma {:induction false} UniqueRemainder(x: nat, d: nat, q: nat, r: nat)
    requires r < d && x == q * d + r
    ensures x % d == r
  {
    OneQuotient(x / d, x % d, q, r, d);
  }

  lemma {:induction false} OneQuotient(p: nat, s: nat, q: nat, r: nat, d: nat)
    requires s < d && r < d && p * d + s == q * d + r
    ensures s == r
  {
    if p > q {
      AtLeastOnce(p - q, d);
      Difference(p, q, d);
    } else if q > p {
      AtLeastOnce(q - p, d);
      Difference(q, p, d);
    }
  }

  lemma {:induction false} AtLeastOnce(k: nat, d: nat)
    requires k > 0
    ensures k * d >= d
  {
    assert k * d == (k - 1) * d + d;
  }

  lemma {:induction false} Difference(p: nat, q: nat, d: nat)
    ensures (p - q) * d == p * d - q * d
  {
  }

  /** Masking with `k` ones is the remainder. */
  lemma {:induction false} MaskIsRemainder(x: nat, k: nat)
    ensures BitAnd(x, Power(k) - 1) == x % Power(k)
  {
    if k > 0 {
      MaskIsRemainder(x / 2, k - 1);
      EvenRemainder(x, Power(k - 1));
      var m := Power(k - 1);
      assert (2 * m - 1) % 2 == 1 && (2 * m - 1) / 2 == m - 1;
      MaskStep(x, m);
    }
  }

  lemma {:induction false} MaskStep(x: nat, m: nat)
    requires m > 0 && BitAnd(x / 2, m - 1) == x / 2 % m && x % (2 * m) == x % 2 + 2 * (x / 2 % m)
    ensures BitAnd(x, 2 * m - 1) == x % (2 * m)
  {
    assert (2 * m - 1) % 2 == 1 && (2 * m - 1) / 2 == m - 1;
  }
}
