/** Facts about division and rounding to multiples. */
module Rounding {

  function Min(a: int, b: int): int {
    if a <= b then a else b
  }

  lemma {:induction false} AlignUp(x: nat, a: nat)
    requires a > 0 && x % a != 0
    ensures (x + a - x % a) % a == 0
  {
    var q := x / a;
    assert x + a - x % a == a * (q + 1);
    Multiple(q + 1, a);
  }

  lemma {:induction false} AlignDown(x: nat, a: nat)
    requires a > 0
    ensures (x - x % a) % a == 0
  {
    var q := x / a;
    assert x - x % a == a * q;
    Multiple(q, a);
  }

  lemma {:induction false} Multiple(q: nat, a: nat)
    requires a > 0
    ensures (a * q) % a == 0
  {
    if q > 0 {
      Multiple(q - 1, a);
      assert a * q == a * (q - 1) + a;
      Shift(a * (q - 1), a);
    }
  }

  lemma {:induction false} Shift(x: nat, a: nat)
    requires a > 0
    ensures (x + a) % a == x % a
  {
    var q := x / a;
    assert x + a == a * (q + 1) + x % a;
    DivUnique(x + a, a, q + 1, x % a);
  }

  lemma {:induction false} DivUnique(x: nat, a: nat, q: nat, r: nat)
    requires a > 0 && r < a && x == a * q + r
    ensures x % a == r
  {
    var d := x / a - q;
    assert a * d == r - x % a;
    assert d >= 1 ==> a * d >= a;
    assert d <= -1 ==> a * (0 - d) >= a;
  }
}
