/** Facts about integer multiplication and remainder used by the index proofs. */
module Arithmetic {
  lemma ModAddCount(x: nat, count: int)
    requires count > 0
    ensures (x + count) % count == x % count
  {
    var q, r := x / count, x % count;
    assert x + count == (q + 1) * count + r;
    ModUnique(x + count, count, q + 1, r);
  }

  /** Division with remainder has one answer. */
  lemma ModUnique(y: int, c: int, q: int, r: int)
    requires c > 0 && 0 <= r < c && y == q * c + r
    ensures y % c == r
  {
    var q2, r2 := y / c, y % c;
    assert (q2 - q) * c == r - r2;
    if q2 > q {
      MultipleAtLeast(q2 - q, c);
      assert false;
    } else if q2 < q {
      MultipleAtLeast(q - q2, c);
      assert false;
    }
  }

  lemma MultipleAtLeast(n: int, c: int)
    ensures n >= 1 && c > 0 ==> n * c >= c
  {
    if n >= 1 && c > 0 {
      var m := n - 1;
      assert m * c >= 0;
      assert n * c == m * c + c;
    }
  }
}
