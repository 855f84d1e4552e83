/** Facts about multiples of a size that is not a constant. */
module Divisibility {

  lemma {:induction false} SumAligned(x: nat, y: nat, w: nat)
    requires w > 0 && y % w == 0
    ensures (x + y) % w == 0 <==> x % w == 0
  {
    if x % w == 0 {
      assert x == w * (x / w) && y == w * (y / w);
      assert x + y == w * (x / w + y / w);
      Multiple(w, x / w + y / w);
    }
    if (x + y) % w == 0 {
      assert x + y == w * ((x + y) / w) && y == w * (y / w);
      assert x == w * ((x + y) / w - y / w);
      Multiple(w, (x + y) / w - y / w);
    }
  }

  lemma {:induction false} Multiple(w: int, m: int)
    requires w > 0
    ensures (w * m) % w == 0
  {
    var q, r := (w * m) / w, (w * m) % w;
    assert w * (m - q) == r;
    assert m - q >= 1 ==> w * (m - q) >= w;
    assert m - q <= -1 ==> w * (m - q) <= -w;
  }
}
