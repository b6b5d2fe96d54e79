/** Remainders, for the ring buffers and wrapping counters of the kernel. */
module Modular {

  lemma MulAtLeast(a: int, m: int)
    requires a >= 1 && m >= 1
    ensures a * m >= m
  {
    assert (a - 1) * m >= 0;
  }

  lemma UniqueRemainder(d: int, r: int, e: int, q: int, m: int)
    requires 0 <= r < m && 0 <= q < m && d * m + r == e * m + q
    ensures r == q
  {
    assert (d - e) * m == q - r && (e - d) * m == r - q;
    if d > e {
      MulAtLeast(d - e, m);
    } else if e > d {
      MulAtLeast(e - d, m);
    }
  }

  lemma ModOf(x: int, d: int, m: int, r: int)
    requires 0 <= r < m && x == d * m + r
    ensures x % m == r
  {
    UniqueRemainder(d, r, x / m, x % m, m);
  }

  lemma ModAddMultiple(x: int, k: int, m: int)
    requires m > 0
    ensures (x + k * m) % m == x % m
  {
    assert x + k * m == (x / m + k) * m + x % m;
    ModOf(x + k * m, x / m + k, m, x % m);
  }

  /** Wrapping at a multiple of m first makes no difference to the remainder by m. */
  lemma ModMod(x: int, w: int, m: int)
    requires m > 0 && w > 0 && w % m == 0
    ensures (x % w) % m == x % m
  {
    var q, k, r := x / w, w / m, x % w;
    MulAssoc(q, k, m);
    assert x == r + (q * k) * m;
    ModAddMultiple(r, q * k, m);
  }

  lemma MulAssoc(a: int, b: int, c: int)
    ensures a * (b * c) == (a * b) * c
  {
  }

  /** Numbers less than m apart have the same remainder only if they are equal. */
  lemma ModApart(i: int, j: int, m: int)
    requires m > 0 && i <= j < i + m
    ensures i % m == j % m ==> i == j
  {
    if i % m == j % m && j / m != i / m {
      var d := j / m - i / m;
      assert j - i == d * m;
      if d >= 1 {
        MulAtLeast(d, m);
      } else {
        MulAtLeast(-d, m);
      }
    }
  }

  /** A counter that wraps at w. */
  function Wrap(x: int, w: int): (r: int)
    requires w > 0
    ensures 0 <= r < w
  {
    x % w
  }

  /** The place of position x in a ring of m places. */
  function Slot(x: int, m: int): (r: int)
    requires m > 0
    ensures 0 <= r < m
  {
    x % m
  }

  lemma SlotOfWrapped(x: int, w: int, m: int)
    requires m > 0 && w > 0 && w % m == 0
    ensures Slot(Wrap(x, w), m) == Slot(x, m)
  {
    ModMod(x, w, m);
  }

  lemma SlotsApart(i: int, j: int, m: int)
    requires m > 0 && i < j < i + m
    ensures Slot(i, m) != Slot(j, m)
  {
    ModApart(i, j, m);
  }

  lemma WrapAdd(x: int, k: int, w: int)
    requires w > 0
    ensures Wrap(Wrap(x, w) + k, w) == Wrap(x + k, w)
  {
    ModAddMultiple(x % w + k, x / w, w);
    assert x % w + k + (x / w) * w == x + k;
  }

  lemma SameWrap(a: int, b: int, w: int)
    requires w > 0 && a <= b < a + w
    ensures Wrap(a, w) == Wrap(b, w) <==> a == b
  {
    ModApart(a, b, w);
  }

  lemma WrapDifference(c: int, n: int, w: int)
    requires w > 0 && c <= n < c + w
    ensures Wrap(Wrap(n, w) - Wrap(c, w), w) == n - c
  {
    assert n % w - c % w == (c / w - n / w) * w + (n - c);
    ModOf(n % w - c % w, c / w - n / w, w, n - c);
  }
}
