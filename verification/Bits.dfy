/** Machine words as naturals: powers of two, bitwise and, shifts, and the bits of a word. */
module Bits {

  function Pow2(k: nat): (p: nat)
    ensures p > 0
  {
    if k == 0 then 1 else 2 * Pow2(k - 1)
  }

  /** Bitwise and. */
  function And(x: nat, y: nat): nat {
    if x == 0 || y == 0 then 0 else 2 * And(x / 2, y / 2) + (x % 2) * (y % 2)
  }

  /** Shift left in a register of the given width. */
  function ShiftLeft(width: nat, x: nat, k: nat): nat {
    x * Pow2(k) % Pow2(width)
  }

  /** Bit i of a word of the given width, counted from the most significant. */
  predicate Bit(width: nat, x: nat, i: nat)
    requires i < width
  {
    x / Pow2(width - 1 - i) % 2 == 1
  }

  ghost predicate Agree(width: nat, x: nat, y: nat, n: nat)
    requires n <= width
  {
    forall i: nat :: i < n ==> Bit(width, x, i) == Bit(width, y, i)
  }

  // ---------- powers ----------

  lemma {:induction false} PowAdd(j: nat, k: nat)
    ensures Pow2(j + k) == Pow2(j) * Pow2(k)
  {
    if j > 0 { PowAdd(j - 1, k); }
  }

  lemma MulGrows(p: int, d: int)
    requires p > 0
    ensures d >= 1 ==> p * d >= p
    ensures d <= -1 ==> p * d <= -p
  {}

  lemma DivUnique(x: int, p: int, q: int, r: int)
    requires p > 0 && 0 <= r < p && x == p * q + r
    ensures x / p == q && x % p == r
  {
    MulGrows(p, x / p - q);
    assert p * (x / p - q) == r - x % p;
  }

  lemma HalfMod(x: nat, p: nat)
    requires p > 0
    ensures x % (2 * p) == 2 * ((x / 2) % p) + x % 2 && x / (2 * p) == (x / 2) / p
  {
    var h, q, r := x / 2, (x / 2) / p, (x / 2) % p;
    assert h == p * q + r;
    assert x == (2 * p) * q + (2 * r + x % 2);
    DivUnique(x, 2 * p, q, 2 * r + x % 2);
  }

  lemma DivHalf(x: nat, p: nat)
    requires p > 0
    ensures x / p == 2 * (x / (2 * p)) + (x / p) % 2
  {
    var q, r := x / (2 * p), x % (2 * p);
    assert x == (2 * p) * q + r == p * (2 * q) + r;
    if r < p { DivUnique(x, p, 2 * q, r); } else { DivUnique(x, p, 2 * q + 1, r - p); }
  }

  // ---------- masks ----------

  lemma {:induction false} AndOnes(width: nat, x: nat)
    requires x < Pow2(width)
    ensures And(x, Pow2(width) - 1) == x
  {
    if width > 0 && x > 0 {
      AndOnes(width - 1, x / 2);
      assert (Pow2(width) - 1) / 2 == Pow2(width - 1) - 1;
    }
  }

  lemma {:induction false} PowMono(j: nat, k: nat)
    requires j <= k
    ensures Pow2(j) <= Pow2(k) && (j < k ==> 2 * Pow2(j) <= Pow2(k))
  {
    if j < k { PowMono(j, k - 1); }
  }

  /** Masking with ones in the upper width - k bits clears the lower k. */
  lemma {:induction false} AndMask(width: nat, k: nat, x: nat)
    requires k <= width && x < Pow2(width)
    ensures Pow2(k) <= Pow2(width)
    ensures And(x, Pow2(width) - Pow2(k)) == x - x % Pow2(k)
  {
    PowMono(k, width);
    var m := Pow2(width) - Pow2(k);
    if k == 0 {
      AndOnes(width, x);
    } else {
      AndMask(width - 1, k - 1, x / 2);
      HalfMod(x, Pow2(k - 1));
      assert m == 2 * (Pow2(width - 1) - Pow2(k - 1));
    }
  }

  lemma ShiftOnes(width: nat, k: nat)
    requires k <= width
    ensures Pow2(k) <= Pow2(width)
    ensures ShiftLeft(width, Pow2(width) - 1, k) == Pow2(width) - Pow2(k)
  {
    hide Pow2;
    PowMono(k, width);
    WrapOnes(Pow2(width), Pow2(k));
  }

  lemma WrapOnes(w: nat, p: nat)
    requires 0 < p <= w
    ensures (w - 1) * p % w == w - p
  {
    Distribute(w, p);
    DivUnique((w - 1) * p, w, p - 1, w - p);
  }

  lemma Distribute(w: nat, p: nat)
    ensures (w - 1) * p == w * (p - 1) + (w - p)
  {}

  // ---------- leading bits ----------

  /** Agreeing on the first n bits is having the same quotient by the weight of the rest. */
  lemma {:induction false} AgreeIff(width: nat, x: nat, y: nat, n: nat)
    requires n <= width && x < Pow2(width) && y < Pow2(width)
    ensures Agree(width, x, y, n) <==> x / Pow2(width - n) == y / Pow2(width - n)
  {
    if n == 0 {
      DivUnique(x, Pow2(width), 0, x);
      DivUnique(y, Pow2(width), 0, y);
    } else {
      AgreeIff(width, x, y, n - 1);
      var p := Pow2(width - n);
      assert Pow2(width - (n - 1)) == 2 * p;
      DivHalf(x, p);
      DivHalf(y, p);
      assert Bit(width, x, n - 1) <==> (x / p) % 2 == 1;
      assert Bit(width, y, n - 1) <==> (y / p) % 2 == 1;
      assert Agree(width, x, y, n) <==> Agree(width, x, y, n - 1) && Bit(width, x, n - 1) == Bit(width, y, n - 1);
    }
  }

  /** The value with bit i inverted. */
  function Flip(width: nat, x: nat, i: nat): int
    requires i < width
  {
    if Bit(width, x, i) then x - Pow2(width - 1 - i) else x + Pow2(width - 1 - i)
  }

  lemma FlipDiffers(width: nat, x: nat, i: nat)
    requires i < width && x < Pow2(width)
    ensures 0 <= Flip(width, x, i) < Pow2(width)
    ensures Agree(width, Flip(width, x, i), x, i)
    ensures Bit(width, Flip(width, x, i), i) != Bit(width, x, i)
  {
    hide Pow2;
    var p := Pow2(width - 1 - i);
    FlipParts(x, p);
    PowerAbove(width, i);
    FlipFits(Pow2(i), 2 * p, x, Flip(width, x, i));
    assert Pow2(width - i) == 2 * p by { PowAdd(1, width - 1 - i); PowTwo(); }
    AgreeIff(width, Flip(width, x, i), x, i);
  }

  lemma PowTwo()
    ensures Pow2(1) == 2
  {}

  lemma PowerAbove(width: nat, i: nat)
    requires i < width
    ensures Pow2(width) == Pow2(i) * (2 * Pow2(width - 1 - i))
  {
    PowAdd(i, width - i);
  }

  lemma FlipParts(x: nat, p: nat)
    requires p > 0
    ensures var f := if x / p % 2 == 1 then x - p else x + p;
            0 <= f && f / (2 * p) == x / (2 * p) && f / p % 2 != x / p % 2
  {
    var q, h, r := x / p, x / (2 * p), x % p;
    DivHalf(x, p);
    Parts(x, p);
    if q % 2 == 1 {
      assert q == 2 * h + 1;
      FlipDown(x, p, h, r);
    } else {
      assert q == 2 * h;
      FlipUp(x, p, h, r);
    }
  }

  lemma Parts(x: nat, p: nat)
    requires p > 0
    ensures x == p * (x / p) + x % p
  {}

  lemma FlipDown(x: nat, p: nat, h: nat, r: nat)
    requires p > 0 && r < p && x == p * (2 * h + 1) + r
    ensures x - p >= 0 && (x - p) / (2 * p) == h && (x - p) / p == 2 * h
  {
    assert x - p == p * (2 * h) + r == (2 * p) * h + r;
    DivUnique(x - p, p, 2 * h, r);
    DivUnique(x - p, 2 * p, h, r);
  }

  lemma FlipUp(x: nat, p: nat, h: nat, r: nat)
    requires p > 0 && r < p && x == p * (2 * h) + r
    ensures (x + p) / (2 * p) == h && (x + p) / p == 2 * h + 1
  {
    assert x + p == p * (2 * h + 1) + r == (2 * p) * h + (p + r);
    DivUnique(x + p, p, 2 * h + 1, r);
    DivUnique(x + p, 2 * p, h, p + r);
  }

  lemma FlipFits(m: nat, s: nat, x: nat, f: nat)
    requires s > 0 && x < m * s && f / s == x / s
    ensures f < m * s
  {
    var h := x / s;
    assert s * h <= x;
    MulGrows(s, m - h);
    MulGrows(s, h - m);
    assert s * (m - h) == m * s - s * h;
    assert f == s * h + f % s;
  }

  lemma SameMaskedIff(x: nat, y: nat, p: nat)
    requires p > 0
    ensures x - x % p == y - y % p <==> x / p == y / p
  {
    assert x - x % p == p * (x / p) && y - y % p == p * (y / p);
    DivUnique(x - x % p, p, x / p, 0);
    DivUnique(y - y % p, p, y / p, 0);
  }
}
