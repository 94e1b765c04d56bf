/** Which numbers a power of two and another number make up between them. */
module Residues {
  import opened Common

  /** Two has an inverse modulo any odd number, so every power of two has. */
  lemma {:induction false} OddSolves(o: nat, a: int, n: nat) returns (j: nat, q: int)
    requires o % 2 == 1
    ensures j < o && a == Pow2(n) * j + q * o
    decreases n
  {
    if n == 0 {
      j, q := a % o, a / o;
    } else {
      var i, r := OddSolves(o, a, n - 1);
      j, q := OddStep(o, a, Pow2(n - 1), i, r);
    }
  }

  lemma OddStep(o: nat, a: int, w: int, i: nat, r: int) returns (j: nat, q: int)
    requires o % 2 == 1 && i < o && a == w * i + r * o
    ensures j < o && a == (2 * w) * j + q * o
  {
    if i % 2 == 0 {
      j, q := i / 2, r;
      HalfStep(w, i, j, w * i);
    } else {
      j, q := (i + o) / 2, r - w;
      HalfStep(w, i + o, j, w * (i + o));
      Scaled(w, i + o, i, o);
      assert (r - w) * o == r * o - w * o;
    }
  }

  lemma HalfStep(w: int, i: int, j: int, a: int)
    requires a == w * i && i == 2 * j
    ensures a == (2 * w) * j
  {
  }

  lemma {:induction false} Pow2Adds(a: nat, b: nat)
    ensures Pow2(a + b) == Pow2(a) * Pow2(b)
  {
    if a > 0 { Pow2Adds(a - 1, b); }
  }

  /** Every number is a power of two times an odd number. */
  lemma {:induction false} TwoPart(m: nat) returns (f: nat, o: nat)
    requires m > 0
    ensures o % 2 == 1 && m == Pow2(f) * o
  {
    if m % 2 == 1 {
      f, o := 0, m;
    } else {
      f, o := TwoPart(m / 2);
      assert m == 2 * (Pow2(f) * o) == Pow2(f + 1) * o;
      f := f + 1;
    }
  }

  lemma LargeTwoPart(m: nat, f: nat, o: nat)
    requires m == Pow2(f) * o && f >= 10
    ensures m % 1024 == 0
  {
    assert Pow2(4) == 16 && Pow2(10) == 1024;
    Pow2Adds(10, f - 10);
    Regroup(1024, Pow2(f - 10), o);
    var t := Pow2(f - 10) * o;
    assert m == 1024 * t;
  }

  /** A multiple of 512 is a multiple of 2^n, give or take multiples of any `m`
      that 1024 does not divide. */
  lemma Solves(m: nat, k: nat, n: nat) returns (j: nat, q: int)
    requires m % 1024 != 0 && n >= 9
    ensures j < m && 512 * k == Pow2(n) * j + q * m
  {
    var f, o := TwoPart(m);
    if f > 9 { LargeTwoPart(m, f, o); }
    assert Pow2(4) == 16 && Pow2(9) == 512;
    Pow2Adds(f, 9 - f);
    Pow2Adds(f, n - f);
    j, q := OddSolves(o, Pow2(9 - f) * k, n - f);
    Lift(Pow2(f), Pow2(9 - f), k, Pow2(n - f), j, q, o);
    assert Pow2(f) * o >= o;
  }

  lemma Lift(p: int, a: int, k: int, w: int, j: int, q: int, o: int)
    requires a * k == w * j + q * o
    ensures (p * a) * k == (p * w) * j + q * (p * o)
  {
    Regroup(p, a, k);
    Regroup(p, w, j);
    Scaled(p, a * k, w * j, q * o);
    assert p * (q * o) == q * (p * o);
  }

  lemma Scaled(w: int, a: int, b: int, c: int)
    requires a == b + c
    ensures w * a == w * b + w * c
  {
  }

  lemma Regroup(a: int, b: int, c: int)
    ensures a * (b * c) == (a * b) * c
  {
  }
}
