/** Binomial sums behind the exact two-sided sign test. */
module Binomials {

  function Comb(n: nat, k: nat): nat {
    if k == 0 then 1 else if n == 0 then 0 else Comb(n - 1, k - 1) + Comb(n - 1, k)
  }

  function Pow2(n: nat): (p: nat)
    ensures p >= 1
  {
    if n == 0 then 1 else 2 * Pow2(n - 1)
  }

  /** The first `n` terms of row `m`. */
  function Tail(m: nat, n: nat): nat {
    if n == 0 then 0 else Tail(m, n - 1) + Comb(m, n - 1)
  }

  function Abs(x: int): nat {
    if x < 0 then -x else x
  }

  function Hit(x: int, bar: nat): nat {
    if Abs(x) >= bar then 1 else 0
  }

  /** Walks of `m` unit steps from `p` that end at distance `bar` or more from zero. */
  function Walks(m: nat, p: int, bar: nat): nat {
    if m == 0 then Hit(p, bar) else Walks(m - 1, p - 1, bar) + Walks(m - 1, p + 1, bar)
  }

  /** The same count by the number of upward steps, those below `n`. */
  function ByUps(m: nat, p: int, bar: nat, n: nat): nat {
    if n == 0 then 0 else ByUps(m, p, bar, n - 1) + Comb(m, n - 1) * Hit(p + 2 * (n - 1) - m, bar)
  }

  lemma {:induction false} CombPastRow(n: nat, k: nat)
    requires k > n
    ensures Comb(n, k) == 0
  {
    if n > 0 {
      CombPastRow(n - 1, k - 1);
      CombPastRow(n - 1, k);
    }
  }

  lemma {:induction false} CombWhole(n: nat)
    ensures Comb(n, n) == 1
  {
    if n > 0 {
      CombWhole(n - 1);
      CombPastRow(n - 1, n);
    }
  }

  lemma {:induction false} CombSymmetric(n: nat, k: nat)
    requires k <= n
    ensures Comb(n, k) == Comb(n, n - k)
  {
    if k == 0 || k == n {
      CombWhole(n);
    } else {
      CombSymmetric(n - 1, k - 1);
      CombSymmetric(n - 1, k);
    }
  }

  lemma {:induction false} ByUpsPascal(m: nat, p: int, bar: nat, n: nat)
    requires m > 0 && n > 0
    ensures ByUps(m, p, bar, n) == ByUps(m - 1, p - 1, bar, n) + ByUps(m - 1, p + 1, bar, n - 1)
  {
    if n > 1 {
      ByUpsPascal(m, p, bar, n - 1);
      var k := n - 1;
      var h := Hit(p + 2 * k - m, bar);
      assert Comb(m, k) == Comb(m - 1, k - 1) + Comb(m - 1, k);
      assert Comb(m, k) * h == Comb(m - 1, k - 1) * h + Comb(m - 1, k) * h;
      assert p - 1 + 2 * k - (m - 1) == p + 2 * k - m;
      assert p + 1 + 2 * (k - 1) - (m - 1) == p + 2 * k - m;
    } else {
      assert ByUps(m - 1, p + 1, bar, 0) == 0;
      assert p - 1 - (m - 1) == p - m;
    }
  }

  lemma {:induction false} WalksByUps(m: nat, p: int, bar: nat)
    ensures Walks(m, p, bar) == ByUps(m, p, bar, m + 1)
  {
    if m == 0 {
      assert ByUps(0, p, bar, 1) == ByUps(0, p, bar, 0) + Comb(0, 0) * Hit(p, bar);
    } else {
      WalksByUps(m - 1, p - 1, bar);
      WalksByUps(m - 1, p + 1, bar);
      ByUpsPascal(m, p, bar, m + 1);
      CombPastRow(m - 1, m);
    }
  }

  /** A row sums to a power of two. */
  lemma {:induction false} RowSum(m: nat)
    ensures Tail(m, m + 1) == Pow2(m)
  {
    if m == 0 {
      assert Tail(0, 1) == Tail(0, 0) + Comb(0, 0);
    } else {
      RowSum(m - 1);
      TailPascal(m, m + 1);
      CombPastRow(m - 1, m);
    }
  }

  lemma {:induction false} TailPascal(m: nat, n: nat)
    requires m > 0 && n > 0
    ensures Tail(m, n) == Tail(m - 1, n) + Tail(m - 1, n - 1)
  {
    if n > 1 {
      TailPascal(m, n - 1);
    } else {
      assert Tail(m, 1) == Tail(m, 0) + Comb(m, 0);
      assert Tail(m - 1, 1) == Tail(m - 1, 0) + Comb(m - 1, 0);
    }
  }

  lemma {:induction false} TailMonotone(m: nat, i: nat, j: nat)
    requires i <= j
    ensures Tail(m, i) <= Tail(m, j)
  {
    if i < j { TailMonotone(m, i, j - 1); }
  }

  /** The two ends of a row mirror each other. */
  lemma {:induction false} TailMirror(m: nat, j: nat)
    requires j <= m + 1
    ensures Tail(m, m + 1) == Tail(m, m + 1 - j) + Tail(m, j)
  {
    if j > 0 {
      TailMirror(m, j - 1);
      CombSymmetric(m, j - 1);
      assert Tail(m, m + 2 - j) == Tail(m, m + 1 - j) + Comb(m, m + 1 - j);
    }
  }

  /** From zero the walks at least as far as `m - 2 * lo` are the two ends of the row. */
  lemma {:induction false} TwoEnds(m: nat, lo: nat, n: nat)
    requires 2 * lo <= m && n <= m + 1
    ensures ByUps(m, 0, m - 2 * lo, n) ==
            if n <= lo + 1 then Tail(m, n)
            else if n <= m - lo then Tail(m, lo + 1)
            else if 2 * lo == m then Tail(m, n)
            else Tail(m, lo + 1) + Tail(m, n) - Tail(m, m - lo)
  {
    if n > 0 { TwoEnds(m, lo, n - 1); }
  }

  /** How often a random sign pattern is as extreme as `a` gains against `b` losses. */
  lemma ExtremeWalks(a: nat, b: nat)
    ensures var m, lo := a + b, if a <= b then a else b;
            Walks(m, 0, Abs(a - b)) == if a == b then Pow2(m) else 2 * Tail(m, lo + 1)
    ensures var m, lo := a + b, if a <= b then a else b;
            if a == b then Pow2(m) <= 2 * Tail(m, lo + 1) else 2 * Tail(m, lo + 1) <= Pow2(m)
  {
    hide Walks, ByUps, Tail, Pow2;
    var m, lo := a + b, if a <= b then a else b;
    assert Abs(a - b) == m - 2 * lo;
    WalksByUps(m, 0, m - 2 * lo);
    TwoEnds(m, lo, m + 1);
    RowSum(m);
    TailMirror(m, lo + 1);
    if a == b {
      TailMonotone(m, lo, lo + 1);
    } else {
      TailMonotone(m, lo + 1, m - lo);
    }
  }
}
