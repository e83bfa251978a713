/** Holm's step-down adjustment, proved equal to closed testing with Bonferroni tests. */
module Holm {
  import opened Orders
  import Reals

  function At(p: map<string, real>, name: string): real {
    if name in p then p[name] else 0.0
  }

  function ByP(p: map<string, real>): (string, string) -> bool {
    (a: string, b: string) => At(p, a) <= At(p, b)
  }

  function Max(a: real, b: real): real {
    if a >= b then a else b
  }

  /** A Bonferroni bound: the least p of `k` hypotheses, scaled and capped. */
  function Capped(k: nat, least: real): real {
    Reals.Min(1.0, k as real * least)
  }

  ghost predicate LeastIn(p: map<string, real>, s: set<string>, x: string) {
    x in s && x in p && forall y :: y in s && y in p ==> p[x] <= p[y]
  }

  /** The Bonferroni test of one intersection hypothesis: its size times its least p, or one if that is more. */
  ghost predicate LocalTest(p: map<string, real>, s: set<string>, value: real) {
    exists x :: LeastIn(p, s, x) && value == if |s| as real * p[x] <= 1.0 then |s| as real * p[x] else 1.0
  }

  /** Closed testing: the largest local p over the hypotheses that contain `name`. */
  ghost predicate ClosedTest(p: map<string, real>, name: string, value: real) {
    && (forall s, local :: s <= p.Keys && name in s && LocalTest(p, s, local) ==> local <= value)
    && (exists s :: s <= p.Keys && name in s && LocalTest(p, s, value))
  }

  /** The running maximum after the `j`-th smallest p. */
  function StepDown(p: map<string, real>, ordered: seq<string>, j: nat): real
    requires j < |ordered|
  {
    var here := Capped(|ordered| - j, At(p, ordered[j]));
    if j == 0 then Max(0.0, here) else Max(StepDown(p, ordered, j - 1), here)
  }

  ghost predicate Arranged(p: map<string, real>, ordered: seq<string>) {
    && Sorted(ByP(p), ordered) && Distinct(ordered) && ToSet(ordered) == p.Keys
    && forall x :: x in p ==> p[x] >= 0.0
  }

  lemma ProductMonotone(a: real, b: real, x: real, y: real)
    requires 0.0 <= a <= b && 0.0 <= x <= y
    ensures 0.0 <= a * x <= b * y
  {
    assert a * (y - x) >= 0.0 && (b - a) * y >= 0.0 && a * x >= 0.0;
    assert a * (y - x) == a * y - a * x && (b - a) * y == b * y - a * y;
  }

  lemma CappedMonotone(a: nat, b: nat, x: real, y: real)
    requires a <= b && 0.0 <= x <= y
    ensures 0.0 <= Capped(a, x) <= Capped(b, y)
  {
    ProductMonotone(a as real, b as real, x, y);
  }

  lemma {:induction false} StepDownCovers(p: map<string, real>, ordered: seq<string>, j: nat, i: nat)
    requires j <= i < |ordered|
    ensures Capped(|ordered| - j, At(p, ordered[j])) <= StepDown(p, ordered, i)
  {
    if j < i { StepDownCovers(p, ordered, j, i - 1); }
  }

  /** The step that set the running maximum. */
  lemma {:induction false} StepDownAttained(p: map<string, real>, ordered: seq<string>, i: nat) returns (j: nat)
    requires i < |ordered| && At(p, ordered[0]) >= 0.0
    ensures j <= i && StepDown(p, ordered, i) == Capped(|ordered| - j, At(p, ordered[j]))
  {
    hide Capped;
    if i == 0 {
      CappedMonotone(|ordered|, |ordered|, At(p, ordered[0]), At(p, ordered[0]));
      return 0;
    }
    j := StepDownAttained(p, ordered, i - 1);
    if StepDown(p, ordered, i) != StepDown(p, ordered, i - 1) {
      j := i;
    }
  }

  lemma FirstIn(ordered: seq<string>, i: nat, s: set<string>) returns (j: nat)
    requires i < |ordered| && ordered[i] in s
    ensures j <= i && ordered[j] in s && forall k :: 0 <= k < j ==> ordered[k] !in s
  {
    j := 0;
    while ordered[j] !in s
      invariant 0 <= j <= i && forall k :: 0 <= k < j ==> ordered[k] !in s
      decreases i - j
    {
      j := j + 1;
    }
  }

  lemma SuffixCovers(ordered: seq<string>, j: nat, s: set<string>)
    requires j <= |ordered| && Distinct(ordered) && s <= ToSet(ordered)
    requires forall k :: 0 <= k < j ==> ordered[k] !in s
    ensures s <= ToSet(ordered[j..]) && |ToSet(ordered[j..])| == |ordered| - j
  {
    var rest := ordered[j..];
    ToSetSize(rest);
    forall x | x in s ensures x in rest {
      assert x in ToSet(ordered);
      var k :| 0 <= k < |ordered| && ordered[k] == x;
      assert rest[k - j] == x;
    }
  }

  lemma AllNonNegative(p: map<string, real>, ordered: seq<string>, x: string)
    requires Arranged(p, ordered)
    ensures At(p, x) >= 0.0
  {
  }

  lemma LeastOf(p: map<string, real>, s: set<string>, local: real) returns (x: string)
    requires LocalTest(p, s, local)
    ensures LeastIn(p, s, x) && x in p && local == Capped(|s|, At(p, x))
    ensures forall y :: y in s && y in p ==> At(p, x) <= At(p, y)
  {
    hide Capped;
    x :| LeastIn(p, s, x) && local == if |s| as real * p[x] <= 1.0 then |s| as real * p[x] else 1.0;
    CappedInPlain(|s|, p[x]);
  }

  /** No intersection hypothesis containing the `i`-th name has a larger local p. */
  lemma LocalBelowStep(p: map<string, real>, ordered: seq<string>, i: nat, s: set<string>, local: real)
    requires Arranged(p, ordered) && i < |ordered|
    requires s <= p.Keys && ordered[i] in s && LocalTest(p, s, local)
    ensures local <= StepDown(p, ordered, i)
  {
    hide Capped, StepDown, Sorted, At, LocalTest, ToSet;
    var j := FirstIn(ordered, i, s);
    SuffixCovers(ordered, j, s);
    SubsetSize(s, ToSet(ordered[j..]));
    var x := LeastOf(p, s, local);
    AllNonNegative(p, ordered, x);
    CappedMonotone(|s|, |ordered| - j, At(p, x), At(p, ordered[j]));
    StepDownCovers(p, ordered, j, i);
  }

  /** No name from the `j`-th on has a smaller p than the `j`-th. */
  lemma SuffixAbove(p: map<string, real>, ordered: seq<string>, j: nat, y: string)
    requires Arranged(p, ordered) && j < |ordered| && y in ordered[j..]
    ensures At(p, ordered[j]) <= At(p, y) && y in p.Keys
  {
    hide At;
    var k :| 0 <= k < |ordered[j..]| && ordered[j..][k] == y;
    assert ordered[j + k] in ToSet(ordered);
    assert k == 0 || ByP(p)(ordered[j], ordered[j + k]);
  }

  /** The suffix from the `j`-th name on is a hypothesis whose local p is the `j`-th step. */
  lemma SuffixLocal(p: map<string, real>, ordered: seq<string>, j: nat)
    requires Arranged(p, ordered) && j < |ordered|
    ensures ToSet(ordered[j..]) <= p.Keys
    ensures LocalTest(p, ToSet(ordered[j..]), Capped(|ordered| - j, At(p, ordered[j])))
  {
    hide Capped, At, Arranged;
    var rest := ordered[j..];
    SuffixSize(p, ordered, j);
    forall y | y in rest ensures At(p, ordered[j]) <= At(p, y) && y in p.Keys {
      SuffixAbove(p, ordered, j, y);
    }
    assert rest[0] == ordered[j];
    SuffixAbove(p, ordered, j, ordered[j]);
    LeastByAt(p, ToSet(rest), ordered[j]);
    LocalTestOf(p, ToSet(rest), ordered[j]);
  }

  lemma LeastByAt(p: map<string, real>, s: set<string>, x: string)
    requires x in s && x in p && forall y :: y in s ==> At(p, x) <= At(p, y)
    ensures LeastIn(p, s, x)
  {
  }

  lemma SuffixSize(p: map<string, real>, ordered: seq<string>, j: nat)
    requires Arranged(p, ordered) && j <= |ordered|
    ensures |ToSet(ordered[j..])| == |ordered| - j
  {
    hide Sorted;
    ToSetSize(ordered[j..]);
  }

  /** The running maximum is the closed test of each name in turn. */
  lemma StepIsClosedTest(p: map<string, real>, ordered: seq<string>, i: nat)
    requires Arranged(p, ordered) && i < |ordered|
    ensures ClosedTest(p, ordered[i], StepDown(p, ordered, i))
  {
    hide Capped, At, StepDown, LocalTest, Arranged, ToSet;
    forall s, local | s <= p.Keys && ordered[i] in s && LocalTest(p, s, local)
      ensures local <= StepDown(p, ordered, i)
    {
      LocalBelowStep(p, ordered, i, s, local);
    }
    AllNonNegative(p, ordered, ordered[0]);
    var j := StepDownAttained(p, ordered, i);
    SuffixLocal(p, ordered, j);
    InSuffix(ordered, j, i);
  }

  lemma InSuffix(ordered: seq<string>, j: nat, i: nat)
    requires j <= i < |ordered|
    ensures ordered[i] in ToSet(ordered[j..])
  {
    assert ordered[j..][i - j] == ordered[i];
  }

  lemma SortArranges(p: map<string, real>, names: seq<string>)
    requires Distinct(names) && ToSet(names) == p.Keys
    requires forall x :: x in p ==> p[x] >= 0.0
    ensures Arranged(p, Sort(ByP(p), names)) && ToSet(Sort(ByP(p), names)) == p.Keys
  {
    var ordered := Sort(ByP(p), names);
    SortSorts(ByP(p), names);
    DistinctByMultiset(names, ordered);
    assert forall x :: x in ordered <==> x in multiset(ordered);
    assert forall x :: x in names <==> x in multiset(names);
  }

  /** `holm`: the dictionary's names in insertion order, and their raw p-values. */
  method Adjust(names: seq<string>, p: map<string, real>) returns (result: map<string, real>)
    requires Distinct(names) && ToSet(names) == p.Keys
    requires forall x :: x in p ==> p[x] >= 0.0
    ensures result.Keys == p.Keys
    ensures forall name :: name in p ==> ClosedTest(p, name, result[name])
  {
    hide Capped, Sort, ClosedTest, Arranged, StepDown, ToSet, At, Distinct, Max;
    result := map[];
    var previous := 0.0;
    var ordered := Sort(ByP(p), names);
    SortArranges(p, names);
    NoMembers(ordered);
    var index := 0;
    while index < |ordered|
      invariant 0 <= index <= |ordered|
      invariant previous == if index == 0 then 0.0 else StepDown(p, ordered, index - 1)
      invariant result.Keys == ToSet(ordered[..index])
      invariant forall i :: 0 <= i < index ==> ordered[i] in result && result[ordered[i]] == StepDown(p, ordered, i)
    {
      var name := ordered[index];
      NextName(p, ordered, index);
      previous := Max(previous, Capped(|ordered| - index, p[name]));
      result := result[name := previous];
      index := index + 1;
    }
    assert ordered[..index] == ordered;
    forall name | name in p ensures ClosedTest(p, name, result[name]) {
      var i := Position(ordered, name);
      StepIsClosedTest(p, ordered, i);
    }
  }

  lemma NoMembers(ordered: seq<string>)
    ensures ToSet(ordered[..0]) == {}
  {
  }

  lemma Position(ordered: seq<string>, name: string) returns (i: nat)
    requires name in ToSet(ordered)
    ensures i < |ordered| && ordered[i] == name
  {
    i :| 0 <= i < |ordered| && ordered[i] == name;
  }

  lemma NextName(p: map<string, real>, ordered: seq<string>, k: nat)
    requires Arranged(p, ordered) && k < |ordered|
    ensures ordered[k] in p && At(p, ordered[k]) == p[ordered[k]]
    ensures ToSet(ordered[..k + 1]) == ToSet(ordered[..k]) + {ordered[k]}
    ensures forall i :: 0 <= i < k ==> ordered[i] != ordered[k]
    ensures StepDown(p, ordered, k) ==
            Max(if k == 0 then 0.0 else StepDown(p, ordered, k - 1), Capped(|ordered| - k, p[ordered[k]]))
  {
    hide Capped, StepDown, Sorted, Max, ByP;
    assert ordered[k] in ToSet(ordered);
    assert ordered[..k + 1] == ordered[..k] + [ordered[k]];
    NextStep(p, ordered, k);
  }

  lemma NextStep(p: map<string, real>, ordered: seq<string>, k: nat)
    requires k < |ordered|
    ensures StepDown(p, ordered, k) ==
            Max(if k == 0 then 0.0 else StepDown(p, ordered, k - 1), Capped(|ordered| - k, At(p, ordered[k])))
  {
    hide Capped, Max, At;
  }

  /** An adjusted p is at least the raw one, at most one, and at most Bonferroni's multiple of it. */
  lemma ClosedTestBounds(p: map<string, real>, name: string, value: real)
    requires ClosedTest(p, name, value) && name in p && forall x :: x in p ==> p[x] >= 0.0
    ensures (if p[name] <= 1.0 then p[name] else 1.0) <= value <= 1.0
    ensures value <= |p| as real * p[name]
  {
    hide Capped, LocalTest, At, LeastIn;
    LocalTestOfOne(p, name);
    var s :| s <= p.Keys && name in s && LocalTest(p, s, value);
    var x := LeastOf(p, s, value);
    SubsetSize(s, p.Keys);
    NonNegativeAt(p, x);
    NamedAt(p, name);
    CappedMonotone(|s|, |p.Keys|, At(p, x), At(p, name));
    CappedInPlain(|p.Keys|, p[name]);
    assert |p.Keys| == |p|;
  }

  lemma LocalTestOfOne(p: map<string, real>, name: string)
    requires name in p
    ensures LocalTest(p, {name}, if p[name] <= 1.0 then p[name] else 1.0)
  {
    assert LeastIn(p, {name}, name);
    LocalTestOf(p, {name}, name);
    assert |{name}| as real * p[name] == p[name];
  }

  lemma NamedAt(p: map<string, real>, name: string)
    requires name in p
    ensures At(p, name) == p[name]
  {
  }

  lemma CappedInPlain(k: nat, least: real)
    ensures Capped(k, least) == if k as real * least <= 1.0 then k as real * least else 1.0
  {
  }

  /** The smallest p is multiplied by the number of names, and capped at one. */
  lemma SmallestIsBonferroni(p: map<string, real>, name: string, value: real)
    requires ClosedTest(p, name, value) && LeastIn(p, p.Keys, name) && forall x :: x in p ==> p[x] >= 0.0
    ensures value == if |p| as real * p[name] <= 1.0 then |p| as real * p[name] else 1.0
  {
    ClosedTestBounds(p, name, value);
    hide Capped, LocalTest, At;
    assert |p.Keys| == |p|;
    LocalTestOf(p, p.Keys, name);
  }

  /** A name whose p is no smaller than a member's leaves the least member least. */
  lemma LeastWithLarger(p: map<string, real>, s: set<string>, x: string, a: string, b: string)
    requires LeastIn(p, s, x) && a in s && a in p && b in p && p[a] <= p[b]
    ensures LeastIn(p, s + {b}, x)
  {
    assert p[x] <= p[a] <= p[b];
  }

  /** The adjustment never reorders raw p-values, and equal ones stay equal. */
  lemma ClosedTestMonotone(p: map<string, real>, a: string, b: string, u: real, v: real)
    requires ClosedTest(p, a, u) && ClosedTest(p, b, v) && a in p && b in p && p[a] <= p[b]
    requires forall x :: x in p ==> p[x] >= 0.0
    ensures u <= v
  {
    hide Capped, LeastIn, LocalTest, At;
    var s :| s <= p.Keys && a in s && LocalTest(p, s, u);
    var x := LeastOf(p, s, u);
    LeastWithLarger(p, s, x, a, b);
    SubsetSize(s, s + {b});
    NonNegativeAt(p, x);
    CappedMonotone(|s|, |s + {b}|, At(p, x), At(p, x));
    LocalTestOf(p, s + {b}, x);
  }

  lemma NonNegativeAt(p: map<string, real>, x: string)
    requires forall y :: y in p ==> p[y] >= 0.0
    ensures At(p, x) >= 0.0
  {
  }

  lemma LocalTestOf(p: map<string, real>, s: set<string>, x: string)
    requires LeastIn(p, s, x)
    ensures LocalTest(p, s, Capped(|s|, At(p, x)))
    ensures LocalTest(p, s, if |s| as real * p[x] <= 1.0 then |s| as real * p[x] else 1.0)
  {
    CappedInPlain(|s|, p[x]);
  }
}
