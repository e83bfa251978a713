/**
 The paired tests of the robustness report: the sign-flip permutation p over
 topic clusters, and the exact McNemar p over rows.
 */
module PairedTests {
  import opened Binomials
  import Orders

  /** A compared row: its cluster, the expected route, and the routes of both arms. */
  datatype PairedRow = PairedRow(dataset: string, group: string, expected: string, rule: string, arm: string) {
    function Key(): (string, string) { (dataset, group) }
    predicate Improved() { arm == expected && expected != rule }
    predicate Regressed() { rule == expected && expected != arm }
    function Gain(): int {
      (if arm == expected then 1 else 0) - (if rule == expected then 1 else 0)
    }
  }

  function Improved(rows: seq<PairedRow>): nat { Orders.Count((r: PairedRow) => r.Improved(), rows) }

  function Regressed(rows: seq<PairedRow>): nat { Orders.Count((r: PairedRow) => r.Regressed(), rows) }

  /** `exact_p`, and `mcnemar_exact` of the offline analysis, which is the same function. */
  function ExactP(improved: nat, regressed: nat): real {
    var count := improved + regressed;
    if count == 0 then 1.0
    else
      var tail := Tail(count, (if improved <= regressed then improved else regressed) + 1);
      var p := (2 * tail) as real / Pow2(count) as real;
      if p <= 1.0 then p else 1.0
  }

  /** All sign patterns of a length, in the order `itertools.product` yields them. */
  function SignPatterns(n: nat): seq<seq<int>> {
    if n == 0 then [[]]
    else Prepend(-1, SignPatterns(n - 1)) + Prepend(1, SignPatterns(n - 1))
  }

  function Prepend(x: int, patterns: seq<seq<int>>): (r: seq<seq<int>>)
    ensures |r| == |patterns| && forall i :: 0 <= i < |r| ==> r[i] == [x] + patterns[i]
  {
    seq(|patterns|, i requires 0 <= i < |patterns| => [x] + patterns[i])
  }

  function Dot(signs: seq<int>, ds: seq<int>): int
    requires |signs| == |ds|
  {
    if ds == [] then 0 else signs[0] * ds[0] + Dot(signs[1..], ds[1..])
  }

  function SumOf(ds: seq<int>): int {
    if ds == [] then 0 else ds[0] + SumOf(ds[1..])
  }

  /** Patterns whose signed sum, started at `from`, reaches the bar in absolute value. */
  function CountExtreme(patterns: seq<seq<int>>, ds: seq<int>, from: int, bar: nat): nat
    requires forall s :: s in patterns ==> |s| == |ds|
  {
    if patterns == [] then 0
    else Hit(from + Dot(patterns[0], ds), bar) + CountExtreme(patterns[1..], ds, from, bar)
  }

  lemma {:induction false} PatternLengths(n: nat)
    ensures |SignPatterns(n)| == Pow2(n) && forall s :: s in SignPatterns(n) ==> |s| == n
  {
    if n > 0 { PatternLengths(n - 1); }
  }

  lemma {:induction false} CountConcat(a: seq<seq<int>>, b: seq<seq<int>>, ds: seq<int>, from: int, bar: nat)
    requires forall s :: s in a + b ==> |s| == |ds|
    ensures CountExtreme(a + b, ds, from, bar) == CountExtreme(a, ds, from, bar) + CountExtreme(b, ds, from, bar)
  {
    if a == [] {
      assert a + b == b;
    } else {
      assert (a + b)[1..] == a[1..] + b;
      CountConcat(a[1..], b, ds, from, bar);
    }
  }

  lemma {:induction false} CountPrepended(x: int, patterns: seq<seq<int>>, ds: seq<int>, from: int, bar: nat)
    requires |ds| > 0 && forall s :: s in patterns ==> |s| == |ds| - 1
    ensures forall s :: s in Prepend(x, patterns) ==> |s| == |ds|
    ensures CountExtreme(Prepend(x, patterns), ds, from, bar) == CountExtreme(patterns, ds[1..], from + x * ds[0], bar)
  {
    if patterns != [] {
      CountPrepended(x, patterns[1..], ds, from, bar);
      assert Prepend(x, patterns)[1..] == Prepend(x, patterns[1..]);
      assert ([x] + patterns[0])[1..] == patterns[0];
    }
  }

  /** The differences of one-row clusters: a gain, a loss or a tie. */
  ghost predicate UnitSteps(ds: seq<int>) {
    forall d :: d in ds ==> -1 <= d <= 1
  }

  function Moves(ds: seq<int>): (m: nat)
    ensures m <= |ds|
  {
    if ds == [] then 0 else (if ds[0] == 0 then 0 else 1) + Moves(ds[1..])
  }

  lemma FirstSign(n: nat)
    requires n > 0
    ensures SignPatterns(n) == Prepend(-1, SignPatterns(n - 1)) + Prepend(1, SignPatterns(n - 1))
  {
  }

  /** Splitting on the first sign. */
  lemma CountSplits(ds: seq<int>, from: int, bar: nat)
    requires |ds| > 0
    ensures forall s :: s in SignPatterns(|ds|) ==> |s| == |ds|
    ensures forall s :: s in SignPatterns(|ds| - 1) ==> |s| == |ds| - 1
    ensures CountExtreme(SignPatterns(|ds|), ds, from, bar) ==
            CountExtreme(SignPatterns(|ds| - 1), ds[1..], from - ds[0], bar)
            + CountExtreme(SignPatterns(|ds| - 1), ds[1..], from + ds[0], bar)
  {
    hide CountExtreme, SignPatterns, Pow2, Prepend;
    FirstSign(|ds|);
    PatternLengths(|ds|);
    PatternLengths(|ds| - 1);
    CountBothSigns(SignPatterns(|ds| - 1), ds, from, bar);
  }

  lemma CountBothSigns(ps: seq<seq<int>>, ds: seq<int>, from: int, bar: nat)
    requires |ds| > 0 && forall s :: s in ps ==> |s| == |ds| - 1
    ensures forall s :: s in Prepend(-1, ps) + Prepend(1, ps) ==> |s| == |ds|
    ensures CountExtreme(Prepend(-1, ps) + Prepend(1, ps), ds, from, bar) ==
            CountExtreme(ps, ds[1..], from - ds[0], bar) + CountExtreme(ps, ds[1..], from + ds[0], bar)
  {
    hide CountExtreme, Prepend;
    CountPrepended(-1, ps, ds, from, bar);
    CountPrepended(1, ps, ds, from, bar);
    CountConcat(Prepend(-1, ps), Prepend(1, ps), ds, from, bar);
  }

  /** Ties only double the count; every other step is a fair coin whatever its sign. */
  lemma {:induction false} UnitStepsAreWalks(ds: seq<int>, from: int, bar: nat)
    requires UnitSteps(ds)
    ensures forall s :: s in SignPatterns(|ds|) ==> |s| == |ds|
    ensures CountExtreme(SignPatterns(|ds|), ds, from, bar) == Pow2(|ds| - Moves(ds)) * Walks(Moves(ds), from, bar)
  {
    hide SignPatterns, CountExtreme, UnitSteps, Pow2, Walks;
    if ds == [] {
      NoStepsCount(from, bar);
    } else {
      CountSplits(ds, from, bar);
      UnitStepsTail(ds);
      UnitStepsAreWalks(ds[1..], from - ds[0], bar);
      UnitStepsAreWalks(ds[1..], from + ds[0], bar);
      OneStep(|ds| - 1 - Moves(ds[1..]), Moves(ds[1..]), from, ds[0], bar);
    }
  }

  lemma UnitStepsTail(ds: seq<int>)
    requires UnitSteps(ds) && |ds| > 0
    ensures UnitSteps(ds[1..]) && -1 <= ds[0] <= 1
  {
    assert ds[0] in ds && forall d :: d in ds[1..] ==> d in ds;
  }

  lemma OneStep(ties: nat, m: nat, from: int, d: int, bar: nat)
    requires -1 <= d <= 1
    ensures Pow2(ties) * Walks(m, from - d, bar) + Pow2(ties) * Walks(m, from + d, bar) ==
            if d == 0 then Pow2(ties + 1) * Walks(m, from, bar) else Pow2(ties) * Walks(m + 1, from, bar)
  {
    var p := Pow2(ties);
    Distribute(p, Walks(m, from - d, bar), Walks(m, from + d, bar));
    Distribute(Walks(m, from, bar), p, p);
  }

  lemma NoStepsCount(from: int, bar: nat)
    ensures SignPatterns(0) == [[]] && CountExtreme(SignPatterns(0), [], from, bar) == Hit(from, bar)
    ensures Pow2(0) * Walks(0, from, bar) == Hit(from, bar)
  {
    assert SignPatterns(0)[1..] == [];
  }

  lemma Distribute(p: nat, x: nat, y: nat)
    ensures p * x + p * y == p * (x + y) == (x + y) * p
  {
  }

  lemma {:induction false} Pow2Adds(a: nat, b: nat)
    ensures Pow2(a + b) == Pow2(a) * Pow2(b)
  {
    if a > 0 {
      Pow2Adds(a - 1, b);
      Regroup(Pow2(a - 1), Pow2(b));
      assert Pow2(a - 1 + b) == Pow2(a - 1) * Pow2(b);
    }
  }

  lemma Regroup(x: nat, y: nat)
    ensures 2 * x * y == 2 * (x * y)
  {
  }

  function PermutationP(ds: seq<int>): real {
    PatternLengths(|ds|);
    CountExtreme(SignPatterns(|ds|), ds, 0, Abs(SumOf(ds))) as real / Pow2(|ds|) as real
  }

  lemma CancelFactor(p: nat, x: nat, q: nat)
    requires p > 0 && q > 0
    ensures p * q > 0 && (p * x) as real / (p * q) as real == x as real / q as real
  {
    var a, b, c := p as real, x as real, q as real;
    assert (p * x) as real == a * b && (p * q) as real == a * c;
    var r := b / c;
    assert a * b == a * (r * c) == r * (a * c);
  }

  lemma RatioBound(x: nat, q: nat)
    requires q > 0
    ensures x <= q ==> x as real / q as real <= 1.0
    ensures x >= q ==> x as real / q as real >= 1.0
    ensures x == q ==> x as real / q as real == 1.0
  {
  }

  /** Over unit steps the permutation p depends on the gains and losses alone, as McNemar's does. */
  lemma UnitStepsGiveExactP(ds: seq<int>, gains: nat, losses: nat)
    requires UnitSteps(ds) && Moves(ds) == gains + losses && SumOf(ds) == gains - losses
    ensures PermutationP(ds) == ExactP(gains, losses)
  {
    hide SignPatterns, CountExtreme, Walks, Tail, Pow2, UnitSteps, Moves, SumOf;
    var m, lo := gains + losses, if gains <= losses then gains else losses;
    var walks := Walks(m, 0, Abs(gains - losses));
    UnitStepsAreWalks(ds, 0, Abs(gains - losses));
    Pow2Adds(|ds| - m, m);
    CancelFactor(Pow2(|ds| - m), walks, Pow2(m));
    assert PermutationP(ds) == walks as real / Pow2(m) as real;
    ExtremeWalks(gains, losses);
    RatioBound(walks, Pow2(m));
    RatioBound(2 * Tail(m, lo + 1), Pow2(m));
  }

  /** Keys in the order a dictionary first met them. */
  function FirstSeen<K(==)>(keys: seq<K>): seq<K> {
    if keys == [] then []
    else
      var front, last := FirstSeen(keys[..|keys| - 1]), keys[|keys| - 1];
      if last in keys[..|keys| - 1] then front else front + [last]
  }

  function Keys(rows: seq<PairedRow>): seq<(string, string)> {
    if rows == [] then [] else Keys(rows[..|rows| - 1]) + [rows[|rows| - 1].Key()]
  }

  /** The net gain of one cluster. */
  function BlockGain(rows: seq<PairedRow>, key: (string, string)): int {
    if rows == [] then 0
    else BlockGain(rows[..|rows| - 1], key) + if rows[|rows| - 1].Key() == key then rows[|rows| - 1].Gain() else 0
  }

  /** The clusters, in order of first appearance, as (dataset, net gain). */
  function Blocks(rows: seq<PairedRow>, keys: seq<(string, string)>): seq<(string, int)> {
    if keys == [] then []
    else Blocks(rows, keys[..|keys| - 1]) + [(keys[|keys| - 1].0, BlockGain(rows, keys[|keys| - 1]))]
  }

  function Datasets(blocks: seq<(string, int)>): seq<string> {
    if blocks == [] then [] else Datasets(blocks[..|blocks| - 1]) + [blocks[|blocks| - 1].0]
  }

  function GainsOf(blocks: seq<(string, int)>, dataset: string): seq<int> {
    if blocks == [] then []
    else GainsOf(blocks[..|blocks| - 1], dataset)
         + if blocks[|blocks| - 1].0 == dataset then [blocks[|blocks| - 1].1] else []
  }

  function ByStratum(blocks: seq<(string, int)>, strata: seq<string>): seq<int> {
    if strata == [] then [] else ByStratum(blocks, strata[..|strata| - 1]) + GainsOf(blocks, strata[|strata| - 1])
  }

  /** The list of cluster differences the permutation test is run on. */
  function Differences(rows: seq<PairedRow>): seq<int> {
    var blocks := Blocks(rows, FirstSeen(Keys(rows)));
    ByStratum(blocks, FirstSeen(Datasets(blocks)))
  }

  /** No two rows agree in both dataset and topic group. */
  ghost predicate OneRowClusters(rows: seq<PairedRow>) {
    forall i, j :: 0 <= i < j < |rows| ==> rows[i].dataset != rows[j].dataset || rows[i].group != rows[j].group
  }

  /** Over the rows of one dataset and group: how often the arm was right, less how often the rule was. */
  function NetGain(rows: seq<PairedRow>, dataset: string, group: string): int {
    |set i | 0 <= i < |rows| && rows[i].dataset == dataset && rows[i].group == group
             && rows[i].arm == rows[i].expected|
    - |set i | 0 <= i < |rows| && rows[i].dataset == dataset && rows[i].group == group
               && rows[i].rule == rows[i].expected|
  }

  function Gains(rows: seq<PairedRow>): seq<int> {
    if rows == [] then [] else Gains(rows[..|rows| - 1]) + [rows[|rows| - 1].Gain()]
  }

  lemma {:induction false} FirstSeenMembers<K>(keys: seq<K>)
    ensures forall k :: k in FirstSeen(keys) <==> k in keys
    ensures forall i, j :: 0 <= i < j < |FirstSeen(keys)| ==> FirstSeen(keys)[i] != FirstSeen(keys)[j]
  {
    if keys != [] {
      FirstSeenMembers(keys[..|keys| - 1]);
      assert keys == keys[..|keys| - 1] + [keys[|keys| - 1]];
    }
  }

  lemma {:induction false} StratumIgnores(blocks: seq<(string, int)>, b: (string, int), strata: seq<string>)
    requires b.0 !in strata
    ensures ByStratum(blocks + [b], strata) == ByStratum(blocks, strata)
  {
    if strata != [] {
      StratumIgnores(blocks, b, strata[..|strata| - 1]);
      assert (blocks + [b])[..|blocks|] == blocks;
    }
  }

  /** One more block adds one difference to its own stratum. */
  lemma {:induction false} StratumAdds(blocks: seq<(string, int)>, b: (string, int), strata: seq<string>)
    requires b.0 in strata
    requires forall i, j :: 0 <= i < j < |strata| ==> strata[i] != strata[j]
    ensures multiset(ByStratum(blocks + [b], strata)) == multiset(ByStratum(blocks, strata)) + multiset{b.1}
  {
    var front, last := strata[..|strata| - 1], strata[|strata| - 1];
    assert (blocks + [b])[..|blocks|] == blocks;
    if last == b.0 {
      StratumIgnores(blocks, b, front);
      assert GainsOf(blocks + [b], last) == GainsOf(blocks, last) + [b.1];
    } else {
      assert strata == front + [last];
      StratumAdds(blocks, b, front);
      assert GainsOf(blocks + [b], last) == GainsOf(blocks, last);
    }
  }

  lemma LastKey(front: seq<(string, int)>, b: (string, int))
    ensures var names := Datasets(front);
            Datasets(front + [b]) == names + [b.0]
            && FirstSeen(names + [b.0]) == if b.0 in names then FirstSeen(names) else FirstSeen(names) + [b.0]
  {
    assert (front + [b])[..|front|] == front;
    assert (Datasets(front) + [b.0])[..|Datasets(front)|] == Datasets(front);
  }

  /** A dataset not met before gets a stratum of its own, at the end. */
  lemma NewStratum(front: seq<(string, int)>, b: (string, int), strata: seq<string>)
    requires b.0 !in strata && b.0 !in Datasets(front)
    ensures ByStratum(front + [b], strata + [b.0]) == ByStratum(front, strata) + [b.1]
  {
    assert (strata + [b.0])[..|strata|] == strata && (front + [b])[..|front|] == front;
    StratumIgnores(front, b, strata);
    NoGains(front, b.0);
    assert GainsOf(front + [b], b.0) == [] + [b.1];
  }

  lemma ReorderStep(front: seq<(string, int)>, b: (string, int))
    ensures var before, after := FirstSeen(Datasets(front)), FirstSeen(Datasets(front + [b]));
            multiset(ByStratum(front + [b], after)) == multiset(ByStratum(front, before)) + multiset{b.1}
  {
    hide ByStratum, FirstSeen, Datasets;
    LastKey(front, b);
    FirstSeenMembers(Datasets(front));
    if b.0 in Datasets(front) {
      StratumAdds(front, b, FirstSeen(Datasets(front)));
    } else {
      NewStratum(front, b, FirstSeen(Datasets(front)));
    }
  }

  /** Regrouping by dataset reorders the differences and does nothing else. */
  lemma {:induction false} StrataReorder(blocks: seq<(string, int)>)
    ensures multiset(ByStratum(blocks, FirstSeen(Datasets(blocks)))) == multiset(Seconds(blocks))
  {
    if blocks != [] {
      hide ByStratum, FirstSeen, Datasets;
      var front, b := blocks[..|blocks| - 1], blocks[|blocks| - 1];
      assert blocks == front + [b];
      StrataReorder(front);
      ReorderStep(front, b);
    }
  }

  function Seconds(blocks: seq<(string, int)>): seq<int> {
    if blocks == [] then [] else Seconds(blocks[..|blocks| - 1]) + [blocks[|blocks| - 1].1]
  }

  lemma {:induction false} NoGains(blocks: seq<(string, int)>, dataset: string)
    requires dataset !in Datasets(blocks)
    ensures GainsOf(blocks, dataset) == []
  {
    if blocks != [] { NoGains(blocks[..|blocks| - 1], dataset); }
  }

  lemma {:induction false} KeysInOrder(rows: seq<PairedRow>)
    ensures |Keys(rows)| == |rows|
    ensures forall i :: 0 <= i < |rows| ==> Keys(rows)[i] == rows[i].Key()
  {
    if rows != [] { KeysInOrder(rows[..|rows| - 1]); }
  }

  lemma {:induction false} DistinctFirstSeen<K>(keys: seq<K>)
    requires Orders.Distinct(keys)
    ensures FirstSeen(keys) == keys
  {
    if keys != [] {
      var n := |keys| - 1;
      DistinctFirstSeen(keys[..n]);
      assert forall i :: 0 <= i < n ==> keys[i] != keys[n];
      assert keys == keys[..n] + [keys[n]];
    }
  }

  lemma DistinctKeysFirstSeen(rows: seq<PairedRow>)
    requires OneRowClusters(rows)
    ensures FirstSeen(Keys(rows)) == Keys(rows) && |Keys(rows)| == |rows|
    ensures forall i :: 0 <= i < |rows| ==> Keys(rows)[i] == rows[i].Key()
  {
    hide FirstSeen, Keys;
    KeysInOrder(rows);
    forall i, j | 0 <= i < j < |rows| ensures Keys(rows)[i] != Keys(rows)[j] {
      assert rows[i].Key() != rows[j].Key();
    }
    DistinctFirstSeen(Keys(rows));
  }

  lemma {:induction false} ForeignBlock(rows: seq<PairedRow>, key: (string, string))
    requires forall r :: r in rows ==> r.Key() != key
    ensures BlockGain(rows, key) == 0
  {
    if rows != [] { ForeignBlock(rows[..|rows| - 1], key); }
  }

  lemma {:induction false} OwnBlock(rows: seq<PairedRow>, i: nat)
    requires OneRowClusters(rows) && i < |rows|
    ensures BlockGain(rows, rows[i].Key()) == rows[i].Gain()
  {
    var front := rows[..|rows| - 1];
    if i == |rows| - 1 {
      ForeignBlock(front, rows[i].Key());
    } else {
      OwnBlock(front, i);
    }
  }

  lemma {:induction false} BlocksAreRows(rows: seq<PairedRow>, n: nat)
    requires OneRowClusters(rows) && n <= |rows|
    ensures |Keys(rows)| == |rows|
    ensures Seconds(Blocks(rows, Keys(rows)[..n])) == Gains(rows[..n])
  {
    hide Keys, FirstSeen, BlockGain;
    DistinctKeysFirstSeen(rows);
    if n > 0 {
      BlocksAreRows(rows, n - 1);
      OwnBlock(rows, n - 1);
      assert Keys(rows)[..n][..n - 1] == Keys(rows)[..n - 1];
      assert rows[..n][..n - 1] == rows[..n - 1];
    }
  }

  lemma {:induction false} TakenSums(ds: seq<int>, j: nat)
    requires j < |ds|
    ensures var rest := ds[..j] + ds[j + 1..];
            SumOf(ds) == SumOf(rest) + ds[j] && Moves(ds) == Moves(rest) + (if ds[j] == 0 then 0 else 1)
  {
    var rest := ds[..j] + ds[j + 1..];
    if j == 0 {
      assert rest == ds[1..];
    } else {
      TakenSums(ds[1..], j - 1);
      assert rest[0] == ds[0] && rest[1..] == ds[1..][..j - 1] + ds[1..][j..];
    }
  }

  lemma TakeOut(ds: seq<int>, j: nat)
    requires j < |ds|
    ensures var rest := ds[..j] + ds[j + 1..];
            SumOf(ds) == SumOf(rest) + ds[j] && Moves(ds) == Moves(rest) + (if ds[j] == 0 then 0 else 1)
            && multiset(rest) == multiset(ds) - multiset{ds[j]} && |rest| == |ds| - 1
  {
    hide SumOf, Moves;
    TakenSums(ds, j);
    assert ds == ds[..j] + [ds[j]] + ds[j + 1..];
  }

  /** Sum and moves do not see the order of the differences. */
  lemma {:induction false} OrderIrrelevant(a: seq<int>, b: seq<int>)
    requires multiset(a) == multiset(b)
    ensures SumOf(a) == SumOf(b) && Moves(a) == Moves(b) && |a| == |b|
  {
    hide SumOf, Moves;
    assert |multiset(a)| == |multiset(b)|;
    if a != [] {
      assert a[0] in multiset(b);
      var j :| 0 <= j < |b| && b[j] == a[0];
      var ra, rb := a[..0] + a[1..], b[..j] + b[j + 1..];
      TakeOut(a, 0);
      TakeOut(b, j);
      OrderIrrelevant(ra, rb);
    } else {
      assert b == [];
    }
  }

  lemma {:induction false} AppendStep(ds: seq<int>, d: int)
    ensures SumOf(ds + [d]) == SumOf(ds) + d && Moves(ds + [d]) == Moves(ds) + (if d == 0 then 0 else 1)
  {
    if ds != [] {
      AppendStep(ds[1..], d);
      assert (ds + [d])[1..] == ds[1..] + [d];
    }
  }

  lemma {:induction false} GainsCount(rows: seq<PairedRow>)
    ensures SumOf(Gains(rows)) == Improved(rows) - Regressed(rows)
    ensures Moves(Gains(rows)) == Improved(rows) + Regressed(rows)
    ensures UnitSteps(Gains(rows))
  {
    if rows != [] {
      var front := rows[..|rows| - 1];
      GainsCount(front);
      AppendStep(Gains(front), rows[|rows| - 1].Gain());
    }
  }

  /**
   With one row in every topic cluster the sign-flip permutation p is the exact
   McNemar p of the same rows, for any numbers of gains, losses and ties.
   */
  lemma PermutationIsMcNemar(rows: seq<PairedRow>)
    requires OneRowClusters(rows)
    ensures PermutationP(Differences(rows)) == ExactP(Improved(rows), Regressed(rows))
  {
    hide PermutationP, ExactP, UnitSteps, Improved, Regressed;
    var ds := Differences(rows);
    DifferencesAreGains(rows);
    OrderIrrelevant(ds, Gains(rows));
    GainsCount(rows);
    UnitStepsReorder(Gains(rows), ds);
    UnitStepsGiveExactP(ds, Improved(rows), Regressed(rows));
  }

  lemma DifferencesAreGains(rows: seq<PairedRow>)
    requires OneRowClusters(rows)
    ensures multiset(Differences(rows)) == multiset(Gains(rows))
  {
    DistinctKeysFirstSeen(rows);
    BlocksAreRows(rows, |rows|);
    assert Keys(rows)[..|rows|] == Keys(rows) && rows[..|rows|] == rows;
    StrataReorder(Blocks(rows, Keys(rows)));
  }

  lemma UnitStepsReorder(a: seq<int>, b: seq<int>)
    requires UnitSteps(a) && multiset(a) == multiset(b)
    ensures UnitSteps(b)
  {
    forall d | d in b ensures -1 <= d <= 1 {
      assert d in multiset(b) && d in multiset(a) && d in a;
    }
  }

  function ArmRight(dataset: string, group: string): PairedRow -> bool {
    (r: PairedRow) => r.dataset == dataset && r.group == group && r.arm == r.expected
  }

  function RuleRight(dataset: string, group: string): PairedRow -> bool {
    (r: PairedRow) => r.dataset == dataset && r.group == group && r.rule == r.expected
  }

  lemma {:induction false} BlockGainCounts(rows: seq<PairedRow>, dataset: string, group: string)
    ensures BlockGain(rows, (dataset, group)) ==
            Orders.Count(ArmRight(dataset, group), rows) - Orders.Count(RuleRight(dataset, group), rows)
  {
    if rows != [] { BlockGainCounts(rows[..|rows| - 1], dataset, group); }
  }

  lemma BlockGainIsNet(rows: seq<PairedRow>, dataset: string, group: string)
    ensures BlockGain(rows, (dataset, group)) == NetGain(rows, dataset, group)
  {
    hide BlockGain;
    BlockGainCounts(rows, dataset, group);
    Orders.CountsPlaces(ArmRight(dataset, group), rows);
    Orders.CountsPlaces(RuleRight(dataset, group), rows);
    assert Orders.Places(ArmRight(dataset, group), rows)
        == set i | 0 <= i < |rows| && rows[i].dataset == dataset && rows[i].group == group
                   && rows[i].arm == rows[i].expected;
    assert Orders.Places(RuleRight(dataset, group), rows)
        == set i | 0 <= i < |rows| && rows[i].dataset == dataset && rows[i].group == group
                   && rows[i].rule == rows[i].expected;
  }

  lemma {:induction false} SecondsOfBlocks(rows: seq<PairedRow>, keys: seq<(string, string)>)
    ensures |Seconds(Blocks(rows, keys))| == |keys|
    ensures forall k :: 0 <= k < |keys| ==> Seconds(Blocks(rows, keys))[k] == BlockGain(rows, keys[k])
  {
    hide BlockGain;
    if keys != [] { SecondsOfBlocks(rows, keys[..|keys| - 1]); }
  }

  function NetGains(rows: seq<PairedRow>, clusters: seq<(string, string)>): seq<int> {
    seq(|clusters|, k requires 0 <= k < |clusters| => NetGain(rows, clusters[k].0, clusters[k].1))
  }

  ghost predicate Occurs(rows: seq<PairedRow>, dataset: string, group: string) {
    exists i :: 0 <= i < |rows| && rows[i].dataset == dataset && rows[i].group == group
  }

  lemma KeysOccur(rows: seq<PairedRow>)
    ensures forall d, g :: (d, g) in Keys(rows) <==> Occurs(rows, d, g)
  {
    hide Keys;
    KeysInOrder(rows);
    forall d, g ensures (d, g) in Keys(rows) <==> Occurs(rows, d, g) {
      if (d, g) in Keys(rows) {
        var i :| 0 <= i < |rows| && Keys(rows)[i] == (d, g);
        assert rows[i].Key() == (d, g);
      }
      if Occurs(rows, d, g) {
        var i :| 0 <= i < |rows| && rows[i].dataset == d && rows[i].group == g;
        assert Keys(rows)[i] == (d, g);
      }
    }
  }

  /**
   Whatever the rows, the differences are the net gains of the distinct pairs of dataset and group
   that occur in them, one for each: two rows fall into one difference exactly when both fields agree.
   */
  lemma DifferencesByCluster(rows: seq<PairedRow>) returns (clusters: seq<(string, string)>)
    ensures forall j, k :: 0 <= j < k < |clusters| ==> clusters[j] != clusters[k]
    ensures forall d, g :: (d, g) in clusters <==> Occurs(rows, d, g)
    ensures multiset(Differences(rows)) == multiset(NetGains(rows, clusters))
  {
    hide NetGain, BlockGain, FirstSeen, Keys, Blocks, ByStratum, Seconds, Occurs, Datasets;
    KeysOccur(rows);
    clusters := FirstSeen(Keys(rows));
    FirstSeenMembers(Keys(rows));
    StrataReorder(Blocks(rows, clusters));
    SecondsOfBlocks(rows, clusters);
    forall k | 0 <= k < |clusters| ensures NetGains(rows, clusters)[k] == Seconds(Blocks(rows, clusters))[k] {
      BlockGainIsNet(rows, clusters[k].0, clusters[k].1);
    }
    assert NetGains(rows, clusters) == Seconds(Blocks(rows, clusters));
  }

  /** The dictionary of clusters, filled row by row; here with each cluster's net gain. */
  method GroupRows(rows: seq<PairedRow>) returns (order: seq<(string, string)>, groups: map<(string, string), int>)
    ensures order == FirstSeen(Keys(rows))
    ensures forall k :: k in order <==> k in groups
    ensures forall k :: k in groups ==> groups[k] == BlockGain(rows, k)
  {
    hide Keys, FirstSeen, BlockGain;
    order, groups := [], map[];
    NothingSeen(rows);
    var i := 0;
    while i < |rows|
      invariant 0 <= i <= |rows|
      invariant order == FirstSeen(Keys(rows[..i]))
      invariant forall k :: k in order <==> k in groups
      invariant forall k :: k !in groups ==> BlockGain(rows[..i], k) == 0
      invariant forall k :: k in groups ==> groups[k] == BlockGain(rows[..i], k)
    {
      var key := rows[i].Key();
      OneMoreRow(rows, i);
      if key !in groups {
        order, groups := order + [key], groups[key := 0];
      }
      groups := groups[key := groups[key] + rows[i].Gain()];
      i := i + 1;
    }
    assert rows[..i] == rows;
  }

  lemma NothingSeen(rows: seq<PairedRow>)
    ensures FirstSeen(Keys(rows[..0])) == [] && forall k :: BlockGain(rows[..0], k) == 0
  {
  }

  lemma NoBlocks(rows: seq<PairedRow>, order: seq<(string, string)>)
    ensures FirstSeen(Datasets(Blocks(rows, order[..0]))) == []
    ensures forall d :: GainsOf(Blocks(rows, order[..0]), d) == []
  {
  }

  lemma OneMoreRow(rows: seq<PairedRow>, i: nat)
    requires i < |rows|
    ensures var seen, key := FirstSeen(Keys(rows[..i])), rows[i].Key();
            FirstSeen(Keys(rows[..i + 1])) == if key in seen then seen else seen + [key]
    ensures forall k :: BlockGain(rows[..i + 1], k) ==
              BlockGain(rows[..i], k) + if rows[i].Key() == k then rows[i].Gain() else 0
  {
    assert rows[..i + 1][..i] == rows[..i];
    var keys := Keys(rows[..i]);
    assert Keys(rows[..i + 1]) == keys + [rows[i].Key()] && (keys + [rows[i].Key()])[..|keys|] == keys;
    FirstSeenMembers(keys);
  }

  /** The second dictionary: the clusters' gains by dataset. */
  method GroupByStratum(rows: seq<PairedRow>, order: seq<(string, string)>, groups: map<(string, string), int>)
    returns (strata: seq<string>, byStratum: map<string, seq<int>>)
    requires forall k :: k in order ==> k in groups && groups[k] == BlockGain(rows, k)
    ensures strata == FirstSeen(Datasets(Blocks(rows, order)))
    ensures forall d :: d in strata <==> d in byStratum
    ensures forall d :: d in byStratum ==> byStratum[d] == GainsOf(Blocks(rows, order), d)
  {
    hide Blocks, Datasets, GainsOf, FirstSeen, BlockGain;
    strata, byStratum := [], map[];
    NoBlocks(rows, order);
    var j := 0;
    while j < |order|
      invariant 0 <= j <= |order|
      invariant strata == FirstSeen(Datasets(Blocks(rows, order[..j])))
      invariant forall d :: d in strata <==> d in byStratum
      invariant forall d :: d !in byStratum ==> GainsOf(Blocks(rows, order[..j]), d) == []
      invariant forall d :: d in byStratum ==> byStratum[d] == GainsOf(Blocks(rows, order[..j]), d)
    {
      var dataset, difference := order[j].0, groups[order[j]];
      OneMoreBlock(rows, order, j);
      if dataset !in byStratum {
        strata, byStratum := strata + [dataset], byStratum[dataset := []];
      }
      byStratum := byStratum[dataset := byStratum[dataset] + [difference]];
      j := j + 1;
    }
    assert order[..j] == order;
  }

  lemma OneMoreBlock(rows: seq<PairedRow>, order: seq<(string, string)>, j: nat)
    requires j < |order|
    ensures var seen, d := FirstSeen(Datasets(Blocks(rows, order[..j]))), order[j].0;
            FirstSeen(Datasets(Blocks(rows, order[..j + 1]))) == if d in seen then seen else seen + [d]
    ensures forall d :: GainsOf(Blocks(rows, order[..j + 1]), d) ==
              GainsOf(Blocks(rows, order[..j]), d) + if order[j].0 == d then [BlockGain(rows, order[j])] else []
  {
    assert order[..j + 1][..j] == order[..j];
    var before, b := Blocks(rows, order[..j]), (order[j].0, BlockGain(rows, order[j]));
    assert Blocks(rows, order[..j + 1]) == before + [b] && (before + [b])[..|before|] == before;
    var names := Datasets(before);
    assert Datasets(before + [b]) == names + [b.0] && (names + [b.0])[..|names|] == names;
    FirstSeenMembers(names);
  }

  method CollectDifferences(rows: seq<PairedRow>) returns (differences: seq<int>)
    ensures differences == Differences(rows)
  {
    hide Blocks, BlockGain, Keys, Datasets, GainsOf, FirstSeen;
    var order, groups := GroupRows(rows);
    var strata, byStratum := GroupByStratum(rows, order, groups);
    differences := [];
    var k := 0;
    while k < |strata|
      invariant 0 <= k <= |strata|
      invariant differences == ByStratum(Blocks(rows, order), strata[..k])
    {
      assert strata[..k + 1][..k] == strata[..k];
      differences := differences + byStratum[strata[k]];
      k := k + 1;
    }
    assert strata[..k] == strata;
  }

  method ExtremePatterns(differences: seq<int>) returns (extreme: nat)
    ensures forall s :: s in SignPatterns(|differences|) ==> |s| == |differences|
    ensures extreme == CountExtreme(SignPatterns(|differences|), differences, 0, Abs(SumOf(differences)))
  {
    hide SignPatterns, SumOf;
    var patterns, observed := SignPatterns(|differences|), Abs(SumOf(differences));
    PatternLengths(|differences|);
    var i := 0;
    extreme := 0;
    assert patterns[0..] == patterns;
    while i < |patterns|
      invariant 0 <= i <= |patterns|
      invariant extreme + CountExtreme(patterns[i..], differences, 0, observed) ==
                CountExtreme(patterns, differences, 0, observed)
    {
      assert patterns[i..][1..] == patterns[i + 1..];
      if Abs(Dot(patterns[i], differences)) >= observed {
        extreme := extreme + 1;
      }
      i := i + 1;
    }
  }

  method Compare(rows: seq<PairedRow>) returns (improved: nat, regressed: nat, permutationP: real, mcnemarP: real)
    ensures improved == Improved(rows) && regressed == Regressed(rows)
    ensures permutationP == PermutationP(Differences(rows)) && mcnemarP == ExactP(improved, regressed)
    ensures OneRowClusters(rows) ==> permutationP == mcnemarP
  {
    hide SignPatterns, CountExtreme, Pow2, Improved, Regressed, ExactP, Differences, OneRowClusters;
    improved, regressed := Improved(rows), Regressed(rows);
    var differences := CollectDifferences(rows);
    var extreme := ExtremePatterns(differences);
    permutationP := extreme as real / Pow2(|differences|) as real;
    mcnemarP := ExactP(improved, regressed);
    if OneRowClusters(rows) { PermutationIsMcNemar(rows); }
  }
}
