/** How well a cut on the top score separates answerable from impossible questions. */
module Abstention {
  import opened Options
  import Orders
  import opened Reals

  const CALIBRATION_ANSWERABLE: nat := 40
  const CALIBRATION_IMPOSSIBLE: nat := 20

  /** The scores at or above a cut. */
  function Passing(scores: seq<real>, cut: real): (n: nat)
    ensures n <= |scores|
  {
    if scores == [] then 0 else (if scores[0] >= cut then 1 else 0) + Passing(scores[1..], cut)
  }

  lemma {:induction false} PassingInPlain(scores: seq<real>, cut: real)
    ensures Passing(scores, cut) == |Above(scores, cut)|
    ensures |scores| - Passing(scores, cut) == |Below(scores, cut)|
  {
    if scores == [] {
      assert Above(scores, cut) == {} && Below(scores, cut) == {};
    } else {
      PassingInPlain(scores[..|scores| - 1], cut);
      PassingAtEnd(scores, cut);
      OneMoreScore(scores, cut);
      hide Passing, Above, Below;
    }
  }

  lemma OneMoreScore(scores: seq<real>, cut: real)
    requires scores != []
    ensures var n := |scores| - 1;
            |Above(scores, cut)| == |Above(scores[..n], cut)| + (if scores[n] >= cut then 1 else 0)
            && |Below(scores, cut)| == |Below(scores[..n], cut)| + (if scores[n] < cut then 1 else 0)
  {
    var n := |scores| - 1;
    var above, below := Above(scores[..n], cut), Below(scores[..n], cut);
    assert Above(scores, cut) == if scores[n] >= cut then above + {n} else above;
    assert Below(scores, cut) == if scores[n] < cut then below + {n} else below;
  }

  function Above(scores: seq<real>, cut: real): set<int> {
    set i | 0 <= i < |scores| && scores[i] >= cut
  }

  function Below(scores: seq<real>, cut: real): set<int> {
    set i | 0 <= i < |scores| && scores[i] < cut
  }

  lemma {:induction false} PassingAtEnd(scores: seq<real>, cut: real)
    requires scores != []
    ensures var n := |scores| - 1;
            Passing(scores, cut) == Passing(scores[..n], cut) + if scores[n] >= cut then 1 else 0
  {
    var n := |scores| - 1;
    if n > 0 {
      PassingAtEnd(scores[1..], cut);
      assert scores[1..][..n - 1] == scores[..n][1..];
    }
  }

  function Ratio(part: nat, whole: nat): real
    requires whole > 0
  {
    part as real / whole as real
  }

  /** The share of answerable questions a cut lets through. */
  function AnswerRate(answerable: seq<real>, cut: real): real
    requires answerable != []
  {
    Ratio(Passing(answerable, cut), |answerable|)
  }

  /** The share of impossible questions a cut holds back. */
  function AbstainRate(impossible: seq<real>, cut: real): real
    requires impossible != []
  {
    Ratio(|impossible| - Passing(impossible, cut), |impossible|)
  }

  /** A cut answers the questions that score at or above it and abstains from those below. */
  lemma RatesInPlain(scores: seq<real>, cut: real)
    requires scores != []
    ensures AnswerRate(scores, cut) == |set i | 0 <= i < |scores| && scores[i] >= cut| as real / |scores| as real
    ensures AbstainRate(scores, cut) == |set i | 0 <= i < |scores| && scores[i] < cut| as real / |scores| as real
  {
    PassingInPlain(scores, cut);
  }

  function Balanced(answerable: seq<real>, impossible: seq<real>, cut: real): real
    requires answerable != [] && impossible != []
  {
    (AnswerRate(answerable, cut) + AbstainRate(impossible, cut)) / 2.0
  }

  function Observed(answerable: seq<real>, impossible: seq<real>): set<real> {
    (set x | x in answerable) + set x | x in impossible
  }

  lemma RatioBounds(part: nat, whole: nat)
    requires whole > 0 && part <= whole
    ensures 0.0 <= Ratio(part, whole) <= 1.0
    ensures part == whole ==> Ratio(part, whole) == 1.0
    ensures part == 0 ==> Ratio(part, whole) == 0.0
  {
  }

  lemma RatioMonotone(a: nat, b: nat, whole: nat)
    requires whole > 0 && a <= b
    ensures Ratio(a, whole) <= Ratio(b, whole)
  {
    var x, y, w := a as real, b as real, whole as real;
    assert y / w - x / w == (y - x) / w;
  }

  /** Cuts with no score between them pass the same scores. */
  lemma {:induction false} PassingSame(scores: seq<real>, cut: real, cut': real)
    requires forall x :: x in scores ==> (x >= cut <==> x >= cut')
    ensures Passing(scores, cut) == Passing(scores, cut')
  {
    if scores != [] {
      assert scores[0] in scores && forall x :: x in scores[1..] ==> x in scores;
      PassingSame(scores[1..], cut, cut');
    }
  }

  lemma {:induction false} PassingFalls(scores: seq<real>, low: real, high: real)
    requires low <= high
    ensures Passing(scores, high) <= Passing(scores, low)
  {
    if scores != [] { PassingFalls(scores[1..], low, high); }
  }

  lemma {:induction false} PassingEnds(scores: seq<real>, cut: real)
    ensures (forall x :: x in scores ==> x >= cut) ==> Passing(scores, cut) == |scores|
    ensures (forall x :: x in scores ==> x < cut) ==> Passing(scores, cut) == 0
  {
    if scores != [] {
      assert scores[0] in scores && forall x :: x in scores <==> x == scores[0] || x in scores[1..];
      PassingEnds(scores[1..], cut);
    }
  }

  lemma {:induction false} Least(s: set<real>, start: real) returns (low: real)
    requires start in s
    ensures low in s && forall x :: x in s ==> low <= x
    decreases |s|
  {
    low := start;
    if next :| next in s && next < start {
      low := Least(s - {start}, next);
      assert forall x :: x in s ==> x == start || x in s - {start};
    }
  }

  /** Below the least score everything passes, above the greatest nothing does; both score one half. */
  lemma EndsScoreHalf(answerable: seq<real>, impossible: seq<real>, cut: real)
    requires answerable != [] && impossible != []
    requires var all := Observed(answerable, impossible);
             (forall x :: x in all ==> x >= cut) || (forall x :: x in all ==> x < cut)
    ensures Balanced(answerable, impossible, cut) == 0.5
  {
    PassingEnds(answerable, cut);
    PassingEnds(impossible, cut);
    var all := Observed(answerable, impossible);
    assert forall x :: x in answerable || x in impossible ==> x in all;
    RatioBounds(Passing(answerable, cut), |answerable|);
    RatioBounds(|impossible| - Passing(impossible, cut), |impossible|);
  }

  /** Any real cut is matched by an observed score. */
  lemma ObservedMatchesCut(answerable: seq<real>, impossible: seq<real>, cut: real) returns (c: real)
    requires answerable != [] && impossible != []
    ensures c in Observed(answerable, impossible)
    ensures Balanced(answerable, impossible, cut) <= Balanced(answerable, impossible, c)
  {
    hide Balanced;
    var all := Observed(answerable, impossible);
    assert answerable[0] in all;
    var above := set x | x in all && x >= cut;
    if start :| start in all && start >= cut {
      c := Least(above, start);
      assert forall x :: x in all && x >= cut ==> x in above;
      SameCutSameScore(answerable, impossible, cut, c);
    } else {
      c := Least(all, answerable[0]);
      EndsScoreHalf(answerable, impossible, cut);
      EndsScoreHalf(answerable, impossible, c);
    }
  }

  lemma SameCutSameScore(answerable: seq<real>, impossible: seq<real>, cut: real, cut': real)
    requires answerable != [] && impossible != []
    requires forall x :: x in Observed(answerable, impossible) ==> (x >= cut <==> x >= cut')
    ensures Balanced(answerable, impossible, cut) == Balanced(answerable, impossible, cut')
  {
    var all := Observed(answerable, impossible);
    assert forall x :: x in answerable || x in impossible ==> x in all;
    PassingSame(answerable, cut, cut');
    PassingSame(impossible, cut, cut');
  }

  predicate RealLe(x: real, y: real) { x <= y }

  function Dedup(s: seq<real>): seq<real> {
    if s == [] then [] else if s[0] in s[1..] then Dedup(s[1..]) else [s[0]] + Dedup(s[1..])
  }

  /** `sorted({...})` over the observed scores. */
  function Candidates(answerable: seq<real>, impossible: seq<real>): seq<real> {
    Orders.Sort(RealLe, Dedup(answerable + impossible))
  }

  lemma {:induction false} DedupContents(s: seq<real>)
    ensures forall x :: x in Dedup(s) <==> x in s
  {
    if s != [] { DedupContents(s[1..]); }
  }

  lemma CandidatesAreObserved(answerable: seq<real>, impossible: seq<real>)
    ensures forall x :: x in Candidates(answerable, impossible) <==> x in Observed(answerable, impossible)
  {
    var s := Dedup(answerable + impossible);
    DedupContents(answerable + impossible);
    Orders.SortSorts(RealLe, s);
    forall x ensures x in Orders.Sort(RealLe, s) <==> x in s {
      assert x in multiset(Orders.Sort(RealLe, s)) <==> x in multiset(s);
    }
  }

  /** Python's order on the tuples (balanced, abstain rate, answer rate, cut). */
  predicate Beats(answerable: seq<real>, impossible: seq<real>, a: real, b: real)
    requires answerable != [] && impossible != []
  {
    var x, y := Balanced(answerable, impossible, a), Balanced(answerable, impossible, b);
    var p, q := AbstainRate(impossible, a), AbstainRate(impossible, b);
    var v, w := AnswerRate(answerable, a), AnswerRate(answerable, b);
    x > y || (x == y && (p > q || (p == q && (v > w || (v == w && a > b)))))
  }

  /** Because a higher cut never abstains less, the tie-breaks all come down to the higher cut. */
  lemma BeatsIsHigherCut(answerable: seq<real>, impossible: seq<real>, a: real, b: real)
    requires answerable != [] && impossible != []
    ensures Beats(answerable, impossible, a, b) <==>
              Balanced(answerable, impossible, a) > Balanced(answerable, impossible, b)
              || (Balanced(answerable, impossible, a) == Balanced(answerable, impossible, b) && a > b)
  {
    hide Ratio;
    var low, high := if a < b then a else b, if a < b then b else a;
    PassingFalls(answerable, low, high);
    PassingFalls(impossible, low, high);
    RatioMonotone(Passing(answerable, high), Passing(answerable, low), |answerable|);
    RatioMonotone(|impossible| - Passing(impossible, low), |impossible| - Passing(impossible, high), |impossible|);
  }

  lemma Transitive(answerable: seq<real>, impossible: seq<real>, a: real, b: real, c: real)
    requires answerable != [] && impossible != []
    ensures Beats(answerable, impossible, b, c) && !Beats(answerable, impossible, a, c)
            ==> !Beats(answerable, impossible, a, b)
    ensures !Beats(answerable, impossible, b, b)
  {
    hide Beats, Balanced;
    BeatsIsHigherCut(answerable, impossible, a, b);
    BeatsIsHigherCut(answerable, impossible, b, c);
    BeatsIsHigherCut(answerable, impossible, a, c);
    BeatsIsHigherCut(answerable, impossible, b, b);
  }

  /** The highest observed score among those with the best balanced accuracy at any real cut. */
  ghost predicate IsBestCut(answerable: seq<real>, impossible: seq<real>, best: real)
    requires answerable != [] && impossible != []
  {
    && best in Observed(answerable, impossible)
    && (forall cut :: Balanced(answerable, impossible, cut) <= Balanced(answerable, impossible, best))
    && (forall c :: c in Observed(answerable, impossible) && c > best ==>
          Balanced(answerable, impossible, c) < Balanced(answerable, impossible, best))
  }

  /** The calibration loop. */
  method BestCut(answerable: seq<real>, impossible: seq<real>) returns (best: real)
    requires answerable != [] && impossible != []
    ensures IsBestCut(answerable, impossible, best)
  {
    hide Beats, Balanced, Candidates, Observed;
    CandidatesAreObserved(answerable, impossible);
    var candidates := Candidates(answerable, impossible);
    SomeObserved(answerable, impossible);
    best := candidates[0];
    for i := 0 to |candidates|
      invariant best in candidates
      invariant forall k :: 0 <= k < i ==> !Beats(answerable, impossible, candidates[k], best)
    {
      forall k | 0 <= k <= i
        ensures Beats(answerable, impossible, candidates[i], best)
                && !Beats(answerable, impossible, candidates[k], best)
                ==> !Beats(answerable, impossible, candidates[k], candidates[i])
        ensures !Beats(answerable, impossible, candidates[i], candidates[i])
      {
        Transitive(answerable, impossible, candidates[k], candidates[i], best);
      }
      if i == 0 || Beats(answerable, impossible, candidates[i], best) {
        best := candidates[i];
      }
    }
    Unbeaten(answerable, impossible, best);
  }

  lemma SomeObserved(answerable: seq<real>, impossible: seq<real>)
    requires answerable != []
    ensures Candidates(answerable, impossible) != []
  {
    hide Candidates;
    CandidatesAreObserved(answerable, impossible);
    var x := answerable[0];
    assert x in Observed(answerable, impossible);
    assert x in Candidates(answerable, impossible);
  }

  lemma Unbeaten(answerable: seq<real>, impossible: seq<real>, best: real)
    requires answerable != [] && impossible != [] && best in Candidates(answerable, impossible)
    requires forall c :: c in Candidates(answerable, impossible) ==> !Beats(answerable, impossible, c, best)
    ensures IsBestCut(answerable, impossible, best)
  {
    hide Beats, Balanced, Candidates, Observed;
    CandidatesAreObserved(answerable, impossible);
    forall c | c in Observed(answerable, impossible)
      ensures Balanced(answerable, impossible, c) <= Balanced(answerable, impossible, best)
      ensures c > best ==> Balanced(answerable, impossible, c) < Balanced(answerable, impossible, best)
    {
      BeatsIsHigherCut(answerable, impossible, c, best);
    }
    forall cut ensures Balanced(answerable, impossible, cut) <= Balanced(answerable, impossible, best) {
      var c := ObservedMatchesCut(answerable, impossible, cut);
    }
  }

  /** Credit for one answerable question against one impossible one. */
  function Credit(positive: real, negative: real): real {
    if positive > negative then 1.0 else if positive == negative then 0.5 else 0.0
  }

  function CreditRow(positive: real, negatives: seq<real>): real {
    if negatives == [] then 0.0 else Credit(positive, negatives[0]) + CreditRow(positive, negatives[1..])
  }

  function CreditSum(positives: seq<real>, negatives: seq<real>): real {
    if positives == [] then 0.0 else CreditRow(positives[0], negatives) + CreditSum(positives[1..], negatives)
  }

  /** The mean credit over all pairs. */
  function Auc(positives: seq<real>, negatives: seq<real>): real
    requires positives != [] && negatives != []
  {
    Product(|positives| as real, |negatives| as real);
    CreditSum(positives, negatives) / Times(|positives| as real, |negatives| as real)
  }

  lemma OneColumn(negative: real, positive: real)
    ensures CreditRow(negative, [positive]) == Credit(negative, positive)
  {
    assert [positive][1..] == [];
    assert CreditRow(negative, []) == 0.0;
  }

  lemma {:induction false} ColumnSplits(negatives: seq<real>, positives: seq<real>)
    requires positives != []
    ensures CreditSum(negatives, positives) ==
            CreditSum(negatives, [positives[0]]) + CreditSum(negatives, positives[1..])
  {
    if negatives != [] {
      ColumnSplits(negatives[1..], positives);
      OneColumn(negatives[0], positives[0]);
    }
  }

  /** Whatever one question does not win against the others, they win against it; a tie is shared. */
  lemma {:induction false} RowComplement(positive: real, negatives: seq<real>)
    ensures CreditRow(positive, negatives) + CreditSum(negatives, [positive]) == |negatives| as real
  {
    if negatives != [] {
      RowComplement(positive, negatives[1..]);
      OneColumn(negatives[0], positive);
    }
  }

  lemma {:induction false} NoCredit(negatives: seq<real>)
    ensures CreditSum(negatives, []) == 0.0
  {
    if negatives != [] { NoCredit(negatives[1..]); }
  }

  lemma {:induction false} SumComplement(positives: seq<real>, negatives: seq<real>)
    ensures CreditSum(positives, negatives) + CreditSum(negatives, positives)
            == Times(|positives| as real, |negatives| as real)
  {
    hide Times, CreditRow;
    var n := |negatives| as real;
    if positives == [] {
      NoCredit(negatives);
      One(n);
    } else {
      SumComplement(positives[1..], negatives);
      ColumnSplits(negatives, positives);
      RowComplement(positives[0], negatives);
      Distribute(|positives[1..]| as real, 1.0, n);
      One(n);
    }
  }

  /** Exchanging the two groups turns the AUC into what it lacks of one, ties and all. */
  lemma AucComplement(positives: seq<real>, negatives: seq<real>)
    requires positives != [] && negatives != []
    ensures Auc(positives, negatives) + Auc(negatives, positives) == 1.0
  {
    hide CreditSum, Times;
    var m, n := |positives| as real, |negatives| as real;
    SumComplement(positives, negatives);
    Product(m, n);
    Product(n, m);
    Associate(m, n, 1.0);
    SplitQuotient(CreditSum(positives, negatives), CreditSum(negatives, positives), Times(m, n));
  }

  lemma SplitQuotient(x: real, y: real, whole: real)
    requires whole > 0.0 && x + y == whole
    ensures x / whole + y / whole == 1.0
  {
    assert (x + y) / whole == x / whole + y / whole;
  }

  /** A positive at or above the cut beats every negative below it; one below beats at most those. */
  lemma {:induction false} RowBounds(positive: real, negatives: seq<real>, cut: real)
    ensures var held := (|negatives| - Passing(negatives, cut)) as real;
            if positive >= cut then held <= CreditRow(positive, negatives) <= |negatives| as real
            else 0.0 <= CreditRow(positive, negatives) <= held
  {
    if negatives != [] { RowBounds(positive, negatives[1..], cut); }
  }

  lemma {:induction false} SumBounds(positives: seq<real>, negatives: seq<real>, cut: real)
    ensures var passed, held := Passing(positives, cut) as real, (|negatives| - Passing(negatives, cut)) as real;
            && Times(passed, held) <= CreditSum(positives, negatives)
            && CreditSum(positives, negatives)
               <= Times(passed, |negatives| as real) + Times(|positives| as real - passed, held)
  {
    hide Times, CreditRow;
    var held, n := (|negatives| - Passing(negatives, cut)) as real, |negatives| as real;
    if positives == [] {
      One(held);
      One(n);
    } else {
      RowBounds(positives[0], negatives, cut);
      SumBounds(positives[1..], negatives, cut);
      var p, m := Passing(positives[1..], cut) as real, |positives[1..]| as real;
      One(held);
      One(n);
      Distribute(p, 1.0, held);
      Distribute(p, 1.0, n);
      Distribute(m - p, 1.0, held);
      assert m + 1.0 - p == (m - p) + 1.0;
    }
  }

  /** Bounds on a sum over the pairs, as bounds on its mean. */
  lemma MeanBounds(x: real, y: real, m: real, n: real, mean: real)
    requires m > 0.0 && n > 0.0
    requires Times(Times(x, m), Times(y, n)) <= Times(mean, Times(m, n))
    requires Times(mean, Times(m, n)) <= Times(Times(x, m), n) + Times(m - Times(x, m), Times(y, n))
    ensures Times(x, y) <= mean <= x + y - Times(x, y)
  {
    hide Times;
    var f := Times(m, n);
    Product(m, n);
    MoveFactor(x, y, m, n);
    CancelFactor(Times(x, y), mean, f);
    Associate(x, m, n);
    Distribute(m, Times(x, m), Times(y, n));
    MoveInner(y, m, n);
    Distribute(x, y, f);
    Distribute(x + y, Times(x, y), f);
    CancelFactor(mean, x + y - Times(x, y), f);
  }

  lemma MoveFactor(x: real, y: real, m: real, n: real)
    ensures Times(Times(x, m), Times(y, n)) == Times(Times(x, y), Times(m, n))
  {
  }

  lemma MoveInner(y: real, m: real, n: real)
    ensures Times(m, Times(y, n)) == Times(y, Times(m, n))
  {
  }

  lemma RatioTimes(part: nat, whole: nat)
    requires whole > 0
    ensures Times(Ratio(part, whole), whole as real) == part as real
  {
  }

  lemma AucTimes(positives: seq<real>, negatives: seq<real>)
    requires positives != [] && negatives != []
    ensures Times(Auc(positives, negatives), Times(|positives| as real, |negatives| as real))
            == CreditSum(positives, negatives)
  {
    hide Times, CreditSum;
    Product(|positives| as real, |negatives| as real);
    DivideBack(CreditSum(positives, negatives), Times(|positives| as real, |negatives| as real));
  }

  /** At every cut the pairwise AUC lies between the product of the two rates and their probabilistic sum. */
  lemma AucBetweenRates(positives: seq<real>, negatives: seq<real>, cut: real)
    requires positives != [] && negatives != []
    ensures var x, y := AnswerRate(positives, cut), AbstainRate(negatives, cut);
            Times(x, y) <= Auc(positives, negatives) <= x + y - Times(x, y)
  {
    hide Times, Auc, Ratio, Passing, CreditSum;
    SumBounds(positives, negatives, cut);
    RatioTimes(Passing(positives, cut), |positives|);
    RatioTimes(|negatives| - Passing(negatives, cut), |negatives|);
    AucTimes(positives, negatives);
    MeanBounds(AnswerRate(positives, cut), AbstainRate(negatives, cut),
               |positives| as real, |negatives| as real, Auc(positives, negatives));
  }

  /** So the AUC is at least twice the best balanced accuracy less one. */
  lemma AucBoundsBalanced(positives: seq<real>, negatives: seq<real>, cut: real)
    requires positives != [] && negatives != []
    ensures 2.0 * Balanced(positives, negatives, cut) - 1.0 <= Auc(positives, negatives)
  {
    hide Auc, Times, Ratio;
    AucBetweenRates(positives, negatives, cut);
    RatioBounds(Passing(positives, cut), |positives|);
    RatioBounds(|negatives| - Passing(negatives, cut), |negatives|);
    RatesAboveOne(AnswerRate(positives, cut), AbstainRate(negatives, cut));
  }

  lemma RatesAboveOne(x: real, y: real)
    requires x <= 1.0 && y <= 1.0
    ensures x + y - 1.0 <= Times(x, y)
  {
    hide Times;
    Product(1.0 - x, 1.0 - y);
    Distribute(1.0, x, 1.0 - y);
    Associate(x, 1.0 - y, 1.0);
    Distribute(1.0, y, x);
    Associate(x, y, 1.0);
    One(1.0 - y);
    One(x);
  }

  datatype Metrics = Metrics(
    threshold: real, answerRate: real, abstainRate: real, balanced: real, auc: real, ceiling: real)

  /** `max` over the observed evaluation scores. */
  function Ceiling(positives: seq<real>, negatives: seq<real>, cuts: seq<real>): real
    requires positives != [] && negatives != [] && cuts != []
  {
    var first := Balanced(positives, negatives, cuts[0]);
    if |cuts| == 1 then first
    else
      var rest := Ceiling(positives, negatives, cuts[1..]);
      if rest > first then rest else first
  }

  lemma {:induction false} CeilingIsGreatest(positives: seq<real>, negatives: seq<real>, cuts: seq<real>)
    requires positives != [] && negatives != [] && cuts != []
    ensures forall c :: c in cuts ==> Balanced(positives, negatives, c) <= Ceiling(positives, negatives, cuts)
    ensures exists c :: c in cuts && Balanced(positives, negatives, c) == Ceiling(positives, negatives, cuts)
  {
    assert cuts[0] in cuts;
    if |cuts| > 1 { CeilingIsGreatest(positives, negatives, cuts[1..]); }
  }

  /** The ceiling bounds every real cut, is reached, and is never below one half. */
  lemma CeilingBoundsEveryCut(positives: seq<real>, negatives: seq<real>)
    requires positives != [] && negatives != []
    ensures Candidates(positives, negatives) != []
    ensures var ceiling := Ceiling(positives, negatives, Candidates(positives, negatives));
            && (forall cut :: Balanced(positives, negatives, cut) <= ceiling)
            && (exists cut :: Balanced(positives, negatives, cut) == ceiling)
            && ceiling >= 0.5
  {
    hide Balanced, Ceiling, Candidates, Observed;
    var cuts := Candidates(positives, negatives);
    SomeObserved(positives, negatives);
    CandidatesAreObserved(positives, negatives);
    CeilingIsGreatest(positives, negatives, cuts);
    forall cut ensures Balanced(positives, negatives, cut) <= Ceiling(positives, negatives, cuts) {
      var c := ObservedMatchesCut(positives, negatives, cut);
    }
    BelowAll(positives, negatives);
  }

  lemma BelowAll(positives: seq<real>, negatives: seq<real>)
    requires positives != [] && negatives != []
    ensures exists cut :: Balanced(positives, negatives, cut) == 0.5
  {
    var all := Observed(positives, negatives);
    assert positives[0] in all;
    var low := Least(all, positives[0]);
    EndsScoreHalf(positives, negatives, low);
  }

  /** Calibrate on the first scores, measure on the rest; `None` where a mean over nothing raises. */
  method Measure(answerable: seq<real>, impossible: seq<real>) returns (r: Option<Metrics>)
    ensures r.None? <==> |answerable| <= 40 || |impossible| <= 20
    ensures r.Some? ==>
      var m, p, n := r.value, answerable[40..], impossible[20..];
      && IsBestCut(answerable[..40], impossible[..20], m.threshold)
      && m.answerRate == AnswerRate(p, m.threshold) && m.abstainRate == AbstainRate(n, m.threshold)
      && m.balanced == Balanced(p, n, m.threshold) <= m.ceiling
      && (forall cut :: Balanced(p, n, cut) <= m.ceiling)
      && (exists cut :: Balanced(p, n, cut) == m.ceiling)
      && m.auc == Auc(p, n) && 2.0 * m.ceiling - 1.0 <= m.auc
  {
    if |answerable| <= CALIBRATION_ANSWERABLE || |impossible| <= CALIBRATION_IMPOSSIBLE { return None; }
    hide Balanced, Auc, Ceiling, Candidates, IsBestCut, AnswerRate, AbstainRate;
    var threshold := BestCut(answerable[..CALIBRATION_ANSWERABLE], impossible[..CALIBRATION_IMPOSSIBLE]);
    var p, n := answerable[CALIBRATION_ANSWERABLE..], impossible[CALIBRATION_IMPOSSIBLE..];
    CeilingBoundsEveryCut(p, n);
    var ceiling := Ceiling(p, n, Candidates(p, n));
    ghost var best :| Balanced(p, n, best) == ceiling;
    AucBoundsBalanced(p, n, best);
    r := Some(Metrics(threshold, AnswerRate(p, threshold), AbstainRate(n, threshold),
                      Balanced(p, n, threshold), Auc(p, n), ceiling));
  }
}
