/** Reciprocal rank fusion of ranked lists, and the pool cut from it. */
module RankFusion {
  import opened Orders

  const RANK_CONSTANT: nat := 60

  /** What rank `r`, counted from one, is worth. */
  function Share(constant: nat, r: nat): (s: real)
    requires r > 0
    ensures s > 0.0
  {
    1.0 / (constant + r) as real
  }

  /** What one arm gives a document: a share for every place it holds. */
  function FromArm(arm: seq<string>, doc: string, constant: nat): real {
    if arm == [] then 0.0
    else FromArm(arm[..|arm| - 1], doc, constant)
         + if arm[|arm| - 1] == doc then Share(constant, |arm|) else 0.0
  }

  function Fused(arms: seq<seq<string>>, doc: string, constant: nat): real {
    if arms == [] then 0.0
    else Fused(arms[..|arms| - 1], doc, constant) + FromArm(arms[|arms| - 1], doc, constant)
  }

  function Documents(arms: seq<seq<string>>): set<string> {
    set i, k | 0 <= i < |arms| && 0 <= k < |arms[i]| :: arms[i][k]
  }

  function At(scores: map<string, real>, doc: string): real {
    if doc in scores then scores[doc] else 0.0
  }

  /** Higher score first, ties by document id. */
  function ByScore(scores: map<string, real>): (string, string) -> bool {
    (a: string, b: string) => At(scores, a) > At(scores, b) || (At(scores, a) == At(scores, b) && StringLe(a, b))
  }

  function Take<T>(s: seq<T>, n: nat): seq<T> {
    if n <= |s| then s[..n] else s
  }

  function TopPool(scores: map<string, real>, order: seq<string>, depth: nat): seq<string> {
    Take(Sort(ByScore(scores), order), depth)
  }

  lemma {:induction false} AbsentFromArm(arm: seq<string>, doc: string, constant: nat)
    requires doc !in arm
    ensures FromArm(arm, doc, constant) == 0.0
  {
    if arm != [] { AbsentFromArm(arm[..|arm| - 1], doc, constant); }
  }

  /** `_fused_scores`: the dictionary and the order its keys were inserted in. */
  method FusedScores(arms: seq<seq<string>>, constant: nat) returns (scores: map<string, real>, order: seq<string>)
    ensures scores.Keys == Documents(arms)
    ensures forall doc :: doc in scores ==> scores[doc] == Fused(arms, doc, constant)
    ensures Distinct(order) && forall doc :: doc in order <==> doc in scores
  {
    scores, order := map[], [];
    var i := 0;
    while i < |arms|
      invariant 0 <= i <= |arms|
      invariant scores.Keys == Documents(arms[..i])
      invariant forall doc :: At(scores, doc) == Fused(arms[..i], doc, constant)
      invariant Distinct(order) && forall doc :: doc in order <==> doc in scores
    {
      scores, order := AddArm(arms, i, scores, order, constant);
      i := i + 1;
    }
    assert arms[..i] == arms;
  }

  method AddArm(arms: seq<seq<string>>, i: nat, before: map<string, real>, oldOrder: seq<string>, constant: nat)
    returns (scores: map<string, real>, order: seq<string>)
    requires i < |arms| && before.Keys == Documents(arms[..i])
    requires forall doc :: At(before, doc) == Fused(arms[..i], doc, constant)
    requires Distinct(oldOrder) && forall doc :: doc in oldOrder <==> doc in before
    ensures scores.Keys == Documents(arms[..i + 1])
    ensures forall doc :: At(scores, doc) == Fused(arms[..i + 1], doc, constant)
    ensures Distinct(order) && forall doc :: doc in order <==> doc in scores
  {
    hide FromArm, Fused, Share, Documents;
    scores, order := before, oldOrder;
    var arm, k := arms[i], 0;
    NoPlaces(arm, constant);
    while k < |arm|
      invariant 0 <= k <= |arm|
      invariant scores.Keys == before.Keys + ToSet(arm[..k])
      invariant forall doc :: At(scores, doc) == At(before, doc) + FromArm(arm[..k], doc, constant)
      invariant Distinct(order) && forall doc :: doc in order <==> doc in scores
    {
      OneMorePlace(arm, k, constant);
      if arm[k] !in scores { order := order + [arm[k]]; }
      scores := scores[arm[k] := At(scores, arm[k]) + Share(constant, k + 1)];
      k := k + 1;
    }
    assert arm[..k] == arm;
    OneMoreArm(arms, i, constant);
  }

  lemma NoPlaces(arm: seq<string>, constant: nat)
    ensures forall doc :: FromArm(arm[..0], doc, constant) == 0.0
  {
  }

  lemma OneMorePlace(arm: seq<string>, k: nat, constant: nat)
    requires k < |arm|
    ensures ToSet(arm[..k + 1]) == ToSet(arm[..k]) + {arm[k]}
    ensures forall doc :: FromArm(arm[..k + 1], doc, constant) ==
                          FromArm(arm[..k], doc, constant) + if arm[k] == doc then Share(constant, k + 1) else 0.0
  {
    hide Share;
    assert arm[..k + 1][..k] == arm[..k] && arm[..k + 1] == arm[..k] + [arm[k]];
  }

  lemma OneMoreArm(arms: seq<seq<string>>, i: nat, constant: nat)
    requires i < |arms|
    ensures Documents(arms[..i + 1]) == Documents(arms[..i]) + ToSet(arms[i])
    ensures forall doc :: Fused(arms[..i + 1], doc, constant) ==
              Fused(arms[..i], doc, constant) + FromArm(arms[i], doc, constant)
  {
    assert arms[..i + 1][..i] == arms[..i];
    forall x | x in arms[i] ensures x in Documents(arms[..i + 1]) {
      var k :| 0 <= k < |arms[i]| && arms[i][k] == x;
      assert arms[..i + 1][i][k] == x;
    }
    forall x | x in Documents(arms[..i]) ensures x in Documents(arms[..i + 1]) {
      var j, k :| 0 <= j < i && 0 <= k < |arms[..i][j]| && arms[..i][j][k] == x;
      assert arms[..i + 1][j][k] == x;
    }
  }

  lemma ScoreOrder(scores: map<string, real>)
    ensures TotalOrder(ByScore(scores))
  {
    StringOrder();
  }

  /** The pool depends on the scores alone, not on the order the dictionary was filled in. */
  lemma PoolIgnoresInsertionOrder(scores: map<string, real>, a: seq<string>, b: seq<string>, depth: nat)
    requires Distinct(a) && Distinct(b) && forall x :: x in a <==> x in b
    ensures TopPool(scores, a, depth) == TopPool(scores, b, depth)
  {
    hide Sort, ByScore;
    ScoreOrder(scores);
    forall x ensures multiset(a)[x] == multiset(b)[x] {
      DistinctCount(a, x);
      DistinctCount(b, x);
      assert x in multiset(a) <==> x in a;
      assert x in multiset(b) <==> x in b;
    }
    SortIgnoresOrder(ByScore(scores), a, b);
  }

  /** The full fused order lists every scored document once, in order. */
  lemma SortedIsRanking(scores: map<string, real>, order: seq<string>)
    requires Distinct(order)
    ensures var s := Sort(ByScore(scores), order);
            Sorted(ByScore(scores), s) && Distinct(s) && |s| == |order| && forall x :: x in s <==> x in order
  {
    ScoreOrder(scores);
    SortSorts(ByScore(scores), order);
    var s := Sort(ByScore(scores), order);
    DistinctByMultiset(order, s);
    forall x ensures x in s <==> x in order {
      assert x in multiset(s) <==> x in s;
      assert x in multiset(order) <==> x in order;
    }
  }

  /** The score order in plain terms. */
  predicate Outranks(scores: map<string, real>, a: string, b: string)
    requires a in scores && b in scores
  {
    scores[a] > scores[b] || (scores[a] == scores[b] && StringLe(a, b))
  }

  ghost predicate Ranked(scores: map<string, real>, s: seq<string>) {
    Distinct(s) && (forall x :: x in s ==> x in scores)
    && forall i, j :: 0 <= i < j < |s| ==> s[i] in scores && s[j] in scores && Outranks(scores, s[i], s[j])
  }

  lemma SortRanks(scores: map<string, real>, order: seq<string>)
    requires Distinct(order) && forall x :: x in order <==> x in scores
    ensures var all := Sort(ByScore(scores), order);
            Ranked(scores, all) && |all| == |order| && forall x :: x in scores ==> x in all
  {
    hide StringLe, Sort, Distinct, TotalOrder, TotalPreorder;
    var all := Sort(ByScore(scores), order);
    ScoreOrder(scores);
    SortedIsRanking(scores, order);
    forall i, j | 0 <= i < j < |all| ensures all[i] in scores && all[j] in scores && Outranks(scores, all[i], all[j]) {
      assert all[i] in all && all[j] in all && ByScore(scores)(all[i], all[j]);
    }
  }

  /** The pool holds the documents with the highest scores, as many as the depth allows, best first. */
  lemma PoolHoldsTheTop(scores: map<string, real>, order: seq<string>, depth: nat)
    requires Distinct(order) && forall x :: x in order <==> x in scores
    ensures var pool := TopPool(scores, order, depth);
            && |pool| == (if depth <= |order| then depth else |order|) && Ranked(scores, pool)
            && forall x, y :: x in pool && y in scores && y !in pool ==> x in scores && Outranks(scores, x, y)
  {
    hide Sort, Outranks, ByScore, Ranked;
    var all := Sort(ByScore(scores), order);
    SortRanks(scores, order);
    FirstAreTop(scores, all, if depth <= |order| then depth else |order|);
  }

  lemma FirstAreTop(scores: map<string, real>, all: seq<string>, n: nat)
    requires Ranked(scores, all) && n <= |all| && forall x :: x in scores ==> x in all
    ensures Ranked(scores, all[..n])
    ensures forall x, y :: x in all[..n] && y in scores && y !in all[..n] ==> x in scores && Outranks(scores, x, y)
  {
    hide Outranks;
    forall x, y | x in all[..n] && y in scores && y !in all[..n] ensures x in scores && Outranks(scores, x, y) {
      var i :| 0 <= i < n && all[i] == x;
      var j :| 0 <= j < |all| && all[j] == y;
      assert all[j] !in all[..n];
    }
  }

  /** In an arm without repeats a document gets the share of its one place. */
  lemma {:induction false} OnePlace(arm: seq<string>, k: nat, constant: nat)
    requires Distinct(arm) && k < |arm|
    ensures FromArm(arm, arm[k], constant) == Share(constant, k + 1) == 1.0 / (constant + k + 1) as real
  {
    var front := arm[..|arm| - 1];
    if k == |arm| - 1 {
      AbsentFromArm(front, arm[k], constant);
    } else {
      OnePlace(front, k, constant);
    }
  }

  lemma ShareFalls(constant: nat, r: nat, s: nat)
    requires 0 < r <= s
    ensures Share(constant, s) <= Share(constant, r)
  {
    var a, b := (constant + r) as real, (constant + s) as real;
    assert 1.0 / b <= 1.0 / a by { assert (1.0 / b) * b == 1.0 && (1.0 / a) * a == 1.0; assert (1.0 / a) * b >= 1.0; }
  }

  function TwoArms(left: seq<string>, right: seq<string>, doc: string): real {
    Fused([left, right], doc, RANK_CONSTANT)
  }

  lemma TwoArmsAdd(left: seq<string>, right: seq<string>, doc: string)
    ensures TwoArms(left, right, doc) == FromArm(left, doc, RANK_CONSTANT) + FromArm(right, doc, RANK_CONSTANT)
  {
    assert [left, right][..1] == [left] && [left][..0] == [];
    assert Fused([left], doc, RANK_CONSTANT) == FromArm(left, doc, RANK_CONSTANT);
  }

  /** What two arms without repeats give a document: 1 / (60 + rank) for each it is in, and nothing else. */
  lemma TwoArmsInPlain(left: seq<string>, right: seq<string>, doc: string)
    requires Distinct(left) && Distinct(right)
    ensures forall i, k :: 0 <= i < |left| && 0 <= k < |right| && left[i] == right[k] == doc ==>
      TwoArms(left, right, doc) == 1.0 / (61 + i) as real + 1.0 / (61 + k) as real
    ensures forall i :: 0 <= i < |left| && left[i] == doc && doc !in right ==>
      TwoArms(left, right, doc) == 1.0 / (61 + i) as real
    ensures forall k :: 0 <= k < |right| && right[k] == doc && doc !in left ==>
      TwoArms(left, right, doc) == 1.0 / (61 + k) as real
    ensures doc !in left && doc !in right ==> TwoArms(left, right, doc) == 0.0
  {
    hide Share, FromArm, TwoArms;
    TwoArmsAdd(left, right, doc);
    if doc !in left { AbsentFromArm(left, doc, RANK_CONSTANT); }
    if doc !in right { AbsentFromArm(right, doc, RANK_CONSTANT); }
    forall i | 0 <= i < |left| && left[i] == doc
      ensures FromArm(left, doc, RANK_CONSTANT) == 1.0 / (61 + i) as real
    {
      OnePlace(left, i, RANK_CONSTANT);
    }
    forall k | 0 <= k < |right| && right[k] == doc
      ensures FromArm(right, doc, RANK_CONSTANT) == 1.0 / (61 + k) as real
    {
      OnePlace(right, k, RANK_CONSTANT);
    }
  }

  /** At least one place in the arm, and none of it below rank `r`. */
  ghost predicate RankedWithin(arm: seq<string>, doc: string, r: nat) {
    exists k :: 0 <= k < |arm| && k < r && arm[k] == doc
  }

  ghost predicate InOneArm(left: seq<string>, right: seq<string>, doc: string) {
    (doc in left && doc !in right) || (doc !in left && doc in right)
  }

  /** The best a single arm can give. */
  lemma SingleArmCeiling(left: seq<string>, right: seq<string>, doc: string)
    requires Distinct(left) && Distinct(right) && InOneArm(left, right, doc)
    ensures TwoArms(left, right, doc) <= Share(RANK_CONSTANT, 1)
  {
    TwoArmsAdd(left, right, doc);
    var arm, other := if doc in left then left else right, if doc in left then right else left;
    AbsentFromArm(other, doc, RANK_CONSTANT);
    var k :| 0 <= k < |arm| && arm[k] == doc;
    OnePlace(arm, k, RANK_CONSTANT);
    ShareFalls(RANK_CONSTANT, 1, k + 1);
  }

  lemma BothArmsFloor(left: seq<string>, right: seq<string>, doc: string, r: nat)
    requires Distinct(left) && Distinct(right) && RankedWithin(left, doc, r) && RankedWithin(right, doc, r)
    ensures r > 0 && TwoArms(left, right, doc) >= 2.0 * Share(RANK_CONSTANT, r)
  {
    TwoArmsAdd(left, right, doc);
    var i :| 0 <= i < |left| && i < r && left[i] == doc;
    var k :| 0 <= k < |right| && k < r && right[k] == doc;
    OnePlace(left, i, RANK_CONSTANT);
    OnePlace(right, k, RANK_CONSTANT);
    ShareFalls(RANK_CONSTANT, i + 1, r);
    ShareFalls(RANK_CONSTANT, k + 1, r);
  }

  /** Two arms without repeats: `both` is in each within rank `r`, `single` in only one. */
  ghost predicate Competing(left: seq<string>, right: seq<string>, both: string, single: string, r: nat) {
    Distinct(left) && Distinct(right) && RankedWithin(left, both, r) && RankedWithin(right, both, r)
    && InOneArm(left, right, single)
  }

  /** Every document ranked within `r` in both arms scores above every document of one arm. */
  ghost predicate AgreementWins(r: nat) {
    forall left, right, both, single ::
      Competing(left, right, both, single, r) ==> TwoArms(left, right, single) < TwoArms(left, right, both)
  }

  function Name(i: nat): string {
    seq(i, _ => 'a')
  }

  /** Rank 62 in both arms ties with rank 1 in one. */
  lemma SixtyTwoTies()
    ensures !AgreementWins(62)
  {
    var left := seq(62, i requires 0 <= i < 62 => Name(i));
    var right := seq(62, i requires 0 <= i < 62 => if i == 61 then Name(61) else Name(100 + i));
    forall i | 0 <= i < 300 ensures |Name(i)| == i {}
    forall i, k | 0 <= i < k < 62 ensures left[i] != left[k] && right[i] != right[k] {
      assert |left[i]| != |left[k]| && |right[i]| != |right[k]|;
    }
    assert Name(0) !in right by { forall k | 0 <= k < 62 ensures right[k] != Name(0) { assert |right[k]| > 0; } }
    assert left[0] == Name(0) && left[61] == Name(61) == right[61];
    TwoArmsAdd(left, right, Name(0));
    TwoArmsAdd(left, right, Name(61));
    OnePlace(left, 0, RANK_CONSTANT);
    OnePlace(left, 61, RANK_CONSTANT);
    OnePlace(right, 61, RANK_CONSTANT);
    AbsentFromArm(right, Name(0), RANK_CONSTANT);
    assert RankedWithin(left, Name(61), 62) && RankedWithin(right, Name(61), 62);
    assert Competing(left, right, Name(61), Name(0), 62);
  }

  /** Agreement between the arms beats a single arm exactly down to rank 61. */
  lemma AgreementWinsIff(r: nat)
    ensures AgreementWins(r) <==> r <= 61
  {
    if r <= 61 {
      forall left, right, both, single | Competing(left, right, both, single, r)
        ensures TwoArms(left, right, single) < TwoArms(left, right, both)
      {
        SingleArmCeiling(left, right, single);
        BothArmsFloor(left, right, both, r);
        ShareFalls(RANK_CONSTANT, r, 61);
        assert 2.0 * Share(RANK_CONSTANT, 61) > Share(RANK_CONSTANT, 1);
      }
    } else {
      SixtyTwoTies();
      if AgreementWins(r) {
        forall left, right, both, single | Competing(left, right, both, single, 62)
          ensures TwoArms(left, right, single) < TwoArms(left, right, both)
        {
          assert Competing(left, right, both, single, r);
        }
        assert AgreementWins(62);
      }
    }
  }

  /** The arm with the documents at `k - 1` and `k` swapped. */
  function Promoted(arm: seq<string>, k: nat): seq<string>
    requires 0 < k < |arm|
  {
    arm[k - 1 := arm[k]][k := arm[k - 1]]
  }

  /** A swap leaves every other document's share alone, raises the promoted one and lowers the other. */
  lemma {:induction false} PromotionShares(arm: seq<string>, k: nat, doc: string, constant: nat)
    requires 0 < k < |arm| && arm[k - 1] != arm[k]
    ensures var was, now := FromArm(arm, doc, constant), FromArm(Promoted(arm, k), doc, constant);
            var step := Share(constant, k) - Share(constant, k + 1);
            step >= 0.0 && now == if doc == arm[k] then was + step else if doc == arm[k - 1] then was - step else was
  {
    ShareFalls(constant, k, k + 1);
    var n := |arm| - 1;
    var p := Promoted(arm, k);
    if k < n {
      assert p[..n] == Promoted(arm[..n], k);
      PromotionShares(arm[..n], k, doc, constant);
    } else {
      assert arm[..n][..n - 1] == p[..n][..n - 1];
      assert FromArm(arm[..n], doc, constant) ==
             FromArm(arm[..n][..n - 1], doc, constant) + if arm[n - 1] == doc then Share(constant, n) else 0.0;
      assert FromArm(p[..n], doc, constant) ==
             FromArm(p[..n][..n - 1], doc, constant) + if p[n - 1] == doc then Share(constant, n) else 0.0;
    }
  }

  lemma {:induction false} PromotionFused(arms: seq<seq<string>>, i: nat, k: nat, doc: string, constant: nat)
    requires i < |arms| && 0 < k < |arms[i]| && arms[i][k - 1] != arms[i][k]
    ensures Fused(arms[i := Promoted(arms[i], k)], doc, constant) - Fused(arms, doc, constant) ==
            FromArm(Promoted(arms[i], k), doc, constant) - FromArm(arms[i], doc, constant)
  {
    var n, after := |arms| - 1, arms[i := Promoted(arms[i], k)];
    if i < n {
      assert after[..n] == arms[..n][i := Promoted(arms[i], k)];
      PromotionFused(arms[..n], i, k, doc, constant);
    } else {
      assert after[..n] == arms[..n];
    }
  }

  lemma PromotionKeepsDocuments(arms: seq<seq<string>>, i: nat, k: nat)
    requires i < |arms| && 0 < k < |arms[i]|
    ensures Documents(arms[i := Promoted(arms[i], k)]) == Documents(arms)
  {
    var after, p := arms[i := Promoted(arms[i], k)], Promoted(arms[i], k);
    forall x | x in Documents(arms) ensures x in Documents(after) {
      var a, b :| 0 <= a < |arms| && 0 <= b < |arms[a]| && arms[a][b] == x;
      if a == i {
        var c := if b == k then k - 1 else if b == k - 1 then k else b;
        assert after[i][c] == x;
      } else {
        assert after[a][b] == x;
      }
    }
    forall x | x in Documents(after) ensures x in Documents(arms) {
      var a, b :| 0 <= a < |after| && 0 <= b < |after[a]| && after[a][b] == x;
      if a == i {
        var c := if b == k then k - 1 else if b == k - 1 then k else b;
        assert arms[i][c] == x;
      } else {
        assert arms[a][b] == x;
      }
    }
  }

  /** The elements of a list that come before `x`. */
  ghost function Ahead<T(!new)>(le: (T, T) -> bool, s: seq<T>, x: T): set<T> {
    set e | e in s && e != x && le(e, x)
  }

  /** A place in a sorted list is the number of elements that come before. */
  lemma PlaceIsCountAhead<T(!new)>(le: (T, T) -> bool, s: seq<T>, k: nat)
    requires TotalOrder(le) && Sorted(le, s) && Distinct(s) && k < |s|
    ensures k == |Ahead(le, s, s[k])|
  {
    var front := ToSet(s[..k]);
    assert forall i :: k < i < |s| ==> le(s[k], s[i]);
    forall e ensures e in Ahead(le, s, s[k]) <==> e in front {
      if e in front {
        var i :| 0 <= i < k && s[i] == e;
      }
      if e in Ahead(le, s, s[k]) {
        var i :| 0 <= i < |s| && s[i] == e;
        assert s[..k][i] == e;
      }
    }
    assert Ahead(le, s, s[k]) == front;
    ToSetSize(s[..k]);
  }

  ghost predicate ScoresOf(arms: seq<seq<string>>, constant: nat, scores: map<string, real>, order: seq<string>) {
    && scores.Keys == Documents(arms)
    && (forall doc :: doc in scores ==> scores[doc] == Fused(arms, doc, constant))
    && Distinct(order) && forall doc :: doc in order <==> doc in scores
  }

  /** A document's place in the full fused ranking. */
  ghost predicate PlacedAt(scores: map<string, real>, order: seq<string>, doc: string, place: nat) {
    place < |order| == |Sort(ByScore(scores), order)| && Sort(ByScore(scores), order)[place] == doc
  }

  lemma PlaceIsAhead(scores: map<string, real>, order: seq<string>, doc: string, place: nat)
    requires Distinct(order) && PlacedAt(scores, order, doc, place)
    ensures place == |Ahead(ByScore(scores), order, doc)|
  {
    SortedIsRanking(scores, order);
    ScoreOrder(scores);
    var s := Sort(ByScore(scores), order);
    PlaceIsCountAhead(ByScore(scores), s, place);
    assert Ahead(ByScore(scores), s, doc) == Ahead(ByScore(scores), order, doc);
  }

  /** Whoever is ahead of the promoted document afterwards was ahead of it before. */
  lemma AheadShrinks(
      arms: seq<seq<string>>, i: nat, k: nat, constant: nat,
      scores: map<string, real>, order: seq<string>, scores': map<string, real>, order': seq<string>, e: string)
    requires i < |arms| && 0 < k < |arms[i]| && arms[i][k - 1] != arms[i][k]
    requires ScoresOf(arms, constant, scores, order)
    requires ScoresOf(arms[i := Promoted(arms[i], k)], constant, scores', order')
    requires e != arms[i][k] && arms[i][k] in scores && e in scores
    requires ByScore(scores')(e, arms[i][k])
    ensures ByScore(scores)(e, arms[i][k])
  {
    hide Fused, FromArm, Share, StringLe, Promoted, Documents;
    var doc := arms[i][k];
    PromotionKeepsDocuments(arms, i, k);
    PromotionFused(arms, i, k, e, constant);
    PromotionShares(arms[i], k, e, constant);
    PromotionFused(arms, i, k, doc, constant);
    PromotionShares(arms[i], k, doc, constant);
    assert At(scores', e) <= At(scores, e) && At(scores, doc) <= At(scores', doc);
  }

  /** Moving a document up one place in one arm never moves it down in the fused ranking. */
  lemma PromotionNeverHurts(
      arms: seq<seq<string>>, i: nat, k: nat, constant: nat,
      scores: map<string, real>, order: seq<string>, scores': map<string, real>, order': seq<string>,
      place: nat, place': nat)
    requires i < |arms| && 0 < k < |arms[i]| && arms[i][k - 1] != arms[i][k]
    requires ScoresOf(arms, constant, scores, order)
    requires ScoresOf(arms[i := Promoted(arms[i], k)], constant, scores', order')
    requires PlacedAt(scores, order, arms[i][k], place) && PlacedAt(scores', order', arms[i][k], place')
    ensures place' <= place
  {
    hide Fused, FromArm, Share, ByScore, Promoted, Documents;
    var doc := arms[i][k];
    PromotionKeepsDocuments(arms, i, k);
    PlaceIsAhead(scores, order, doc, place);
    PlaceIsAhead(scores', order', doc, place');
    InPool(scores, order, doc, place);
    forall e | e in Ahead(ByScore(scores'), order', doc) ensures e in Ahead(ByScore(scores), order, doc) {
      AheadShrinks(arms, i, k, constant, scores, order, scores', order', e);
    }
    SubsetSize(Ahead(ByScore(scores'), order', doc), Ahead(ByScore(scores), order, doc));
  }

  lemma InPool(scores: map<string, real>, order: seq<string>, doc: string, place: nat)
    requires Distinct(order) && PlacedAt(scores, order, doc, place)
    ensures doc in order
  {
    SortedIsRanking(scores, order);
  }
}
