/** The production ordering: rerank score blended with the rescaled retrieval score. */
module Blend {
  import opened Options
  import opened Orders
  import opened RankFusion
  import Reals

  /** The smallest spread of retrieval scores that is still rescaled. */
  const MIN_SPAN: real := 0.000000000001

  /** Scores by document id. */
  type Scores = map<string, real>

  function Low(docs: seq<string>, scores: Scores): real
    requires docs != []
  {
    var last := At(scores, docs[|docs| - 1]);
    if |docs| == 1 then last
    else
      var rest := Low(docs[..|docs| - 1], scores);
      if last < rest then last else rest
  }

  function High(docs: seq<string>, scores: Scores): real
    requires docs != []
  {
    var last := At(scores, docs[|docs| - 1]);
    if |docs| == 1 then last
    else
      var rest := High(docs[..|docs| - 1], scores);
      if last > rest then last else rest
  }

  function Span(docs: seq<string>, rrf: Scores): real
    requires docs != []
  {
    High(docs, rrf) - Low(docs, rrf)
  }

  /** The retrieval score on [0, 1], or one half when the window is flat. */
  function Retrieval(docs: seq<string>, rrf: Scores, doc: string): real
    requires docs != []
  {
    if Span(docs, rrf) > MIN_SPAN then (At(rrf, doc) - Low(docs, rrf)) / Span(docs, rrf) else 0.5
  }

  function Mixed(weight: real, rerank: real, retrieval: real): real {
    weight * rerank + (1.0 - weight) * retrieval
  }

  function Final(docs: seq<string>, rerank: Scores, rrf: Scores, weight: real, doc: string): real
    requires docs != []
  {
    Mixed(weight, At(rerank, doc), Retrieval(docs, rrf, doc))
  }

  function FinalScores(docs: seq<string>, rerank: Scores, rrf: Scores, weight: real): Scores
    requires docs != []
  {
    map doc | doc in docs :: Final(docs, rerank, rrf, weight, doc)
  }

  /** `None` where the source raises: an empty window, or a document without one of its scores. */
  function Ranking(
      docs: seq<string>, rerank: Scores, rrf: Scores, weight: real, depth: nat): Option<seq<string>>
  {
    var window := Take(docs, depth);
    if window == [] || exists d :: d in window && (d !in rerank || d !in rrf) then None
    else Some(Sort(ByScore(FinalScores(window, rerank, rrf, weight)), window))
  }

  /** It raises exactly for an empty window or a document in it that lacks one of its scores. */
  lemma RefusedIff(docs: seq<string>, rerank: Scores, rrf: Scores, weight: real, depth: nat)
    ensures Ranking(docs, rerank, rrf, weight, depth).None? <==>
      docs == [] || depth == 0 || exists i :: 0 <= i < |docs| && i < depth && (docs[i] !in rerank || docs[i] !in rrf)
  {
    var window := Take(docs, depth);
    if d :| d in window && (d !in rerank || d !in rrf) {
      var i :| 0 <= i < |window| && window[i] == d;
      assert docs[i] == d;
    }
    if i :| 0 <= i < |docs| && i < depth && (docs[i] !in rerank || docs[i] !in rrf) {
      assert window[i] in window;
    }
  }

  lemma {:induction false} Extremes(docs: seq<string>, scores: Scores)
    requires docs != []
    ensures forall d :: d in docs ==> Low(docs, scores) <= At(scores, d) <= High(docs, scores)
    ensures exists d :: d in docs && At(scores, d) == Low(docs, scores)
    ensures exists d :: d in docs && At(scores, d) == High(docs, scores)
  {
    var front, last := docs[..|docs| - 1], docs[|docs| - 1];
    assert docs == front + [last];
    if front != [] { Extremes(front, scores); }
  }

  /** The ranking rearranges its window, nothing more. */
  lemma RankingPermutes(docs: seq<string>, rerank: Scores, rrf: Scores, weight: real, depth: nat)
    requires Ranking(docs, rerank, rrf, weight, depth).Some?
    ensures multiset(Ranking(docs, rerank, rrf, weight, depth).value) == multiset(Take(docs, depth))
  {
    var window := Take(docs, depth);
    ScoreOrder(FinalScores(window, rerank, rrf, weight));
    SortSorts(ByScore(FinalScores(window, rerank, rrf, weight)), window);
  }

  /** Every occurrence of `a` stands before every occurrence of `b`. */
  ghost predicate Precedes(s: seq<string>, a: string, b: string) {
    forall i, j :: 0 <= i < |s| && 0 <= j < |s| && s[i] == a && s[j] == b ==> i < j
  }

  /** The blended score decides, and the document id where it ties. */
  lemma ScoreDecides(
      docs: seq<string>, rerank: Scores, rrf: Scores, weight: real, depth: nat, a: string, b: string)
    requires Ranking(docs, rerank, rrf, weight, depth).Some? && a != b
    requires a in Take(docs, depth) && b in Take(docs, depth)
    ensures Precedes(Ranking(docs, rerank, rrf, weight, depth).value, a, b) <==>
            ByScore(FinalScores(Take(docs, depth), rerank, rrf, weight))(a, b)
  {
    var window := Take(docs, depth);
    var scores := FinalScores(window, rerank, rrf, weight);
    ScoreOrder(scores);
    SortSorts(ByScore(scores), window);
    var s := Sort(ByScore(scores), window);
    assert a in multiset(s) && b in multiset(s);
    SortedDecides(ByScore(scores), s, a, b);
  }

  lemma SortedDecides(le: (string, string) -> bool, s: seq<string>, a: string, b: string)
    requires TotalOrder(le) && Sorted(le, s) && a != b && a in s && b in s
    ensures Precedes(s, a, b) <==> le(a, b)
  {
    var i :| 0 <= i < |s| && s[i] == a;
    var j :| 0 <= j < |s| && s[j] == b;
    if le(a, b) { assert !le(b, a); }
  }

  lemma HigherFinalPrecedes(
      docs: seq<string>, rerank: Scores, rrf: Scores, weight: real, depth: nat, a: string, b: string)
    requires Ranking(docs, rerank, rrf, weight, depth).Some?
    requires a in Take(docs, depth) && b in Take(docs, depth)
    requires Final(Take(docs, depth), rerank, rrf, weight, a) > Final(Take(docs, depth), rerank, rrf, weight, b)
    ensures Precedes(Ranking(docs, rerank, rrf, weight, depth).value, a, b)
  {
    hide Final, Sort, Precedes, StringLe;
    var scores := FinalScores(Take(docs, depth), rerank, rrf, weight);
    ScoreDecides(docs, rerank, rrf, weight, depth, a, b);
    assert At(scores, a) > At(scores, b);
    assert ByScore(scores)(a, b);
  }

  lemma Quotient(x: real, y: real, span: real)
    requires span > 0.0
    ensures x <= y ==> x / span <= y / span
    ensures x < y ==> x / span < y / span
    ensures 0.0 <= x <= span ==> 0.0 <= x / span <= 1.0
  {
    assert (y - x) / span == y / span - x / span;
  }

  lemma RetrievalInUnit(docs: seq<string>, rrf: Scores, doc: string)
    requires docs != [] && doc in docs
    ensures 0.0 <= Retrieval(docs, rrf, doc) <= 1.0
  {
    Extremes(docs, rrf);
    if Span(docs, rrf) > MIN_SPAN { Quotient(At(rrf, doc) - Low(docs, rrf), 0.0, Span(docs, rrf)); }
  }

  /** `low` and `high` are the least and the greatest retrieval score in the window. */
  ghost predicate Bounds(window: seq<string>, rrf: Scores, low: real, high: real) {
    && (forall d :: d in window && d in rrf ==> low <= rrf[d] <= high)
    && (exists d :: d in window && d in rrf && rrf[d] == low)
    && (exists d :: d in window && d in rrf && rrf[d] == high)
  }

  /** The retrieval score is linear between the window's least, at zero, and its greatest, at one. */
  lemma RetrievalInPlain(window: seq<string>, rrf: Scores, doc: string, low: real, high: real)
    requires doc in window && (forall d :: d in window ==> d in rrf) && Bounds(window, rrf, low, high)
    ensures high - low <= 0.000000000001 ==> Retrieval(window, rrf, doc) == 0.5
    ensures high - low > 0.000000000001 ==> Retrieval(window, rrf, doc) == (rrf[doc] - low) / (high - low)
  {
    hide Low, High;
    Extremes(window, rrf);
    var l :| l in window && l in rrf && rrf[l] == low;
    var h :| h in window && h in rrf && rrf[h] == high;
    var l' :| l' in window && At(rrf, l') == Low(window, rrf);
    var h' :| h' in window && At(rrf, h') == High(window, rrf);
    assert Low(window, rrf) <= At(rrf, l) && At(rrf, h) <= High(window, rrf);
  }

  /**
   The production order in plain terms: a precedes b exactly when its weighted sum of rerank score and
   rescaled retrieval score is higher, or as high with the smaller id.
   */
  lemma PrecedesInPlain(
      docs: seq<string>, rerank: Scores, rrf: Scores, weight: real, depth: nat, a: string, b: string,
      low: real, high: real)
    requires Ranking(docs, rerank, rrf, weight, depth).Some? && a != b
    requires a in Take(docs, depth) && b in Take(docs, depth) && Bounds(Take(docs, depth), rrf, low, high)
    ensures var flat := high - low <= 0.000000000001;
            var u := if flat then 0.5 else (rrf[a] - low) / (high - low);
            var v := if flat then 0.5 else (rrf[b] - low) / (high - low);
            var x := weight * rerank[a] + (1.0 - weight) * u;
            var y := weight * rerank[b] + (1.0 - weight) * v;
            Precedes(Ranking(docs, rerank, rrf, weight, depth).value, a, b) <==> x > y || (x == y && StringLe(a, b))
  {
    hide StringLe, Low, High, Retrieval, Sort, Mixed;
    var window := Take(docs, depth);
    RetrievalInPlain(window, rrf, a, low, high);
    RetrievalInPlain(window, rrf, b, low, high);
    hide Bounds, Precedes;
    ScoreDecides(docs, rerank, rrf, weight, depth, a, b);
    MixedInPlain(weight, rerank[a], Retrieval(window, rrf, a));
    MixedInPlain(weight, rerank[b], Retrieval(window, rrf, b));
    assert At(FinalScores(window, rerank, rrf, weight), a) == Mixed(weight, rerank[a], Retrieval(window, rrf, a));
    assert At(FinalScores(window, rerank, rrf, weight), b) == Mixed(weight, rerank[b], Retrieval(window, rrf, b));
  }

  lemma MixedInPlain(weight: real, rerank: real, retrieval: real)
    ensures Mixed(weight, rerank, retrieval) == weight * rerank + (1.0 - weight) * retrieval
  {
  }

  /** What one document must beat another by, when it is at least as good on both scores. */
  ghost predicate BetterOnOne(window: seq<string>, rerank: Scores, rrf: Scores, a: string, b: string)
    requires window != []
  {
    At(rerank, a) > At(rerank, b) || (At(rrf, a) > At(rrf, b) && Span(window, rrf) > MIN_SPAN)
  }

  /**
   * A document at least as good on both scores comes first exactly when it is better on one
   * that still counts, or else has the smaller id. In a flat window retrieval does not count.
   */
  lemma DominationPrecedesIff(
      docs: seq<string>, rerank: Scores, rrf: Scores, weight: real, depth: nat, a: string, b: string)
    requires Ranking(docs, rerank, rrf, weight, depth).Some? && 0.0 < weight < 1.0 && a != b
    requires a in Take(docs, depth) && b in Take(docs, depth)
    requires At(rerank, a) >= At(rerank, b) && At(rrf, a) >= At(rrf, b)
    ensures Precedes(Ranking(docs, rerank, rrf, weight, depth).value, a, b) <==>
            BetterOnOne(Take(docs, depth), rerank, rrf, a, b) || StringLe(a, b)
  {
    hide Mixed, StringLe, Low, High;
    var window := Take(docs, depth);
    if Span(window, rrf) > MIN_SPAN {
      Quotient(At(rrf, b) - Low(window, rrf), At(rrf, a) - Low(window, rrf), Span(window, rrf));
    }
    var x, y := Retrieval(window, rrf, a), Retrieval(window, rrf, b);
    assert x >= y && (BetterOnOne(window, rerank, rrf, a, b) <==> At(rerank, a) > At(rerank, b) || x > y);
    if At(rerank, a) > At(rerank, b) || x > y {
      Weigh(weight, At(rerank, a), At(rerank, b), x, y);
    }
    ScoreDecides(docs, rerank, rrf, weight, depth, a, b);
    assert At(FinalScores(window, rerank, rrf, weight), a) == Mixed(weight, At(rerank, a), x);
    assert At(FinalScores(window, rerank, rrf, weight), b) == Mixed(weight, At(rerank, b), y);
  }

  lemma Weigh(w: real, p: real, q: real, x: real, y: real)
    requires 0.0 < w < 1.0 && p >= q && x >= y && (p > q || x > y)
    ensures Mixed(w, p, x) > Mixed(w, q, y)
  {
    hide Mixed, Reals.Times;
    Reals.Product(w, p - q);
    Reals.Product(1.0 - w, x - y);
    MixedDifference(w, p, q, x, y);
  }

  lemma MixedDifference(w: real, p: real, q: real, x: real, y: real)
    ensures Mixed(w, p, x) - Mixed(w, q, y) == Reals.Times(w, p - q) + Reals.Times(1.0 - w, x - y)
  {
  }

  /** A rerank lead over (1 - w) / w wins whatever the retrieval scores; at 0.85 that is 3/17. */
  lemma LargeLeadPrecedes(
      docs: seq<string>, rerank: Scores, rrf: Scores, weight: real, depth: nat, a: string, b: string)
    requires Ranking(docs, rerank, rrf, weight, depth).Some? && 0.0 < weight <= 1.0
    requires a in Take(docs, depth) && b in Take(docs, depth)
    requires rerank[a] - rerank[b] > (1.0 - weight) / weight
    ensures Precedes(Ranking(docs, rerank, rrf, weight, depth).value, a, b)
    ensures weight == 0.85 ==> (1.0 - weight) / weight == 3.0 / 17.0
  {
    var window := Take(docs, depth);
    RetrievalInUnit(window, rrf, a);
    RetrievalInUnit(window, rrf, b);
    LeadCovers(weight, rerank[a], rerank[b], Retrieval(window, rrf, a), Retrieval(window, rrf, b));
    HigherFinalPrecedes(docs, rerank, rrf, weight, depth, a, b);
  }

  lemma LeadCovers(w: real, p: real, q: real, x: real, y: real)
    requires 0.0 < w <= 1.0 && p - q > (1.0 - w) / w && 0.0 <= x <= 1.0 && 0.0 <= y <= 1.0
    ensures Mixed(w, p, x) > Mixed(w, q, y)
  {
    var c := (1.0 - w) / w;
    Reals.Product(w, p - q - c);
    Reals.Product(1.0 - w, 1.0 - (y - x));
    Lead(w, p, q, x, y, c);
  }

  lemma Lead(w: real, p: real, q: real, x: real, y: real, c: real)
    requires c * w == 1.0 - w && w * (p - q - c) > 0.0 && (1.0 - w) * (1.0 - (y - x)) >= 0.0
    ensures Mixed(w, p, x) > Mixed(w, q, y)
  {
    MixedDifference(w, p, q, x, y);
    assert w * (p - q - c) == w * (p - q) - w * c;
    assert (1.0 - w) * (1.0 - (y - x)) == (1.0 - w) + (1.0 - w) * (x - y);
  }

  function Affine(scale: real, shift: real, x: real): real {
    scale * x + shift
  }

  /** `after` is a positive affine rescaling of `before` on the window. */
  ghost predicate Rescaled(window: seq<string>, before: Scores, after: Scores, scale: real, shift: real) {
    scale > 0.0 && forall d :: d in window ==> d in before && d in after && after[d] == Affine(scale, shift, before[d])
  }

  lemma ScaleMonotone(scale: real, shift: real, x: real, y: real)
    requires scale > 0.0 && x <= y
    ensures Affine(scale, shift, x) <= Affine(scale, shift, y)
  {
    Reals.Product(scale, y - x);
    assert scale * (y - x) == scale * y - scale * x;
  }

  lemma RescaledLow(window: seq<string>, before: Scores, after: Scores, scale: real, shift: real)
    requires window != [] && Rescaled(window, before, after, scale, shift)
    ensures Low(window, after) == Affine(scale, shift, Low(window, before))
  {
    hide Low, High, Affine;
    Extremes(window, before);
    Extremes(window, after);
    var l :| l in window && At(before, l) == Low(window, before);
    var l' :| l' in window && At(after, l') == Low(window, after);
    ScaleMonotone(scale, shift, At(before, l), At(before, l'));
  }

  lemma RescaledHigh(window: seq<string>, before: Scores, after: Scores, scale: real, shift: real)
    requires window != [] && Rescaled(window, before, after, scale, shift)
    ensures High(window, after) == Affine(scale, shift, High(window, before))
  {
    hide Low, High, Affine;
    Extremes(window, before);
    Extremes(window, after);
    var h :| h in window && At(before, h) == High(window, before);
    var h' :| h' in window && At(after, h') == High(window, after);
    ScaleMonotone(scale, shift, At(before, h'), At(before, h));
  }

  lemma RescaledRetrieval(
      window: seq<string>, before: Scores, after: Scores, scale: real, shift: real, doc: string)
    requires window != [] && Rescaled(window, before, after, scale, shift) && doc in window
    requires Span(window, before) > MIN_SPAN && Span(window, after) > MIN_SPAN
    ensures Retrieval(window, after, doc) == Retrieval(window, before, doc)
  {
    hide Low, High, Affine;
    RescaledLow(window, before, after, scale, shift);
    RescaledHigh(window, before, after, scale, shift);
    var x, span := At(before, doc) - Low(window, before), Span(window, before);
    Spread(scale, shift, At(before, doc), Low(window, before));
    Spread(scale, shift, High(window, before), Low(window, before));
    CancelScale(scale, x, span);
  }

  lemma Spread(scale: real, shift: real, x: real, y: real)
    ensures Affine(scale, shift, x) - Affine(scale, shift, y) == scale * (x - y)
  {
  }

  lemma CancelScale(scale: real, x: real, span: real)
    requires scale > 0.0 && span > 0.0
    ensures scale * span > 0.0 && (scale * x) / (scale * span) == x / span
  {
    var q := x / span;
    assert scale * x == scale * (q * span) == q * (scale * span);
  }

  /** Rescaling the retrieval scores, short of flattening them, changes nothing. */
  lemma RescalingChangesNothing(
      docs: seq<string>, rerank: Scores, before: Scores, after: Scores,
      weight: real, depth: nat, scale: real, shift: real)
    requires Take(docs, depth) != [] && Rescaled(Take(docs, depth), before, after, scale, shift)
    requires Span(Take(docs, depth), before) > MIN_SPAN && Span(Take(docs, depth), after) > MIN_SPAN
    ensures Ranking(docs, rerank, after, weight, depth) == Ranking(docs, rerank, before, weight, depth)
  {
    hide Retrieval, Span, Low, High, Final, FinalScores, Sort;
    var window := Take(docs, depth);
    forall d | d in window ensures Retrieval(window, after, d) == Retrieval(window, before, d) {
      RescaledRetrieval(window, before, after, scale, shift, d);
    }
    SameRetrievalSameScores(window, rerank, before, after, weight);
    assert forall d :: d in window ==> d in before && d in after;
  }

  lemma SameRetrievalSameScores(
      window: seq<string>, rerank: Scores, before: Scores, after: Scores, weight: real)
    requires window != [] && forall d :: d in window ==> Retrieval(window, after, d) == Retrieval(window, before, d)
    ensures FinalScores(window, rerank, after, weight) == FinalScores(window, rerank, before, weight)
  {
    hide Retrieval, Mixed;
    forall d | d in window
      ensures Final(window, rerank, after, weight, d) == Final(window, rerank, before, weight, d)
    {
      assert Retrieval(window, after, d) == Retrieval(window, before, d);
    }
  }

  /** At weight one the ranking is the rerank order, whatever the retrieval scores. */
  lemma FullWeightIsRerankOrder(docs: seq<string>, rerank: Scores, rrf: Scores, depth: nat)
    requires Ranking(docs, rerank, rrf, 1.0, depth).Some?
    ensures Sorted(ByScore(rerank), Ranking(docs, rerank, rrf, 1.0, depth).value)
    ensures Ranking(docs, rerank, rrf, 1.0, depth).value == Sort(ByScore(rerank), Take(docs, depth))
  {
    var window := Take(docs, depth);
    var scores := FinalScores(window, rerank, rrf, 1.0);
    forall d | d in window ensures At(scores, d) == At(rerank, d) {
      assert Mixed(1.0, At(rerank, d), Retrieval(window, rrf, d)) == At(rerank, d);
    }
    ScoreOrder(scores);
    ScoreOrder(rerank);
    SortSorts(ByScore(scores), window);
    SortSorts(ByScore(rerank), window);
    var s := Sort(ByScore(scores), window);
    forall i, j | 0 <= i < j < |s| ensures ByScore(rerank)(s[i], s[j]) {
      assert s[i] in multiset(s) && s[j] in multiset(s);
      assert s[i] in window && s[j] in window;
      assert ByScore(scores)(s[i], s[j]);
    }
    SortedUnique(ByScore(rerank), s, Sort(ByScore(rerank), window));
  }
}
