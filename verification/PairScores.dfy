/** From ranked pools to one score per document: flattened pairs, the scores read back, the orders built on them. */
module PairScores {
  import Blend
  import opened Options
  import opened Orders
  import opened RankFusion

  type Pair = (string, string)
  type Children = map<string, seq<string>>

  /** A question and the fused pool to rerank for it. */
  datatype Query = Query(question: string, fused: seq<string>)

  function DocPairs(question: string, kids: seq<string>): seq<Pair> {
    seq(|kids|, i requires 0 <= i < |kids| => (question, kids[i]))
  }

  predicate Known(docs: seq<string>, children: Children) {
    forall d :: d in docs ==> d in children && children[d] != []
  }

  predicate AllKnown(queries: seq<Query>, children: Children) {
    forall i :: 0 <= i < |queries| ==> Known(queries[i].fused, children)
  }

  function QueryPairs(question: string, docs: seq<string>, children: Children): seq<Pair>
    requires Known(docs, children)
  {
    if docs == [] then []
    else
      var n := |docs| - 1;
      QueryPairs(question, docs[..n], children) + DocPairs(question, children[docs[n]])
  }

  function AllPairs(queries: seq<Query>, children: Children): seq<Pair>
    requires AllKnown(queries, children)
  {
    if queries == [] then []
    else
      var n := |queries| - 1;
      AllPairs(queries[..n], children) + QueryPairs(queries[n].question, queries[n].fused, children)
  }

  /** What an elementwise scorer makes of a list. */
  function Scored<T>(predict: T -> real, s: seq<T>): seq<real> {
    seq(|s|, i requires 0 <= i < |s| => predict(s[i]))
  }

  function MaxOf(s: seq<real>): real
    requires s != []
  {
    if |s| == 1 then s[0] else if MaxOf(s[1..]) > s[0] then MaxOf(s[1..]) else s[0]
  }

  lemma {:induction false} MaxIsGreatest(s: seq<real>)
    requires s != []
    ensures MaxOf(s) in s && forall i :: 0 <= i < |s| ==> s[i] <= MaxOf(s)
  {
    if |s| > 1 {
      MaxIsGreatest(s[1..]);
      assert forall i :: 0 < i < |s| ==> s[i] == s[1..][i - 1];
    }
  }

  /** The best of a document's own passages, each scored with the question. */
  function DocScore(predict: Pair -> real, question: string, kids: seq<string>): real
    requires kids != []
  {
    MaxOf(Scored(predict, DocPairs(question, kids)))
  }

  /** Reached by one of the document's passages, and by none of them passed. */
  lemma DocScoreIsBestPassage(predict: Pair -> real, question: string, kids: seq<string>)
    requires kids != []
    ensures exists k :: 0 <= k < |kids| && predict((question, kids[k])) == DocScore(predict, question, kids)
    ensures forall k :: 0 <= k < |kids| ==> predict((question, kids[k])) <= DocScore(predict, question, kids)
  {
    var s := Scored(predict, DocPairs(question, kids));
    MaxIsGreatest(s);
    var k :| 0 <= k < |s| && s[k] == MaxOf(s);
    assert predict((question, kids[k])) == s[k];
    assert forall i :: 0 <= i < |kids| ==> predict((question, kids[i])) == s[i];
  }

  type Scores = seq<(real, string)>

  /** Each document of a pool with its score, in pool order. */
  function DocScores(predict: Pair -> real, question: string, docs: seq<string>, children: Children): Scores
    requires Known(docs, children)
  {
    seq(|docs|, i requires 0 <= i < |docs| => (DocScore(predict, question, children[docs[i]]), docs[i]))
  }

  lemma {:induction false} QueryPairsPrefix(question: string, docs: seq<string>, children: Children, j: nat)
    requires Known(docs, children) && j <= |docs|
    ensures Known(docs[..j], children)
    ensures QueryPairs(question, docs[..j], children) <= QueryPairs(question, docs, children)
  {
    if j == |docs| {
      assert docs[..j] == docs;
    } else {
      var n := |docs| - 1;
      assert docs[..n][..j] == docs[..j];
      QueryPairsPrefix(question, docs[..n], children, j);
    }
  }

  lemma {:induction false} AllPairsPrefix(queries: seq<Query>, children: Children, i: nat)
    requires AllKnown(queries, children) && i <= |queries|
    ensures AllKnown(queries[..i], children)
    ensures AllPairs(queries[..i], children) <= AllPairs(queries, children)
  {
    if i == |queries| {
      assert queries[..i] == queries;
    } else {
      var n := |queries| - 1;
      assert queries[..n][..i] == queries[..i];
      AllPairsPrefix(queries[..n], children, i);
    }
  }

  /** Where the pairs of document `j` of query `i` start. */
  function Offset(queries: seq<Query>, children: Children, i: nat, j: nat): nat
    requires AllKnown(queries, children) && i < |queries| && j <= |queries[i].fused|
  {
    |AllPairs(queries[..i], children)| + |QueryPairs(queries[i].question, queries[i].fused[..j], children)|
  }

  lemma QueryWithin(queries: seq<Query>, children: Children, i: nat)
    requires AllKnown(queries, children) && i < |queries|
    ensures AllKnown(queries[..i], children)
    ensures AllPairs(queries[..i], children) + QueryPairs(queries[i].question, queries[i].fused, children)
         <= AllPairs(queries, children)
  {
    hide QueryPairs;
    AllPairsPrefix(queries, children, i + 1);
    assert queries[..i + 1][..i] == queries[..i];
  }

  lemma DocWithin(question: string, docs: seq<string>, children: Children, j: nat)
    requires Known(docs, children) && j < |docs|
    ensures Known(docs[..j], children) && Known(docs[..j + 1], children)
    ensures QueryPairs(question, docs[..j + 1], children)
         == QueryPairs(question, docs[..j], children) + DocPairs(question, children[docs[j]])
    ensures QueryPairs(question, docs[..j + 1], children) <= QueryPairs(question, docs, children)
  {
    hide DocPairs;
    QueryPairsPrefix(question, docs, children, j + 1);
    assert docs[..j + 1][..j] == docs[..j];
  }

  /** A document's pairs stand at its offset, and the next document's offset is where they end. */
  lemma PairsAtOffset(queries: seq<Query>, children: Children, i: nat, j: nat)
    requires AllKnown(queries, children) && i < |queries| && j < |queries[i].fused|
    ensures var q := queries[i];
            var start, kids := Offset(queries, children, i, j), children[q.fused[j]];
            && Offset(queries, children, i, j + 1) == start + |kids| <= |AllPairs(queries, children)|
            && AllPairs(queries, children)[start..start + |kids|] == DocPairs(q.question, kids)
  {
    hide AllPairs, QueryPairs;
    var q := queries[i];
    QueryWithin(queries, children, i);
    DocWithin(q.question, q.fused, children, j);
    SliceOfPrefix(AllPairs(queries[..i], children), QueryPairs(q.question, q.fused[..j], children),
                  DocPairs(q.question, children[q.fused[j]]), QueryPairs(q.question, q.fused, children),
                  AllPairs(queries, children));
  }

  lemma SliceOfPrefix<T>(before: seq<T>, head: seq<T>, kids: seq<T>, query: seq<T>, all: seq<T>)
    requires before + query <= all && head + kids <= query
    ensures |before| + |head| + |kids| <= |all|
    ensures all[|before| + |head|..|before| + |head| + |kids|] == kids
  {
    assert forall k :: 0 <= k < |query| ==> all[|before| + k] == (before + query)[|before| + k] == query[k];
    assert forall k :: 0 <= k < |kids| ==> query[|head| + k] == (head + kids)[|head| + k] == kids[k];
  }

  lemma OffsetsMeet(queries: seq<Query>, children: Children, i: nat)
    requires AllKnown(queries, children) && i < |queries|
    ensures Offset(queries, children, i, 0) == |AllPairs(queries[..i], children)|
    ensures AllKnown(queries[..i + 1], children)
    ensures Offset(queries, children, i, |queries[i].fused|) == |AllPairs(queries[..i + 1], children)|
  {
    assert queries[..i + 1][..i] == queries[..i];
    assert queries[i].fused[..|queries[i].fused|] == queries[i].fused;
  }

  /** Reading the flat scores back with one running offset. */
  method Consume(queries: seq<Query>, children: Children, predict: Pair -> real, scores: seq<real>)
    returns (perQuery: seq<Scores>, offset: nat)
    requires AllKnown(queries, children) && scores == Scored(predict, AllPairs(queries, children))
    ensures offset == |scores|
    ensures |perQuery| == |queries|
    ensures forall i :: 0 <= i < |queries| ==>
      perQuery[i] == DocScores(predict, queries[i].question, queries[i].fused, children)
  {
    hide AllPairs, QueryPairs, DocScores, Offset;
    perQuery, offset := [], 0;
    NoPairs(children);
    for i := 0 to |queries|
      invariant offset == |AllPairs(queries[..i], children)|
      invariant |perQuery| == i
      invariant forall k :: 0 <= k < i ==>
        perQuery[k] == DocScores(predict, queries[k].question, queries[k].fused, children)
    {
      OffsetsMeet(queries, children, i);
      var docScores;
      docScores, offset := ConsumeQuery(queries, children, predict, scores, i, offset);
      perQuery := perQuery + [docScores];
    }
    assert queries[..|queries|] == queries;
  }

  lemma NoPairs(children: Children)
    ensures AllPairs([], children) == []
  {
  }

  /** The inner loop over one query's pool. */
  method ConsumeQuery(
      queries: seq<Query>, children: Children, predict: Pair -> real, scores: seq<real>, i: nat, start: nat)
    returns (docScores: Scores, offset: nat)
    requires AllKnown(queries, children) && i < |queries| && scores == Scored(predict, AllPairs(queries, children))
    requires start == Offset(queries, children, i, 0)
    ensures offset == Offset(queries, children, i, |queries[i].fused|)
    ensures docScores == DocScores(predict, queries[i].question, queries[i].fused, children)
  {
    hide AllPairs, QueryPairs, MaxOf, Offset;
    var q := queries[i];
    docScores, offset := [], start;
    for j := 0 to |q.fused|
      invariant offset == Offset(queries, children, i, j)
      invariant |docScores| == j
      invariant forall k :: 0 <= k < j ==>
        docScores[k] == (DocScore(predict, q.question, children[q.fused[k]]), q.fused[k])
    {
      var kids := children[q.fused[j]];
      PairsAtOffset(queries, children, i, j);
      var local := scores[offset..offset + |kids|];
      assert local == Scored(predict, AllPairs(queries, children)[offset..offset + |kids|]);
      offset := offset + |kids|;
      docScores := docScores + [(MaxOf(local), q.fused[j])];
    }
  }

  /** `None` where the source raises: a pool document without passages. */
  method ScorePools(queries: seq<Query>, children: Children, predict: Pair -> real) returns (r: Option<seq<Scores>>)
    ensures r.None? <==> !AllKnown(queries, children)
    ensures r.Some? ==> |r.value| == |queries| && forall i :: 0 <= i < |queries| ==>
      r.value[i] == DocScores(predict, queries[i].question, queries[i].fused, children)
  {
    if !AllKnown(queries, children) { return None; }
    var perQuery, offset := Consume(queries, children, predict, Scored(predict, AllPairs(queries, children)));
    r := Some(perQuery);
  }

  /** `sorted(doc_scores, key=lambda item: (-item[0], item[1]))`. */
  predicate PairLe(a: (real, string), b: (real, string)) {
    a.0 > b.0 || (a.0 == b.0 && StringLe(a.1, b.1))
  }

  function Docs(scores: Scores): seq<string> {
    seq(|scores|, i requires 0 <= i < |scores| => scores[i].1)
  }

  /** The dictionary of a query's scores by document. */
  function ByDoc(scores: Scores): map<string, real> {
    if scores == [] then map[]
    else
      var n := |scores| - 1;
      ByDoc(scores[..n])[scores[n].1 := scores[n].0]
  }

  /** Equal documents carry equal scores, as they do when one scorer saw them all. */
  ghost predicate Consistent(scores: Scores) {
    forall i, j :: 0 <= i < |scores| && 0 <= j < |scores| && scores[i].1 == scores[j].1 ==> scores[i].0 == scores[j].0
  }

  lemma DocScoresConsistent(predict: Pair -> real, question: string, docs: seq<string>, children: Children)
    requires Known(docs, children)
    ensures Consistent(DocScores(predict, question, docs, children))
    ensures Docs(DocScores(predict, question, docs, children)) == docs
  {
  }

  lemma {:induction false} ByDocLooksUp(scores: Scores)
    requires Consistent(scores)
    ensures forall d :: d in ByDoc(scores) <==> d in Docs(scores)
    ensures forall i :: 0 <= i < |scores| ==> scores[i].1 in ByDoc(scores) && ByDoc(scores)[scores[i].1] == scores[i].0
  {
    if scores != [] {
      var n := |scores| - 1;
      ByDocLooksUp(scores[..n]);
      assert Docs(scores) == Docs(scores[..n]) + [scores[n].1];
    }
  }

  /** The pairs that a dictionary gives for a list of documents. */
  function Lookup(byDoc: map<string, real>, docs: seq<string>): Scores {
    seq(|docs|, i requires 0 <= i < |docs| => (At(byDoc, docs[i]), docs[i]))
  }

  lemma {:induction false} InsertLookup(byDoc: map<string, real>, d: string, docs: seq<string>)
    ensures Insert(PairLe, (At(byDoc, d), d), Lookup(byDoc, docs)) == Lookup(byDoc, Insert(ByScore(byDoc), d, docs))
  {
    if docs != [] {
      assert Lookup(byDoc, docs)[1..] == Lookup(byDoc, docs[1..]);
      InsertLookup(byDoc, d, docs[1..]);
    }
  }

  lemma {:induction false} SortLookup(byDoc: map<string, real>, docs: seq<string>)
    ensures Sort(PairLe, Lookup(byDoc, docs)) == Lookup(byDoc, Sort(ByScore(byDoc), docs))
  {
    if docs != [] {
      assert Lookup(byDoc, docs)[1..] == Lookup(byDoc, docs[1..]);
      SortLookup(byDoc, docs[1..]);
      InsertLookup(byDoc, docs[0], Sort(ByScore(byDoc), docs[1..]));
    }
  }

  /** Sorting the scored pairs sorts the documents by the dictionary. */
  lemma SortedPairsRankDocs(scores: Scores)
    requires Consistent(scores)
    ensures Docs(Sort(PairLe, scores)) == Sort(ByScore(ByDoc(scores)), Docs(scores))
  {
    ByDocLooksUp(scores);
    assert scores == Lookup(ByDoc(scores), Docs(scores));
    SortLookup(ByDoc(scores), Docs(scores));
  }

  /** The depth-100 order with everything outside the published pool left out. */
  function Published(sorted: seq<string>, pool: seq<string>): seq<string> {
    Filter((d: string) => d in pool, sorted)
  }

  lemma {:induction false} FilterAll<T>(p: T -> bool, s: seq<T>)
    requires forall x :: x in s ==> p(x)
    ensures Filter(p, s) == s
  {
    if s != [] { FilterAll(p, s[1..]); }
  }

  lemma {:induction false} FilterNone<T>(p: T -> bool, s: seq<T>)
    requires forall x :: x in s ==> !p(x)
    ensures Filter(p, s) == []
  {
    if s != [] { FilterNone(p, s[1..]); }
  }

  lemma {:induction false} FilterAppend<T>(p: T -> bool, a: seq<T>, b: seq<T>)
    ensures Filter(p, a + b) == Filter(p, a) + Filter(p, b)
  {
    if a == [] {
      assert a + b == b;
    } else {
      assert (a + b)[1..] == a[1..] + b && (a + b)[0] == a[0];
      FilterAppend(p, a[1..], b);
      var head := if p(a[0]) then [a[0]] else [];
      assert head + (Filter(p, a[1..]) + Filter(p, b)) == (head + Filter(p, a[1..])) + Filter(p, b);
    }
  }

  lemma FilterPrefix(fused: seq<string>, n: nat)
    requires Distinct(fused)
    ensures Published(fused, Take(fused, n)) == Take(fused, n)
  {
    var pool := Take(fused, n);
    var rest := fused[|pool|..];
    assert fused == pool + rest;
    assert forall i, j :: 0 <= i < |pool| && 0 <= j < |rest| ==> pool[i] != rest[j];
    FilterAppend((d: string) => d in pool, pool, rest);
    FilterAll((d: string) => d in pool, pool);
    FilterNone((d: string) => d in pool, rest);
  }

  lemma PublishedScores(scores: Scores, n: nat)
    requires Consistent(scores) && Distinct(Docs(scores))
    ensures Published(Docs(Sort(PairLe, scores)), Take(Docs(scores), n)) == Docs(Sort(PairLe, Take(scores, n)))
  {
    hide Sort, Filter, PairLe, ByScore, Consistent;
    var byDoc, docs, pool := ByDoc(scores), Docs(scores), Take(Docs(scores), n);
    SortedPairsRankDocs(scores);
    ScoreOrder(byDoc);
    FilterSort(ByScore(byDoc), (d: string) => d in pool, docs);
    FilterPrefix(docs, n);
    PairsAreLookup(scores, n);
    SortLookup(byDoc, pool);
    assert Docs(Lookup(byDoc, Sort(ByScore(byDoc), pool))) == Sort(ByScore(byDoc), pool);
  }

  lemma PairsAreLookup(scores: Scores, n: nat)
    requires Consistent(scores)
    ensures Take(scores, n) == Lookup(ByDoc(scores), Take(Docs(scores), n))
  {
    hide ByDoc;
    ByDocLooksUp(scores);
  }

  /** Filtering the long reranked list to the published pool is reranking that pool alone. */
  lemma PublishedIsPoolAlone(predict: Pair -> real, question: string, fused: seq<string>, children: Children, n: nat)
    requires Known(fused, children) && Distinct(fused)
    ensures var all := Docs(Sort(PairLe, DocScores(predict, question, fused, children)));
            var pool := Take(fused, n);
            Known(pool, children)
            && Published(all, pool) == Docs(Sort(PairLe, DocScores(predict, question, pool, children)))
  {
    hide Sort, DocScore, Published;
    DocScoresConsistent(predict, question, fused, children);
    PublishedScores(DocScores(predict, question, fused, children), n);
    assert Take(DocScores(predict, question, fused, children), n)
        == DocScores(predict, question, Take(fused, n), children);
  }

  const RERANK_DEPTH: nat := 100

  /** A document's value in the other protocol, which scores a document without passages zero. */
  function PoolValue(predict: Pair -> real, question: string, kids: seq<string>): real {
    if kids == [] then 0.0 else DocScore(predict, question, kids)
  }

  predicate AllPresent(docs: seq<string>, children: Children) {
    forall d :: d in docs ==> d in children
  }

  /** One query: where each document's children went, then the best of each span. */
  method RerankPool(question: string, docs: seq<string>, children: Children, predict: Pair -> real)
    returns (values: seq<real>)
    requires AllPresent(docs, children)
    ensures |values| == |docs|
    ensures forall k :: 0 <= k < |docs| ==> values[k] == PoolValue(predict, question, children[docs[k]])
  {
    hide DocScore, MaxOf;
    var texts: seq<string>, spans: seq<(nat, nat)> := [], [];
    for k := 0 to |docs|
      invariant |spans| == k
      invariant forall j :: 0 <= j < k ==> SpanOf(spans[j], texts, children[docs[j]])
    {
      var kids := children[docs[k]];
      forall j | 0 <= j < k ensures SpanOf(spans[j], texts + kids, children[docs[j]]) {
        assert (texts + kids)[spans[j].0..spans[j].1] == texts[spans[j].0..spans[j].1];
      }
      spans := spans + [(|texts|, |texts| + |kids|)];
      texts := texts + kids;
    }
    var flat := Scored((text: string) => predict((question, text)), texts);
    values := [];
    for k := 0 to |spans|
      invariant |values| == k
      invariant forall j :: 0 <= j < k ==> values[j] == PoolValue(predict, question, children[docs[j]])
    {
      var (start, stop) := spans[k];
      assert SpanOf(spans[k], texts, children[docs[k]]);
      assert flat[start..stop] == Scored((text: string) => predict((question, text)), children[docs[k]]);
      if stop > start { SpanScore(predict, question, children[docs[k]]); }
      values := values + [if stop > start then MaxOf(flat[start..stop]) else 0.0];
    }
  }

  lemma SpanScore(predict: Pair -> real, question: string, kids: seq<string>)
    requires kids != []
    ensures MaxOf(Scored((text: string) => predict((question, text)), kids)) == DocScore(predict, question, kids)
  {
    assert Scored((text: string) => predict((question, text)), kids) == Scored(predict, DocPairs(question, kids));
  }

  predicate WithinUnit(values: seq<seq<real>>) {
    forall i, k :: 0 <= i < |values| && 0 <= k < |values[i]| ==> 0.0 <= values[i][k] <= 1.0
  }

  /** What the other protocol insists on before it scores anything. */
  predicate Scorable(questions: seq<string>, pools: seq<seq<string>>, children: Children) {
    pools != [] && |questions| == |pools|
    && forall i :: 0 <= i < |pools| ==> |pools[i]| == RERANK_DEPTH && AllPresent(pools[i], children)
  }

  function PoolValues(predict: Pair -> real, question: string, docs: seq<string>, children: Children): seq<real>
    requires AllPresent(docs, children)
  {
    seq(|docs|, k requires 0 <= k < |docs| => PoolValue(predict, question, children[docs[k]]))
  }

  /** The best child's score, or zero without children. */
  ghost predicate Best(predict: Pair -> real, question: string, kids: seq<string>, value: real) {
    if kids == [] then value == 0.0
    else
      (forall k :: 0 <= k < |kids| ==> predict((question, kids[k])) <= value)
      && exists k :: 0 <= k < |kids| && predict((question, kids[k])) == value
  }

  lemma PoolValueIsBest(predict: Pair -> real, question: string, kids: seq<string>)
    ensures Best(predict, question, kids, PoolValue(predict, question, kids))
    ensures forall value :: Best(predict, question, kids, value) ==> value == PoolValue(predict, question, kids)
  {
    if kids != [] { DocScoreIsBestPassage(predict, question, kids); }
  }

  /**
   The whole matrix; `None` where the source raises: no pools, pools that are not 100 deep or not as many
   as the questions, a document that is not there, or a value outside the unit interval.
   */
  method RerankPools(questions: seq<string>, pools: seq<seq<string>>, children: Children, predict: Pair -> real)
    returns (r: Option<seq<seq<real>>>)
    ensures r.Some? <==>
      && pools != [] && |questions| == |pools|
      && (forall i :: 0 <= i < |pools| ==> |pools[i]| == 100)
      && (forall i, d :: 0 <= i < |pools| && d in pools[i] ==> d in children)
      && forall i, d, value :: 0 <= i < |pools| && d in pools[i] && Best(predict, questions[i], children[d], value) ==>
           0.0 <= value <= 1.0
    ensures r.Some? ==>
      && |r.value| == |pools|
      && forall i :: 0 <= i < |pools| ==>
           && |r.value[i]| == |pools[i]|
           && forall k :: 0 <= k < |pools[i]| ==> Best(predict, questions[i], children[pools[i][k]], r.value[i][k])
  {
    if !Scorable(questions, pools, children) { return None; }
    hide PoolValue, Best;
    var values := [];
    for i := 0 to |pools|
      invariant |values| == i
      invariant forall j :: 0 <= j < i ==> values[j] == PoolValues(predict, questions[j], pools[j], children)
    {
      var row := RerankPool(questions[i], pools[i], children, predict);
      values := values + [row];
    }
    RowsAreBest(questions, pools, children, predict, values);
    r := if WithinUnit(values) then Some(values) else None;
  }

  lemma RowsAreBest(
      questions: seq<string>, pools: seq<seq<string>>, children: Children, predict: Pair -> real,
      values: seq<seq<real>>)
    requires Scorable(questions, pools, children) && |values| == |pools|
    requires forall i :: 0 <= i < |pools| ==> values[i] == PoolValues(predict, questions[i], pools[i], children)
    ensures forall i, k :: 0 <= i < |pools| && 0 <= k < |pools[i]| ==>
      k < |values[i]| && Best(predict, questions[i], children[pools[i][k]], values[i][k])
    ensures WithinUnit(values) <==>
      forall i, d, value :: 0 <= i < |pools| && d in pools[i] && Best(predict, questions[i], children[d], value) ==>
        0.0 <= value <= 1.0
  {
    hide PoolValue, Best;
    forall i, d, value | 0 <= i < |pools| && d in pools[i]
      ensures Best(predict, questions[i], children[d], value)
              <==> value == PoolValue(predict, questions[i], children[d])
    {
      PoolValueIsBest(predict, questions[i], children[d]);
    }
    forall i, d | 0 <= i < |pools| && d in pools[i]
      ensures exists k :: 0 <= k < |values[i]| && values[i][k] == PoolValue(predict, questions[i], children[d])
    {
      var k :| 0 <= k < |pools[i]| && pools[i][k] == d;
      assert values[i][k] == PoolValue(predict, questions[i], children[d]);
    }
    assert forall i, k :: 0 <= i < |pools| && 0 <= k < |pools[i]| ==>
      pools[i][k] in pools[i] && values[i][k] == PoolValue(predict, questions[i], children[pools[i][k]]);
  }

  predicate SpanOf(span: (nat, nat), texts: seq<string>, kids: seq<string>) {
    span.0 <= span.1 <= |texts| && texts[span.0..span.1] == kids
  }

  lemma SameMembersSameSpan(a: seq<string>, b: seq<string>, scores: map<string, real>)
    requires a != [] && multiset(a) == multiset(b)
    ensures b != [] && Blend.Low(a, scores) == Blend.Low(b, scores) && Blend.High(a, scores) == Blend.High(b, scores)
  {
    hide Blend.Low, Blend.High;
    assert a[0] in multiset(b);
    forall d ensures d in a <==> d in b {
      assert d in multiset(a) <==> d in a;
      assert d in multiset(b) <==> d in b;
    }
    Blend.Extremes(a, scores);
    Blend.Extremes(b, scores);
  }

  /** The blend depends on which documents are in the window, not on the order they arrive in. */
  lemma BlendIgnoresOrder(
      a: seq<string>, b: seq<string>, rerank: map<string, real>, rrf: map<string, real>, weight: real, depth: nat)
    requires multiset(a) == multiset(b) && |a| <= depth
    ensures Blend.Ranking(a, rerank, rrf, weight, depth) == Blend.Ranking(b, rerank, rrf, weight, depth)
  {
    hide Blend.FinalScores, Sort, ByScore;
    assert |multiset(a)| == |multiset(b)|;
    assert Take(a, depth) == a && Take(b, depth) == b;
    forall d ensures d in a <==> d in b {
      assert d in multiset(a) <==> d in a;
      assert d in multiset(b) <==> d in b;
    }
    if a != [] {
      SameFinalScores(a, b, rerank, rrf, weight);
      ScoreOrder(Blend.FinalScores(a, rerank, rrf, weight));
      SortIgnoresOrder(ByScore(Blend.FinalScores(a, rerank, rrf, weight)), a, b);
    }
  }

  lemma SameFinalScores(a: seq<string>, b: seq<string>, rerank: map<string, real>, rrf: map<string, real>, weight: real)
    requires a != [] && multiset(a) == multiset(b) && forall d :: d in a <==> d in b
    ensures b != [] && Blend.FinalScores(a, rerank, rrf, weight) == Blend.FinalScores(b, rerank, rrf, weight)
  {
    hide Blend.Low, Blend.High, Blend.Mixed;
    SameMembersSameSpan(a, b, rrf);
    forall d | d in a ensures Blend.Final(a, rerank, rrf, weight, d) == Blend.Final(b, rerank, rrf, weight, d) {
      assert Blend.Retrieval(a, rrf, d) == Blend.Retrieval(b, rrf, d);
    }
  }

  /** So blending the pool in reranked order, as one protocol does, or in fused order, as the other, is the same. */
  lemma BlendOfSortedPool(
      scores: Scores, rrf: map<string, real>, weight: real, depth: nat)
    requires Consistent(scores) && |scores| <= depth
    ensures Blend.Ranking(Docs(Sort(PairLe, scores)), ByDoc(scores), rrf, weight, depth)
            == Blend.Ranking(Docs(scores), ByDoc(scores), rrf, weight, depth)
  {
    SortedPairsRankDocs(scores);
    ScoreOrder(ByDoc(scores));
    SortSorts(ByScore(ByDoc(scores)), Docs(scores));
    BlendIgnoresOrder(Docs(Sort(PairLe, scores)), Docs(scores), ByDoc(scores), rrf, weight, depth);
  }
}
