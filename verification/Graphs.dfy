/** Import graphs between packages: reachability, strongly connected components, cycles. */
module Graphs {
  import opened Orders

  type Node = string
  type Graph = map<Node, set<Node>>

  function Targets(g: Graph, x: Node): set<Node> {
    if x in g then g[x] else {}
  }

  ghost predicate Edge(g: Graph, x: Node, y: Node) {
    y in Targets(g, x)
  }

  /** The keys and every target, whether or not the target is a key itself. */
  function Nodes(g: Graph): set<Node> {
    g.Keys + set x, y | x in g && y in g[x] :: y
  }

  ghost predicate IsPath(g: Graph, p: seq<Node>) {
    |p| > 0 && forall i :: 0 <= i < |p| - 1 ==> Edge(g, p[i], p[i + 1])
  }

  ghost predicate Connects(g: Graph, p: seq<Node>, x: Node, y: Node) {
    IsPath(g, p) && p[0] == x && p[|p| - 1] == y
  }

  ghost predicate Reach(g: Graph, x: Node, y: Node) {
    exists p :: Connects(g, p, x, y)
  }

  ghost predicate Mutual(g: Graph, x: Node, y: Node) {
    Reach(g, x, y) && Reach(g, y, x)
  }

  ghost predicate OnCycle(g: Graph, x: Node) {
    exists y :: Edge(g, x, y) && Reach(g, y, x)
  }

  ghost function Component(g: Graph, x: Node): set<Node> {
    set y | y in Nodes(g) && Mutual(g, x, y)
  }

  ghost function CyclicComponents(g: Graph): set<set<Node>> {
    set x | x in Nodes(g) && OnCycle(g, x) :: Component(g, x)
  }

  ghost predicate StrictlySorted(c: seq<Node>) {
    Sorted(StringLe, c) && Distinct(c)
  }

  /** What the gate promises: each cyclic component once, everything in order. */
  ghost predicate IsCycleReport(g: Graph, r: seq<seq<Node>>) {
    && Sorted(ListLe, r) && Distinct(r)
    && (forall c :: c in r ==> StrictlySorted(c))
    && (set c | c in r :: ToSet(c)) == CyclicComponents(g)
  }

  lemma ReachRefl(g: Graph, x: Node)
    ensures Reach(g, x, x)
  {
    assert Connects(g, [x], x, x);
  }

  lemma ReachEdge(g: Graph, x: Node, y: Node)
    requires Edge(g, x, y)
    ensures Reach(g, x, y)
  {
    assert Connects(g, [x, y], x, y);
  }

  lemma ReachTrans(g: Graph, x: Node, y: Node, z: Node)
    requires Reach(g, x, y) && Reach(g, y, z)
    ensures Reach(g, x, z)
  {
    var p :| Connects(g, p, x, y);
    var q :| Connects(g, q, y, z);
    var r := p + q[1..];
    forall i | 0 <= i < |r| - 1 ensures Edge(g, r[i], r[i + 1]) {
      if i >= |p| - 1 {
        assert r[i] == q[i - |p| + 1] && r[i + 1] == q[i - |p| + 2];
      }
    }
    assert Connects(g, r, x, z);
  }

  /** A set closed under edges is closed under paths. */
  lemma ReachClosed(g: Graph, s: set<Node>, x: Node, y: Node)
    requires forall u, v :: u in s && Edge(g, u, v) ==> v in s
    requires x in s && Reach(g, x, y)
    ensures y in s
  {
    var p :| Connects(g, p, x, y);
    var i := 0;
    while i < |p| - 1
      invariant 0 <= i < |p| && p[i] in s
    {
      assert Edge(g, p[i], p[i + 1]);
      i := i + 1;
    }
  }

  lemma ReachStaysInNodes(g: Graph, x: Node, y: Node)
    requires x in Nodes(g) && Reach(g, x, y)
    ensures y in Nodes(g)
  {
    ReachClosed(g, Nodes(g), x, y);
  }

  lemma SameComponent(g: Graph, x: Node, y: Node)
    requires x in Nodes(g) && y in Component(g, x)
    ensures Component(g, y) == Component(g, x)
    ensures OnCycle(g, x) ==> OnCycle(g, y)
  {
    forall z | z in Nodes(g) ensures Mutual(g, x, z) <==> Mutual(g, y, z) {
      if Mutual(g, x, z) { ReachTrans(g, y, x, z); ReachTrans(g, z, x, y); }
      if Mutual(g, y, z) { ReachTrans(g, x, y, z); ReachTrans(g, z, y, x); }
    }
    if OnCycle(g, x) {
      if x != y {
        TwoMembersCycle(g, y, x);
      }
    }
  }

  /** Two distinct mutually reachable nodes lie on a cycle. */
  lemma TwoMembersCycle(g: Graph, x: Node, y: Node)
    requires x != y && Mutual(g, x, y)
    ensures OnCycle(g, x)
  {
    var p :| Connects(g, p, x, y);
    assert Edge(g, p[0], p[1]);
    var q := p[1..];
    forall i | 0 <= i < |q| - 1 ensures Edge(g, q[i], q[i + 1]) {
      assert Edge(g, p[i + 1], p[i + 2]);
    }
    assert Connects(g, q, p[1], y);
    ReachTrans(g, p[1], y, x);
  }

  /** The gate's test, size above one or a self-loop, is exactly lying on a cycle. */
  lemma CyclicIffLargeOrLoop(g: Graph, x: Node)
    requires x in Nodes(g)
    ensures OnCycle(g, x) <==> |Component(g, x)| > 1 || Edge(g, x, x)
  {
    ReachRefl(g, x);
    assert x in Component(g, x);
    if OnCycle(g, x) {
      var y :| Edge(g, x, y) && Reach(g, y, x);
      ReachEdge(g, x, y);
      ReachStaysInNodes(g, x, y);
      assert y in Component(g, x);
      if y != x {
        assert {x, y} <= Component(g, x);
        SubsetSize({x, y}, Component(g, x));
      }
    }
    if Edge(g, x, x) {
      assert OnCycle(g, x);
    } else if |Component(g, x)| > 1 {
      var rest := Component(g, x) - {x};
      assert |rest| > 0;
      var y :| y in rest;
      TwoMembersCycle(g, x, y);
    }
  }

  /** The report is determined by the graph alone: no dict or set order shows through. */
  lemma CycleReportUnique(g: Graph, a: seq<seq<Node>>, b: seq<seq<Node>>)
    requires IsCycleReport(g, a) && IsCycleReport(g, b)
    ensures a == b
  {
    ListOrder();
    CycleReportSubset(g, a, b);
    CycleReportSubset(g, b, a);
    forall x ensures multiset(a)[x] == multiset(b)[x] {
      DistinctCount(a, x);
      DistinctCount(b, x);
      assert x in a <==> x in b;
    }
    SortedUnique(ListLe, a, b);
  }

  lemma CycleReportSubset(g: Graph, a: seq<seq<Node>>, b: seq<seq<Node>>)
    requires IsCycleReport(g, a) && IsCycleReport(g, b)
    ensures forall c :: c in a ==> c in b
  {
    forall c | c in a ensures c in b {
      assert ToSet(c) in CyclicComponents(g);
      assert ToSet(c) in (set d | d in b :: ToSet(d));
      var d :| d in b && ToSet(d) == ToSet(c);
      StrictlySortedUnique(c, d);
    }
  }

  lemma StrictlySortedUnique(c: seq<Node>, d: seq<Node>)
    requires StrictlySorted(c) && StrictlySorted(d) && ToSet(c) == ToSet(d)
    ensures c == d
  {
    StringOrder();
    forall x ensures multiset(c)[x] == multiset(d)[x] {
      DistinctCount(c, x);
      DistinctCount(d, x);
      assert x in ToSet(c) <==> x in ToSet(d);
    }
    SortedUnique(StringLe, c, d);
  }

  /** Distinct entries of a report share no node. */
  lemma CycleReportDisjoint(g: Graph, r: seq<seq<Node>>, i: nat, j: nat)
    requires IsCycleReport(g, r) && i < j < |r|
    ensures ToSet(r[i]) !! ToSet(r[j])
  {
    if z :| z in ToSet(r[i]) && z in ToSet(r[j]) {
      assert ToSet(r[i]) in CyclicComponents(g) && ToSet(r[j]) in CyclicComponents(g);
      var x :| x in Nodes(g) && ToSet(r[i]) == Component(g, x);
      var y :| y in Nodes(g) && ToSet(r[j]) == Component(g, y);
      SameComponent(g, x, z);
      SameComponent(g, y, z);
      StrictlySortedUnique(r[i], r[j]);
    }
  }

  /** A numbering that every edge decreases: the graph can be layered. */
  ghost predicate Layers(g: Graph, level: map<Node, nat>) {
    && level.Keys == Nodes(g)
    && forall x, y :: x in Nodes(g) && Edge(g, x, y) ==> y in level && level[x] > level[y]
  }

  ghost predicate Layerable(g: Graph) {
    exists level :: Layers(g, level)
  }

  ghost function Below(g: Graph, x: Node): set<Node> {
    set y | y in Nodes(g) && Reach(g, x, y)
  }

  lemma LayersDescend(g: Graph, level: map<Node, nat>, p: seq<Node>)
    requires Layers(g, level) && IsPath(g, p) && p[0] in Nodes(g)
    ensures p[|p| - 1] in level && level[p[|p| - 1]] <= level[p[0]]
  {
    var i := 0;
    while i < |p| - 1
      invariant 0 <= i < |p| && p[i] in level && level[p[i]] <= level[p[0]]
    {
      assert Edge(g, p[i], p[i + 1]);
      i := i + 1;
    }
  }

  /** An empty report is possible exactly when the packages can be layered. */
  lemma AcyclicIffLayerable(g: Graph)
    ensures CyclicComponents(g) == {} <==> Layerable(g)
  {
    assert forall x :: x in Nodes(g) && OnCycle(g, x) ==> Component(g, x) in CyclicComponents(g);
    if CyclicComponents(g) == {} {
      var level: map<Node, nat> := map x | x in Nodes(g) :: |Below(g, x)|;
      forall x, y | x in Nodes(g) && Edge(g, x, y) ensures y in level && level[x] > level[y] {
        ReachEdge(g, x, y);
        ReachStaysInNodes(g, x, y);
        assert !OnCycle(g, x);
        ReachRefl(g, x);
        forall z | z in Below(g, y) ensures z in Below(g, x) { ReachTrans(g, x, y, z); }
        assert x in Below(g, x) && x !in Below(g, y);
        SubsetSize(Below(g, y), Below(g, x));
      }
      assert Layers(g, level);
    }
    if level :| Layers(g, level) {
      if c :| c in CyclicComponents(g) {
        var x :| x in Nodes(g) && OnCycle(g, x);
        var y :| Edge(g, x, y) && Reach(g, y, x);
        var p :| Connects(g, p, y, x);
        LayersDescend(g, level, p);
      }
    }
  }
}
