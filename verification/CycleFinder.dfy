/**
 The cycle finder of the structure gate: Tarjan's algorithm over mutable
 bookkeeping, proved to report exactly the cyclic strongly connected components.
 */
module CycleFinder {
  import opened Orders
  import opened Graphs

  /** The bookkeeping as a value; `gray` holds the nodes whose visit is still open. */
  datatype State = State(
    index: nat, num: map<Node, nat>, low: map<Node, nat>,
    stack: seq<Node>, gray: set<Node>, cycles: seq<seq<Node>>)

  ghost predicate Numbered(g: Graph, s: State) {
    && s.num.Keys <= Nodes(g)
    && (forall x :: x in s.num ==> s.num[x] < s.index)
    && (forall x :: x in s.stack ==> x in s.num)
    && (forall i, j :: 0 <= i < j < |s.stack| ==> s.num[s.stack[i]] < s.num[s.stack[j]])
    && (forall x :: x in s.gray ==> x in s.stack)
  }

  ghost function Done(s: State): set<Node> {
    s.num.Keys - ToSet(s.stack)
  }

  /** A closed visit leaves no unvisited target behind. */
  ghost predicate NoneMissed(g: Graph, s: State) {
    forall x, y :: x in s.num && x !in s.gray && Edge(g, x, y) ==> y in s.num
  }

  ghost predicate DoneClosed(g: Graph, s: State) {
    forall x, y :: x in Done(s) && Edge(g, x, y) ==> y in Done(s)
  }

  ghost predicate OlderReaches(g: Graph, s: State) {
    forall i, j :: 0 <= i <= j < |s.stack| ==> Reach(g, s.stack[i], s.stack[j])
  }

  /** The entry at height `j` can still reach an open visit at or below it. */
  ghost predicate ReachesOpen(g: Graph, s: State, j: nat)
    requires j < |s.stack|
  {
    exists i :: 0 <= i <= j && s.stack[i] in s.gray && Reach(g, s.stack[j], s.stack[i])
  }

  ghost predicate Inv(g: Graph, s: State) {
    && Numbered(g, s)
    && NoneMissed(g, s)
    && DoneClosed(g, s)
    && OlderReaches(g, s)
    && forall j :: 0 <= j < |s.stack| ==> ReachesOpen(g, s, j)
  }

  lemma TargetEdge(g: Graph, x: Node, y: Node)
    ensures Edge(g, x, y) <==> y in Targets(g, x)
  {
  }

  function Pushed(s: State, node: Node): State {
    State(s.index + 1, s.num[node := s.index], s.low[node := s.index],
      s.stack + [node], s.gray + {node}, s.cycles)
  }

  lemma PushReachesOpen(g: Graph, s: State, node: Node, j: nat)
    requires j < |s.stack| && ReachesOpen(g, s, j)
    ensures ReachesOpen(g, Pushed(s, node), j)
  {
    hide Reach;
    var t := Pushed(s, node);
    var i :| 0 <= i <= j && s.stack[i] in s.gray && Reach(g, s.stack[j], s.stack[i]);
    assert t.stack[i] in t.gray && t.stack[j] == s.stack[j];
  }

  lemma PushOlderReaches(g: Graph, s: State, node: Node)
    requires OlderReaches(g, s) && forall i :: 0 <= i < |s.stack| ==> Reach(g, s.stack[i], node)
    ensures OlderReaches(g, Pushed(s, node))
  {
    ReachRefl(g, node);
    hide Reach;
  }

  lemma PushKeepsInv(g: Graph, s: State, node: Node)
    requires Inv(g, s) && node in Nodes(g) && node !in s.num
    requires forall i :: 0 <= i < |s.stack| ==> Reach(g, s.stack[i], node)
    ensures Inv(g, Pushed(s, node)) && Done(Pushed(s, node)) == Done(s)
  {
    hide Reach, Edge, ReachesOpen, OlderReaches;
    var t := Pushed(s, node);
    PushOlderReaches(g, s, node);
    assert Done(t) == Done(s);
    forall j | 0 <= j < |t.stack| ensures ReachesOpen(g, t, j) {
      if j < |s.stack| { PushReachesOpen(g, s, node, j); } else { NewIsOpen(g, t, j); }
    }
  }

  lemma NewIsOpen(g: Graph, t: State, j: nat)
    requires j < |t.stack| && t.stack[j] in t.gray
    ensures ReachesOpen(g, t, j)
  {
    ReachRefl(g, t.stack[j]);
  }

  /** Everything on the stack can still reach the innermost open visit. */
  lemma StackReachesNewest(g: Graph, s: State, k: nat, j: nat)
    requires Inv(g, s) && k < |s.stack| && j < |s.stack|
    requires s.stack[k] in s.gray && forall i :: k < i < |s.stack| ==> s.stack[i] !in s.gray
    ensures Reach(g, s.stack[j], s.stack[k])
  {
    hide Reach;
    assert ReachesOpen(g, s, j);
    var i :| 0 <= i <= j && s.stack[i] in s.gray && Reach(g, s.stack[j], s.stack[i]);
    ReachTrans(g, s.stack[j], s.stack[i], s.stack[k]);
  }

  /** An entry that reached the closed node reaches what that node does. */
  lemma CloseReachesOpen(g: Graph, s: State, k: nat, z: nat, j: nat)
    requires Numbered(g, s) && z < k < |s.stack| && j < |s.stack| && s.stack[k] in s.gray
    requires ReachesOpen(g, s, j) && ReachesOpen(g, s, z) && Reach(g, s.stack[k], s.stack[z])
    ensures ReachesOpen(g, s.(gray := s.gray - {s.stack[k]}), j)
  {
    hide Reach;
    var node, t := s.stack[k], s.(gray := s.gray - {s.stack[k]});
    var low :| 0 <= low <= z && s.stack[low] in s.gray && Reach(g, s.stack[z], s.stack[low]);
    var i :| 0 <= i <= j && s.stack[i] in s.gray && Reach(g, s.stack[j], s.stack[i]);
    forall x | 0 <= x < k ensures s.stack[x] != node { StackDistinct(g, s, k, x, k); }
    if s.stack[i] == node {
      ReachTrans(g, s.stack[j], node, s.stack[z]);
      ReachTrans(g, s.stack[j], s.stack[z], s.stack[low]);
      assert t.stack[low] in t.gray;
    } else {
      assert t.stack[i] in t.gray;
    }
  }

  /** Closing a visit whose low link points below it: the node stays on the stack. */
  lemma CloseKeepsInv(g: Graph, s: State, k: nat, z: nat)
    requires Inv(g, s) && z < k < |s.stack| && s.stack[k] in s.gray
    requires forall y :: Edge(g, s.stack[k], y) ==> y in s.num
    requires Reach(g, s.stack[k], s.stack[z])
    ensures Inv(g, s.(gray := s.gray - {s.stack[k]}))
  {
    hide Reach, Edge, ReachesOpen;
    var t := s.(gray := s.gray - {s.stack[k]});
    assert Done(t) == Done(s);
    forall j | 0 <= j < |t.stack| ensures ReachesOpen(g, t, j) { CloseReachesOpen(g, s, k, z, j); }
  }

  /** Nothing leaves the segment above `k` except into finished components. */
  ghost predicate SegmentSealed(g: Graph, s: State, k: nat)
    requires k <= |s.stack|
  {
    forall i, y :: k <= i < |s.stack| && Edge(g, s.stack[i], y) ==> y in s.num && y !in s.stack[..k]
  }

  lemma SegmentWithinComponent(g: Graph, s: State, k: nat)
    requires Inv(g, s) && k < |s.stack| && s.stack[k] in s.gray
    requires forall i :: k < i < |s.stack| ==> s.stack[i] !in s.gray
    ensures ToSet(s.stack[k..]) <= Component(g, s.stack[k])
  {
    var node, seg := s.stack[k], s.stack[k..];
    forall y | y in seg ensures y in Component(g, node) {
      var i :| 0 <= i < |seg| && seg[i] == y;
      hide Reach, Edge;
      assert y == s.stack[k + i];
      StackReachesNewest(g, s, k, k + i);
      ReachStaysInNodes(g, node, y);
    }
  }

  /** The segment above `k` and the finished nodes: no edge leads out of the two together. */
  lemma SegmentClosed(g: Graph, s: State, k: nat, x: Node, y: Node)
    requires k <= |s.stack| && DoneClosed(g, s) && SegmentSealed(g, s, k)
    requires x in ToSet(s.stack[k..]) + Done(s) && Edge(g, x, y)
    ensures y in ToSet(s.stack[k..]) + Done(s)
  {
    hide Edge;
    var seg := s.stack[k..];
    if x in seg {
      var i :| 0 <= i < |seg| && seg[i] == x;
      assert x == s.stack[k + i];
      assert s.stack == s.stack[..k] + seg;
    }
  }

  /** What a root above a sealed segment reaches and is reached from lies in the segment. */
  lemma ComponentWithinSegment(g: Graph, s: State, k: nat, y: Node)
    requires k < |s.stack| && DoneClosed(g, s) && SegmentSealed(g, s, k) && y in Component(g, s.stack[k])
    ensures y in ToSet(s.stack[k..])
  {
    hide Edge, Reach, Nodes, DoneClosed, SegmentSealed;
    var node := s.stack[k];
    assert node == s.stack[k..][0];
    forall u, v | u in ToSet(s.stack[k..]) + Done(s) && Edge(g, u, v) ensures v in ToSet(s.stack[k..]) + Done(s) {
      SegmentClosed(g, s, k, u, v);
    }
    ReachClosed(g, ToSet(s.stack[k..]) + Done(s), node, y);
    if y in Done(s) { DoneReaches(g, s, y, node); }
  }

  lemma DoneReaches(g: Graph, s: State, x: Node, y: Node)
    requires DoneClosed(g, s) && x in Done(s) && Reach(g, x, y)
    ensures y in Done(s)
  {
    hide Edge, Reach;
    ReachClosed(g, Done(s), x, y);
  }

  /** The stack from the root upward is a whole component. */
  lemma SegmentIsComponent(g: Graph, s: State, k: nat)
    requires Inv(g, s) && k < |s.stack| && s.stack[k] in s.gray
    requires forall i :: k < i < |s.stack| ==> s.stack[i] !in s.gray
    requires SegmentSealed(g, s, k)
    ensures ToSet(s.stack[k..]) == Component(g, s.stack[k])
  {
    hide Reach, Edge, OlderReaches, ReachesOpen, DoneClosed, NoneMissed, Numbered, SegmentSealed, Component;
    SegmentWithinComponent(g, s, k);
    forall y | y in Component(g, s.stack[k]) ensures y in ToSet(s.stack[k..]) {
      ComponentWithinSegment(g, s, k, y);
    }
  }

  lemma StackDistinct(g: Graph, s: State, k: nat, i: nat, j: nat)
    requires Numbered(g, s) && i < k <= j < |s.stack|
    ensures s.stack[i] != s.stack[j]
  {
    assert s.num[s.stack[i]] < s.num[s.stack[j]];
  }

  /** A node of the segment above `k` is numbered and not below it. */
  lemma SegmentApart(g: Graph, s: State, k: nat, x: Node)
    requires Numbered(g, s) && k <= |s.stack| && x in s.stack[k..]
    ensures x in s.num && x !in s.stack[..k]
  {
    var j :| 0 <= j < |s.stack[k..]| && s.stack[k..][j] == x;
    assert s.stack[k + j] == x;
    forall i | 0 <= i < k ensures s.stack[..k][i] != x { StackDistinct(g, s, k, i, k + j); }
  }

  /** Cutting the stack at `k` moves the segment above it to the finished nodes. */
  lemma CutDone(g: Graph, s: State, k: nat)
    requires Numbered(g, s) && k <= |s.stack|
    ensures var t := s.(stack := s.stack[..k]);
            Done(t) == Done(s) + ToSet(s.stack[k..]) && Done(s) !! ToSet(s.stack[k..])
  {
    hide Numbered;
    assert s.stack == s.stack[..k] + s.stack[k..];
    forall x | x in s.stack[k..] ensures x !in s.stack[..k] && x in s.num { SegmentApart(g, s, k, x); }
  }

  lemma CutDoneClosed(g: Graph, s: State, k: nat)
    requires Numbered(g, s) && DoneClosed(g, s) && k <= |s.stack| && SegmentSealed(g, s, k)
    ensures DoneClosed(g, s.(stack := s.stack[..k]))
  {
    hide Edge;
    CutDone(g, s, k);
    var t, seg := s.(stack := s.stack[..k]), s.stack[k..];
    forall x, y | x in Done(t) && Edge(g, x, y) ensures y in Done(t) {
      if x in seg {
        var i :| 0 <= i < |seg| && seg[i] == x;
        assert x == s.stack[k + i];
      }
    }
  }

  lemma CutReachesOpen(g: Graph, s: State, k: nat, j: nat)
    requires Inv(g, s) && j < k < |s.stack|
    ensures ReachesOpen(g, s.(stack := s.stack[..k], gray := s.gray - {s.stack[k]}), j)
  {
    hide Reach, Edge, NoneMissed, DoneClosed, OlderReaches;
    var t := s.(stack := s.stack[..k], gray := s.gray - {s.stack[k]});
    assert ReachesOpen(g, s, j);
    var i :| 0 <= i <= j && s.stack[i] in s.gray && Reach(g, s.stack[j], s.stack[i]);
    StackDistinct(g, s, k, i, k);
    assert t.stack[i] in t.gray && t.stack[j] == s.stack[j];
  }

  /** Closing a visit whose low link is its own index: the component leaves the stack. */
  lemma PopKeepsInv(g: Graph, s: State, k: nat)
    requires Inv(g, s) && k < |s.stack| && s.stack[k] in s.gray
    requires forall i :: k < i < |s.stack| ==> s.stack[i] !in s.gray
    requires SegmentSealed(g, s, k)
    ensures ToSet(s.stack[k..]) == Component(g, s.stack[k])
    ensures var t := s.(stack := s.stack[..k], gray := s.gray - {s.stack[k]});
            Inv(g, t) && Done(t) == Done(s) + ToSet(s.stack[k..]) && Done(s) !! ToSet(s.stack[k..])
  {
    hide Reach, Edge, Component, Numbered, NoneMissed, DoneClosed, OlderReaches, ReachesOpen;
    SegmentIsComponent(g, s, k);
    CutDone(g, s, k);
    CutDoneClosed(g, s, k);
    var cut, t := s.(stack := s.stack[..k]), s.(stack := s.stack[..k], gray := s.gray - {s.stack[k]});
    SameDone(g, cut, t);
    GrayBelow(g, s, k);
    PopNumbered(g, s, k);
    forall j | 0 <= j < |t.stack| ensures ReachesOpen(g, t, j) { CutReachesOpen(g, s, k, j); }
  }

  lemma SameDone(g: Graph, s: State, t: State)
    requires t == s.(gray := t.gray)
    ensures Done(t) == Done(s) && (DoneClosed(g, s) ==> DoneClosed(g, t))
  {
    hide Edge;
  }

  /** Every other open visit is further down, and the closed node's targets are all numbered. */
  lemma GrayBelow(g: Graph, s: State, k: nat)
    requires Inv(g, s) && k < |s.stack| && SegmentSealed(g, s, k)
    requires forall i :: k < i < |s.stack| ==> s.stack[i] !in s.gray
    ensures forall x :: x in s.gray && x != s.stack[k] ==> x in s.stack[..k]
    ensures forall y :: Edge(g, s.stack[k], y) ==> y in s.num
  {
    hide Reach, Edge, NoneMissed, OlderReaches, ReachesOpen;
    var t := s.(stack := s.stack[..k], gray := s.gray - {s.stack[k]});
    forall x | x in s.gray && x != s.stack[k] ensures x in t.stack {
      var i :| 0 <= i < |s.stack| && s.stack[i] == x;
      assert t.stack[i] == x;
    }
    forall y | Edge(g, s.stack[k], y) ensures y in s.num {}
  }

  lemma PopNumbered(g: Graph, s: State, k: nat)
    requires Numbered(g, s) && NoneMissed(g, s) && OlderReaches(g, s) && k < |s.stack|
    requires forall x :: x in s.gray && x != s.stack[k] ==> x in s.stack[..k]
    requires forall y :: Edge(g, s.stack[k], y) ==> y in s.num
    ensures var t := s.(stack := s.stack[..k], gray := s.gray - {s.stack[k]});
            Numbered(g, t) && NoneMissed(g, t) && OlderReaches(g, t)
  {
    hide Reach, Edge;
  }

  /** The components left behind by the finished part of the search. */
  ghost function Emitted(g: Graph, done: set<Node>): set<set<Node>> {
    set x | x in done && OnCycle(g, x) :: Component(g, x)
  }

  ghost predicate CyclesMatch(g: Graph, done: set<Node>, cycles: seq<seq<Node>>) {
    && (forall c :: c in cycles ==> StrictlySorted(c))
    && (set c | c in cycles :: ToSet(c)) == Emitted(g, done)
    && Distinct(cycles)
  }

  lemma EmittedMeets(g: Graph, done: set<Node>, comp: set<Node>)
    requires done <= Nodes(g) && comp in Emitted(g, done)
    ensures comp * done != {}
  {
    var x :| x in done && OnCycle(g, x) && comp == Component(g, x);
    ReachRefl(g, x);
    assert x in comp * done;
  }

  lemma EmitComponent(g: Graph, done: set<Node>, cycles: seq<seq<Node>>, node: Node, c: seq<Node>)
    requires CyclesMatch(g, done, cycles) && node in Nodes(g) && done <= Nodes(g)
    requires Component(g, node) !! done
    requires StrictlySorted(c) && ToSet(c) == Component(g, node)
    ensures OnCycle(g, node) ==> CyclesMatch(g, done + Component(g, node), cycles + [c])
    ensures !OnCycle(g, node) ==> CyclesMatch(g, done + Component(g, node), cycles)
  {
    ReachRefl(g, node);
    var comp := Component(g, node);
    assert node in comp;
    forall x | x in comp
      ensures Component(g, x) == comp && (OnCycle(g, x) <==> OnCycle(g, node))
    {
      SameComponent(g, node, x);
      SameComponent(g, x, node);
    }
    if OnCycle(g, node) {
      assert Emitted(g, done + comp) == Emitted(g, done) + {comp};
      assert (set d | d in cycles + [c] :: ToSet(d)) == (set d | d in cycles :: ToSet(d)) + {comp};
      forall d | d in cycles ensures d != c {
        assert ToSet(d) in (set e | e in cycles :: ToSet(e));
        assert ToSet(d) in Emitted(g, done);
        EmittedMeets(g, done, ToSet(d));
      }
    } else {
      assert Emitted(g, done + comp) == Emitted(g, done);
    }
  }

  /** Holds between the steps of the search. */
  ghost predicate Ok(g: Graph, s: State) {
    && Inv(g, s)
    && s.low.Keys == s.num.Keys
    && CyclesMatch(g, Done(s), s.cycles)
  }

  /** Numbers and low links handed out earlier stay, and the old stack stays underneath. */
  ghost predicate Extends(s: State, t: State) {
    && s.index <= t.index
    && (forall x :: x in s.num ==> x in t.num && t.num[x] == s.num[x])
    && (forall x :: x in s.low ==> x in t.low && t.low[x] == s.low[x])
    && (forall x :: x in t.num && x !in s.num ==> t.num[x] >= s.index)
    && |s.stack| <= |t.stack|
    && (forall i :: 0 <= i < |s.stack| ==> t.stack[i] == s.stack[i])
  }

  /** No entry at or above `from` has an edge to an entry under `base` numbered below `low`. */
  ghost predicate LowBound(g: Graph, s: State, base: nat, from: nat, low: nat) {
    forall i, j :: from <= i < |s.stack| && 0 <= j < base && j < |s.stack| && Edge(g, s.stack[i], s.stack[j])
      ==> s.stack[j] in s.num && low <= s.num[s.stack[j]]
  }

  /** The number `low` belongs to an entry below `limit` that `node` reaches. */
  ghost predicate LowReached(g: Graph, s: State, node: Node, limit: nat, low: nat) {
    exists z :: 0 <= z < limit && z < |s.stack| && s.stack[z] in s.num
      && s.num[s.stack[z]] == low && Reach(g, node, s.stack[z])
  }

  /** What one whole visit of `node` does to the bookkeeping. */
  ghost predicate Visited(g: Graph, s: State, t: State, node: Node) {
    && Ok(g, t) && Extends(s, t) && t.gray == s.gray
    && node in t.num && t.num[node] == s.index
    && node in t.low && t.low[node] <= s.index
    && LowBound(g, t, |s.stack|, |s.stack|, t.low[node])
    && (if |t.stack| == |s.stack| then t.low[node] == s.index
        else LowReached(g, t, node, |s.stack|, t.low[node]))
  }

  /** The visit of `node` that began in `s` is open in `t`. */
  ghost predicate Begun(s: State, t: State, node: Node) {
    && Extends(s, t) && t.gray == s.gray + {node} && node !in s.num && node !in s.low
    && |s.stack| < |t.stack| && t.stack[|s.stack|] == node
    && node in t.num && t.num[node] == s.index < t.index
    && node in t.low && t.low[node] <= s.index
  }

  /** The low link accounts for the targets in `seen`. */
  ghost predicate SeenBound(s: State, t: State, node: Node, seen: set<Node>) {
    && seen <= t.num.Keys && node in t.low
    && forall j :: 0 <= j < |s.stack| && s.stack[j] in seen ==> t.low[node] <= t.num[s.stack[j]]
  }

  /** Where a visit of `node` that began in `s` stands after its targets in `seen`. */
  ghost predicate Exploring(g: Graph, s: State, t: State, node: Node, seen: set<Node>) {
    && Ok(g, t) && Begun(s, t, node) && SeenBound(s, t, node, seen)
    && LowReached(g, t, node, |s.stack| + 1, t.low[node])
    && LowBound(g, t, |s.stack|, |s.stack| + 1, t.low[node])
  }

  lemma OkDomains(g: Graph, s: State)
    requires Ok(g, s)
    ensures s.low.Keys == s.num.Keys
  {
  }

  lemma BeginVisit(g: Graph, s: State, node: Node)
    requires Ok(g, s) && node in Nodes(g) && node !in s.num
    requires forall i :: 0 <= i < |s.stack| ==> Reach(g, s.stack[i], node)
    ensures Exploring(g, s, Pushed(s, node), node, {}) && Ok(g, Pushed(s, node))
  {
    ReachRefl(g, node);
    PushKeepsInv(g, s, node);
    hide Reach, Edge, Inv, CyclesMatch;
    var t := Pushed(s, node);
    assert t.stack[|s.stack|] == node && t.num[node] == t.low[node];
    assert LowReached(g, t, node, |s.stack| + 1, t.low[node]);
  }

  /** Only the visits that were open at the start and `node` itself are open. */
  lemma OpenBelow(g: Graph, s: State, t: State, node: Node, seen: set<Node>)
    requires Ok(g, s) && Exploring(g, s, t, node, seen)
    ensures forall i :: |s.stack| < i < |t.stack| ==>
              t.stack[i] !in t.gray && t.stack[i] in t.num && s.index < t.num[t.stack[i]]
    ensures forall i :: 0 <= i < |s.stack| ==>
              t.stack[i] == s.stack[i] && s.stack[i] in t.num && t.num[s.stack[i]] < s.index
  {
    hide Reach, Edge, CyclesMatch, NoneMissed, DoneClosed, OlderReaches, ReachesOpen, LowReached, LowBound;
    forall i | 0 <= i < |s.stack| ensures t.num[s.stack[i]] < s.index {
      assert s.stack[i] in s.num;
    }
    forall x | x in s.gray ensures t.num[x] < s.index {
      assert x in s.stack;
    }
    forall i | |s.stack| < i < |t.stack|
      ensures t.stack[i] !in t.gray && t.stack[i] in t.num && s.index < t.num[t.stack[i]]
    {
      assert t.num[t.stack[|s.stack|]] < t.num[t.stack[i]];
    }
  }

  lemma ChildReachable(g: Graph, s: State, t: State, node: Node, seen: set<Node>, target: Node)
    requires Ok(g, s) && Exploring(g, s, t, node, seen) && Edge(g, node, target)
    ensures target in Nodes(g)
    ensures forall i :: 0 <= i < |t.stack| ==> Reach(g, t.stack[i], target)
  {
    OpenBelow(g, s, t, node, seen);
    ReachEdge(g, node, target);
    hide Reach, Edge, CyclesMatch, LowBound, LowReached;
    ReachStaysInNodes(g, node, target);
    forall i | 0 <= i < |t.stack| ensures Reach(g, t.stack[i], target) {
      StackReachesNewest(g, t, |s.stack|, i);
      ReachTrans(g, t.stack[i], node, target);
    }
  }

  lemma SetLow(g: Graph, t: State, node: Node, low: nat)
    requires Ok(g, t) && node in t.num
    ensures Ok(g, t.(low := t.low[node := low]))
  {
    hide Reach, Edge, CyclesMatch;
    var u := t.(low := t.low[node := low]);
    assert Done(u) == Done(t);
    forall j | 0 <= j < |u.stack| ensures ReachesOpen(g, u, j) {
      assert ReachesOpen(g, t, j);
      var i :| 0 <= i <= j && t.stack[i] in t.gray && Reach(g, t.stack[j], t.stack[i]);
      assert u.stack[i] in u.gray;
    }
  }

  /** The state after a target's low link or number has been folded into the node's. */
  function Folded(t: State, node: Node, low: nat): State
    requires node in t.low
  {
    t.(low := t.low[node := Min(t.low[node], low)])
  }

  /** Folding in a lower number that `node` reaches further down the stack. */
  lemma FoldLowReached(g: Graph, t: State, node: Node, limit: nat, low: nat)
    requires node in t.low && LowReached(g, t, node, limit, t.low[node])
    requires low < t.low[node] ==> LowReached(g, t, node, limit, low)
    ensures LowReached(g, Folded(t, node, low), node, limit, Min(t.low[node], low))
  {
    hide Reach;
    var best := Min(t.low[node], low);
    var z :| 0 <= z < limit && z < |t.stack| && t.stack[z] in t.num
      && t.num[t.stack[z]] == best && Reach(g, node, t.stack[z]);
    var v := Folded(t, node, low);
    assert v.num[v.stack[z]] == best;
  }

  /** What the child reaches below its own number, the node reaches at or below itself. */
  lemma WitnessBelow(g: Graph, t: State, u: State, node: Node, base: nat, target: Node, low: nat)
    requires Edge(g, node, target) && Extends(t, u) && base < |t.stack|
    requires LowReached(g, u, target, |t.stack|, low)
    requires forall i :: base < i < |t.stack| ==> t.stack[i] in t.num && low < t.num[t.stack[i]]
    ensures LowReached(g, u, node, base + 1, low)
  {
    ReachEdge(g, node, target);
    hide Reach, Edge;
    var w :| 0 <= w < |t.stack| && w < |u.stack| && u.stack[w] in u.num
      && u.num[u.stack[w]] == low && Reach(g, target, u.stack[w]);
    ReachTrans(g, node, target, u.stack[w]);
    assert u.stack[w] == t.stack[w];
  }

  /** The low link the child brings back is reached at or below the node. */
  lemma ChildWitness(g: Graph, s: State, t: State, u: State, node: Node, seen: set<Node>, target: Node)
    requires Ok(g, s) && Exploring(g, s, t, node, seen) && Edge(g, node, target)
    requires target !in t.num && Visited(g, t, u, target) && u.low[target] < t.low[node]
    ensures LowReached(g, u, node, |s.stack| + 1, u.low[target])
  {
    hide Ok, Reach, Edge, LowBound, LowReached, SeenBound;
    OpenBelow(g, s, t, node, seen);
    WitnessBelow(g, t, u, node, |s.stack|, target, u.low[target]);
  }

  lemma LowReachedStays(g: Graph, t: State, u: State, node: Node, limit: nat, low: nat)
    requires LowReached(g, t, node, limit, low) && Extends(t, u)
    ensures LowReached(g, u, node, limit, low)
  {
    hide Reach;
    var z :| 0 <= z < limit && z < |t.stack| && t.stack[z] in t.num
      && t.num[t.stack[z]] == low && Reach(g, node, t.stack[z]);
    assert u.stack[z] == t.stack[z];
  }

  lemma ChildLowReached(g: Graph, s: State, t: State, u: State, node: Node, seen: set<Node>, target: Node)
    requires Ok(g, s) && Exploring(g, s, t, node, seen) && Edge(g, node, target)
    requires target !in t.num && Visited(g, t, u, target)
    ensures LowReached(g, Folded(u, node, u.low[target]), node, |s.stack| + 1, Min(u.low[node], u.low[target]))
  {
    LowReachedStays(g, t, u, node, |s.stack| + 1, t.low[node]);
    if u.low[target] < u.low[node] { ChildWitness(g, s, t, u, node, seen, target); }
    hide Ok, Edge, LowReached, LowBound;
    FoldLowReached(g, u, node, |s.stack| + 1, u.low[target]);
  }

  /** A bound on an entry that was there before still holds after, with the number it had. */
  lemma BoundStays(g: Graph, t: State, u: State, base: nat, from: nat, low: nat, i: nat, j: nat)
    requires LowBound(g, t, base, from, low) && Extends(t, u)
    requires from <= i < |t.stack| && j < base <= |t.stack| && Edge(g, u.stack[i], u.stack[j])
    ensures u.stack[j] in u.num && low <= u.num[u.stack[j]]
  {
    hide Edge;
    assert u.stack[i] == t.stack[i] && u.stack[j] == t.stack[j];
  }

  /** The two low links bound the old entries and the child's own. */
  lemma FoldedBound(g: Graph, t: State, u: State, node: Node, target: Node, base: nat, i: nat, j: nat)
    requires node in t.low && node in u.low && target in u.low && u.low[node] == t.low[node] && Extends(t, u)
    requires LowBound(g, t, base, base + 1, t.low[node]) && LowBound(g, u, |t.stack|, |t.stack|, u.low[target])
    requires base < i < |u.stack| && j < base < |t.stack| && Edge(g, u.stack[i], u.stack[j])
    ensures u.stack[j] in u.num && Min(u.low[node], u.low[target]) <= u.num[u.stack[j]]
  {
    if i < |t.stack| { BoundStays(g, t, u, base, base + 1, t.low[node], i, j); }
    hide Edge;
  }

  lemma ChildLowBound(g: Graph, s: State, t: State, u: State, node: Node, seen: set<Node>, target: Node)
    requires Ok(g, s) && Exploring(g, s, t, node, seen)
    requires target !in t.num && Visited(g, t, u, target)
    ensures var v := Folded(u, node, u.low[target]); LowBound(g, v, |s.stack|, |s.stack| + 1, v.low[node])
  {
    hide Ok, Edge, LowReached, SeenBound;
    var v := Folded(u, node, u.low[target]);
    assert LowBound(g, t, |s.stack|, |s.stack| + 1, t.low[node]);
    forall i, j | |s.stack| < i < |v.stack| && 0 <= j < |s.stack| && Edge(g, v.stack[i], v.stack[j])
      ensures v.stack[j] in v.num && v.low[node] <= v.num[v.stack[j]]
    {
      FoldedBound(g, t, u, node, target, |s.stack|, i, j);
    }
  }

  lemma ExtendsTrans(s: State, t: State, u: State)
    requires Extends(s, t) && Extends(t, u)
    ensures Extends(s, u)
  {
  }

  lemma FoldedBegun(s: State, t: State, node: Node, low: nat)
    requires Begun(s, t, node)
    ensures Begun(s, Folded(t, node, low), node)
  {
  }

  lemma BegunTrans(s: State, t: State, u: State, node: Node)
    requires Begun(s, t, node) && Extends(t, u) && u.gray == t.gray
    ensures Begun(s, u, node)
  {
    ExtendsTrans(s, t, u);
  }

  lemma AfterChild(g: Graph, s: State, t: State, u: State, node: Node, seen: set<Node>, target: Node)
    requires Ok(g, s) && Exploring(g, s, t, node, seen) && Edge(g, node, target)
    requires target !in t.num && Visited(g, t, u, target)
    ensures node in u.low && Exploring(g, s, Folded(u, node, u.low[target]), node, seen + {target})
  {
    ChildLowReached(g, s, t, u, node, seen, target);
    ChildLowBound(g, s, t, u, node, seen, target);
    ChildProgress(g, s, t, u, node, seen, target);
    hide Ok, Edge, LowBound, LowReached, Extends, Begun, SeenBound;
  }

  lemma ChildProgress(g: Graph, s: State, t: State, u: State, node: Node, seen: set<Node>, target: Node)
    requires Ok(g, s) && Exploring(g, s, t, node, seen)
    requires target !in t.num && Visited(g, t, u, target)
    ensures node in u.low
    ensures var v := Folded(u, node, u.low[target]);
            Ok(g, v) && Begun(s, v, node) && SeenBound(s, v, node, seen + {target})
  {
    OpenBelow(g, s, t, node, seen);
    hide Ok, Edge, LowBound, LowReached;
    BegunTrans(s, t, u, node);
    FoldedBegun(s, u, node, u.low[target]);
    SetLow(g, u, node, Min(u.low[node], u.low[target]));
    ChildSeen(s, t, u, node, seen, target);
  }

  lemma ChildSeen(s: State, t: State, u: State, node: Node, seen: set<Node>, target: Node)
    requires Begun(s, t, node) && Extends(t, u) && SeenBound(s, t, node, seen)
    requires target !in t.num && target in u.num && target in u.low && node in u.low
    requires forall j :: 0 <= j < |s.stack| ==> s.stack[j] in t.num
    ensures SeenBound(s, Folded(u, node, u.low[target]), node, seen + {target})
  {
    forall j | 0 <= j < |s.stack| && s.stack[j] in seen + {target}
      ensures Min(u.low[node], u.low[target]) <= u.num[s.stack[j]]
    {
      assert s.stack[j] in t.num;
    }
  }

  lemma KnownWitness(g: Graph, s: State, t: State, node: Node, seen: set<Node>, target: Node)
    requires Ok(g, s) && Exploring(g, s, t, node, seen) && Edge(g, node, target)
    requires target in t.stack && target in t.num && t.num[target] < t.low[node]
    ensures LowReached(g, t, node, |s.stack| + 1, t.num[target])
  {
    ReachEdge(g, node, target);
    OpenBelow(g, s, t, node, seen);
    hide Ok, Reach, Edge, LowBound;
    var w :| 0 <= w < |t.stack| && t.stack[w] == target;
    assert w <= |s.stack|;
  }

  lemma LowBoundWeaker(g: Graph, t: State, u: State, base: nat, from: nat, low: nat, lower: nat)
    requires LowBound(g, t, base, from, low) && lower <= low && u.stack == t.stack && u.num == t.num
    ensures LowBound(g, u, base, from, lower)
  {
    hide Edge;
    forall i, j | from <= i < |u.stack| && 0 <= j < base && j < |u.stack|
      ensures Edge(g, u.stack[i], u.stack[j]) ==> u.stack[j] in u.num && lower <= u.num[u.stack[j]]
    {
    }
  }

  /** A target met before and still on the stack may lower the low link. */
  lemma AfterStacked(g: Graph, s: State, t: State, node: Node, seen: set<Node>, target: Node)
    requires Ok(g, s) && Exploring(g, s, t, node, seen) && Edge(g, node, target)
    requires target in t.num && target in t.stack
    ensures Exploring(g, s, Folded(t, node, t.num[target]), node, seen + {target})
  {
    var v := Folded(t, node, t.num[target]);
    if t.num[target] < t.low[node] { KnownWitness(g, s, t, node, seen, target); }
    LowBoundWeaker(g, t, v, |s.stack|, |s.stack| + 1, t.low[node], v.low[node]);
    hide Ok, Edge, LowBound, LowReached;
    SetLow(g, t, node, v.low[node]);
    FoldLowReached(g, t, node, |s.stack| + 1, t.num[target]);
    FoldedBegun(s, t, node, t.num[target]);
    StackedSeen(s, t, node, seen, target);
    hide Extends, Begun, SeenBound;
  }

  lemma StackedSeen(s: State, t: State, node: Node, seen: set<Node>, target: Node)
    requires SeenBound(s, t, node, seen) && target in t.num
    ensures SeenBound(s, Folded(t, node, t.num[target]), node, seen + {target})
  {
  }

  /** A target met before and already finished changes nothing. */
  lemma AfterFinished(g: Graph, s: State, t: State, node: Node, seen: set<Node>, target: Node)
    requires Ok(g, s) && Exploring(g, s, t, node, seen)
    requires target in t.num && target !in t.stack
    ensures Exploring(g, s, t, node, seen + {target})
  {
    hide Ok, LowBound, LowReached;
    forall j | 0 <= j < |s.stack| ensures s.stack[j] != target {
      assert t.stack[j] == s.stack[j];
    }
  }

  /** The whole edge list has been seen: what the two ways of closing a visit need. */
  lemma AllSeen(g: Graph, s: State, t: State, node: Node)
    requires Ok(g, s) && Exploring(g, s, t, node, Targets(g, node))
    ensures LowBound(g, t, |s.stack|, |s.stack|, t.low[node])
    ensures forall y :: Edge(g, node, y) ==> y in t.num
  {
    OpenBelow(g, s, t, node, Targets(g, node));
    hide Reach, CyclesMatch, Inv, LowReached;
    forall i, j | |s.stack| <= i < |t.stack| && 0 <= j < |s.stack|
      ensures Edge(g, t.stack[i], t.stack[j]) ==> t.stack[j] in t.num && t.low[node] <= t.num[t.stack[j]]
    {
      if i == |s.stack| && Edge(g, node, t.stack[j]) {
        assert t.stack[j] in Targets(g, node);
      }
    }
  }

  lemma CloseVisit(g: Graph, s: State, t: State, node: Node)
    requires Ok(g, s) && Exploring(g, s, t, node, Targets(g, node)) && t.low[node] != t.num[node]
    ensures Visited(g, s, t.(gray := t.gray - {node}), node) && Ok(g, t.(gray := t.gray - {node}))
  {
    hide Ok, Reach, Edge, LowBound;
    AllSeen(g, s, t, node);
    NewIsNotOpen(g, s, t, node);
    var u := t.(gray := t.gray - {node});
    var z := LowBelow(g, s, t, node);
    CloseOk(g, t, |s.stack|, z);
    LowBoundWeaker(g, t, u, |s.stack|, |s.stack|, t.low[node], t.low[node]);
    assert u.stack[z] == t.stack[z] && u.num == t.num && u.low == t.low;
    assert LowReached(g, u, node, |s.stack|, u.low[node]);
  }

  lemma LowBelow(g: Graph, s: State, t: State, node: Node) returns (z: nat)
    requires Ok(g, s) && Exploring(g, s, t, node, Targets(g, node)) && t.low[node] != t.num[node]
    ensures z < |s.stack| && t.stack[z] in t.num
    ensures t.num[t.stack[z]] == t.low[node] && Reach(g, node, t.stack[z])
  {
    hide Ok, Reach, Edge;
    z :| 0 <= z < |s.stack| + 1 && z < |t.stack| && t.stack[z] in t.num
      && t.num[t.stack[z]] == t.low[node] && Reach(g, node, t.stack[z]);
  }

  lemma CloseOk(g: Graph, t: State, k: nat, z: nat)
    requires Ok(g, t) && z < k < |t.stack| && t.stack[k] in t.gray
    requires forall y :: Edge(g, t.stack[k], y) ==> y in t.num
    requires Reach(g, t.stack[k], t.stack[z])
    ensures Ok(g, t.(gray := t.gray - {t.stack[k]}))
  {
    CloseKeepsInv(g, t, k, z);
    assert Done(t.(gray := t.gray - {t.stack[k]})) == Done(t);
  }

  lemma Sealed(g: Graph, s: State, t: State, node: Node)
    requires Ok(g, s) && Exploring(g, s, t, node, Targets(g, node)) && t.low[node] == t.num[node]
    ensures SegmentSealed(g, t, |s.stack|)
  {
    AllSeen(g, s, t, node);
    OpenBelow(g, s, t, node, Targets(g, node));
    hide Reach, Edge, CyclesMatch, DoneClosed, OlderReaches, ReachesOpen, LowReached;
    var k := |s.stack|;
    forall i, y | k <= i < |t.stack| && Edge(g, t.stack[i], y) ensures y in t.num && y !in t.stack[..k] {
      if i > k { assert t.stack[i] !in t.gray && t.stack[i] in t.num; }
      forall j | 0 <= j < k ensures t.stack[j] != y {
        assert t.num[t.stack[j]] < s.index;
      }
    }
  }

  /** The state after the component of `node` has been taken off the stack. */
  ghost function Popped(t: State, k: nat, node: Node, cycles: seq<seq<Node>>): State
    requires k <= |t.stack|
  {
    t.(stack := t.stack[..k], gray := t.gray - {node}, cycles := cycles)
  }

  /** The report after a component has come off the stack: it counts if large or looping. */
  ghost function Appended(g: Graph, cycles: seq<seq<Node>>, node: Node, c: seq<Node>): seq<seq<Node>> {
    if |c| > 1 || Edge(g, node, node) then cycles + [c] else cycles
  }

  lemma PopOk(g: Graph, t: State, k: nat, c: seq<Node>)
    requires Ok(g, t) && k < |t.stack| && t.stack[k] in t.gray && SegmentSealed(g, t, k)
    requires forall i :: k < i < |t.stack| ==> t.stack[i] !in t.gray
    requires StrictlySorted(c) && ToSet(c) == ToSet(t.stack[k..])
    ensures Ok(g, Popped(t, k, t.stack[k], Appended(g, t.cycles, t.stack[k], c)))
  {
    var node := t.stack[k];
    PopKeepsInv(g, t, k);
    CyclicIffLargeOrLoop(g, node);
    ToSetSize(c);
    hide Reach, Edge, Component, OnCycle, SegmentSealed, Inv;
    assert Done(t) <= Nodes(g) && node in Nodes(g) by { NumberedDone(g, t, k); }
    EmitComponent(g, Done(t), t.cycles, node, c);
    IgnoreCycles(g, t.(stack := t.stack[..k], gray := t.gray - {node}), Appended(g, t.cycles, node, c));
  }

  lemma NumberedDone(g: Graph, t: State, k: nat)
    requires Inv(g, t) && k < |t.stack|
    ensures Done(t) <= Nodes(g) && t.stack[k] in Nodes(g)
  {
  }

  lemma PopVisit(g: Graph, s: State, t: State, node: Node, c: seq<Node>)
    requires Ok(g, s) && Exploring(g, s, t, node, Targets(g, node)) && t.low[node] == t.num[node]
    requires StrictlySorted(c) && ToSet(c) == ToSet(t.stack[|s.stack|..])
    ensures var u := Popped(t, |s.stack|, node, Appended(g, t.cycles, node, c));
            Visited(g, s, u, node) && Ok(g, u)
  {
    var k := |s.stack|;
    Sealed(g, s, t, node);
    AllSeen(g, s, t, node);
    OpenBelow(g, s, t, node, Targets(g, node));
    assert node !in s.gray by { NewIsNotOpen(g, s, t, node); }
    hide Ok, Edge, LowReached, SegmentSealed, StrictlySorted;
    PopOk(g, t, k, c);
    var u := Popped(t, k, node, Appended(g, t.cycles, node, c));
    assert u.stack == t.stack[..k];
  }

  lemma NewIsNotOpen(g: Graph, s: State, t: State, node: Node)
    requires Ok(g, s) && node !in s.num
    ensures node !in s.gray
  {
    hide NoneMissed, DoneClosed, OlderReaches, ReachesOpen, CyclesMatch;
  }

  lemma IgnoreCycles(g: Graph, t: State, cycles: seq<seq<Node>>)
    requires Inv(g, t)
    ensures Inv(g, t.(cycles := cycles)) && Done(t.(cycles := cycles)) == Done(t)
  {
    hide Reach, Edge;
    var u := t.(cycles := cycles);
    assert Done(u) == Done(t);
    forall j | 0 <= j < |u.stack| ensures ReachesOpen(g, u, j) {
      assert ReachesOpen(g, t, j);
      var i :| 0 <= i <= j && t.stack[i] in t.gray && Reach(g, t.stack[j], t.stack[i]);
      assert u.stack[i] in u.gray;
    }
  }

  method SortedSet(s: set<Node>) returns (r: seq<Node>)
    ensures StrictlySorted(r) && ToSet(r) == s
  {
    var rest, list := s, [];
    while rest != {}
      invariant rest <= s && Distinct(list)
      invariant ToSet(list) == s - rest
      decreases rest
    {
      var x :| x in rest;
      assert x !in ToSet(list);
      assert ToSet(list + [x]) == ToSet(list) + {x};
      rest, list := rest - {x}, list + [x];
    }
    r := SortedList(list);
  }

  method SortedList(list: seq<Node>) returns (r: seq<Node>)
    requires Distinct(list)
    ensures StrictlySorted(r) && ToSet(r) == ToSet(list) && |r| == |list|
  {
    r := Sort(StringLe, list);
    StringOrder();
    SortSorts(StringLe, list);
    DistinctByMultiset(list, r);
    assert forall x :: x in r <==> x in multiset(r);
    assert forall x :: x in list <==> x in multiset(list);
  }

  lemma ToSetNext(s: seq<Node>, k: nat)
    requires k < |s|
    ensures ToSet(s[..k + 1]) == ToSet(s[..k]) + {s[k]} && s[k] in ToSet(s)
  {
    assert s[..k + 1] == s[..k] + [s[k]];
  }

  class Search {
    const graph: Graph
    var index: nat
    var indices: map<Node, nat>
    var lowlinks: map<Node, nat>
    var stack: seq<Node>
    var onStack: set<Node>
    var cycles: seq<seq<Node>>
    ghost var gray: set<Node>

    ghost function View(): State
      reads this
    {
      State(index, indices, lowlinks, stack, gray, cycles)
    }

    ghost predicate Valid()
      reads this
    {
      Ok(graph, View()) && onStack == ToSet(stack)
    }

    constructor (g: Graph)
      ensures Valid() && graph == g && View() == State(0, map[], map[], [], {}, [])
    {
      graph := g;
      index, indices, lowlinks := 0, map[], map[];
      stack, onStack, cycles, gray := [], {}, [], {};
    }

    /** The visit of `node` that began in `s` has seen its first `k` targets. */
    ghost predicate Midway(node: Node, s: State, targets: seq<Node>, k: nat)
      reads this
    {
      && Valid() && Ok(graph, s) && k <= |targets|
      && Exploring(graph, s, View(), node, ToSet(targets[..k]))
    }

    /** What is left to number, against what was left when the visit began. */
    ghost predicate Fewer(s: State)
      reads this
    {
      Nodes(graph) - indices.Keys < Nodes(graph) - s.num.Keys
    }

    method Visit(node: Node)
      requires Valid() && node in Nodes(graph) && node !in indices
      requires forall i :: 0 <= i < |stack| ==> Reach(graph, stack[i], node)
      modifies this
      ensures Valid() && Visited(graph, old(View()), View(), node)
      decreases Nodes(graph) - indices.Keys, 0
    {
      hide Ok, Reach, Edge, Visited, Exploring, Nodes;
      ghost var s := View();
      var targets := Begin(node);
      hide Midway;
      var k := 0;
      while k < |targets|
        invariant 0 <= k <= |targets| && Midway(node, s, targets, k) && Fewer(s)
      {
        ExploreNext(node, targets, k, s);
        k := k + 1;
      }
      End(node, targets, s);
    }

    method Begin(node: Node) returns (targets: seq<Node>)
      requires Valid() && node in Nodes(graph) && node !in indices
      requires forall i :: 0 <= i < |stack| ==> Reach(graph, stack[i], node)
      modifies this
      ensures ToSet(targets) == Targets(graph, node) && Midway(node, old(View()), targets, 0) && Fewer(old(View()))
    {
      hide Ok, Reach, Edge, Visited, Exploring, Nodes;
      Open(node);
      targets := SortedSet(Targets(graph, node));
      assert ToSet(targets[..0]) == {};
    }

    method ExploreNext(node: Node, targets: seq<Node>, k: nat, ghost s: State)
      requires k < |targets| && ToSet(targets) == Targets(graph, node) && Midway(node, s, targets, k) && Fewer(s)
      modifies this
      ensures Midway(node, s, targets, k + 1) && Fewer(s)
      decreases Nodes(graph) - indices.Keys, 2
    {
      hide Ok, Reach, Edge, Visited, Exploring, Nodes;
      ToSetNext(targets, k);
      TargetEdge(graph, node, targets[k]);
      Explore(node, targets[k], s, ToSet(targets[..k]));
    }

    method End(node: Node, targets: seq<Node>, ghost s: State)
      requires ToSet(targets) == Targets(graph, node) && Midway(node, s, targets, |targets|)
      modifies this
      ensures Valid() && Visited(graph, s, View(), node)
    {
      hide Ok, Reach, Edge, Visited, Exploring, Nodes;
      assert targets[..|targets|] == targets;
      Finish(node, s);
    }

    method Open(node: Node)
      requires Valid() && node in Nodes(graph) && node !in indices
      requires forall i :: 0 <= i < |stack| ==> Reach(graph, stack[i], node)
      modifies this
      ensures Valid() && Exploring(graph, old(View()), View(), node, {})
      ensures Nodes(graph) - indices.Keys < old(Nodes(graph) - indices.Keys)
    {
      hide Ok, Reach, Edge, Exploring, Nodes;
      ghost var s := View();
      OkDomains(graph, s);
      BeginVisit(graph, s, node);
      indices, lowlinks := indices[node := index], lowlinks[node := index];
      index := index + 1;
      stack, onStack := stack + [node], onStack + {node};
      gray := gray + {node};
      assert View() == Pushed(s, node);
      ExploringDomain(graph, s, View(), node, {});
    }

    /** One round of the loop over the targets. */
    method Explore(node: Node, target: Node, ghost s: State, ghost seen: set<Node>)
      requires Valid() && Ok(graph, s) && Exploring(graph, s, View(), node, seen)
      requires Edge(graph, node, target)
      modifies this
      ensures Valid() && Exploring(graph, s, View(), node, seen + {target})
      ensures Nodes(graph) - indices.Keys <= old(Nodes(graph) - indices.Keys)
      decreases Nodes(graph) - indices.Keys, 1
    {
      hide Ok, Reach, Edge, Visited, Exploring;
      ghost var t := View();
      ExploringDomain(graph, s, t, node, seen);
      if target !in indices {
        ChildReachable(graph, s, t, node, seen, target);
        Visit(target);
        VisitedDomain(graph, t, View(), target);
        AfterChild(graph, s, t, View(), node, seen, target);
        lowlinks := lowlinks[node := Min(lowlinks[node], lowlinks[target])];
      } else if target in onStack {
        AfterStacked(graph, s, t, node, seen, target);
        lowlinks := lowlinks[node := Min(lowlinks[node], indices[target])];
      } else {
        AfterFinished(graph, s, t, node, seen, target);
      }
      ExploringDomain(graph, s, View(), node, seen + {target});
    }

    /** All targets seen: either stay on the stack, or take the whole component off it. */
    method Finish(node: Node, ghost s: State)
      requires Valid() && Ok(graph, s) && Exploring(graph, s, View(), node, Targets(graph, node))
      modifies this
      ensures Valid() && Visited(graph, s, View(), node)
    {
      hide Ok, Reach, Edge, Visited, Exploring;
      ghost var t := View();
      ExploringDomain(graph, s, t, node, Targets(graph, node));
      if lowlinks[node] != indices[node] {
        CloseVisit(graph, s, t, node);
        gray := gray - {node};
        assert View() == t.(gray := t.gray - {node});
        return;
      }
      var component := PopDownTo(node, |s.stack|);
      gray := gray - {node};
      var sorted := SortedList(component);
      TargetEdge(graph, node, node);
      var hasSelfLoop := |component| == 1 && component[0] in Targets(graph, component[0]);
      PopVisit(graph, s, t, node, sorted);
      if |component| > 1 || hasSelfLoop {
        cycles := cycles + [sorted];
      }
      assert View() == Popped(t, |s.stack|, node, Appended(graph, t.cycles, node, sorted));
    }

    /** The outer loop over all keys, each visited unless a search already met it. */
    method VisitAll(nodes: seq<Node>)
      requires Valid() && gray == {} && ToSet(nodes) <= graph.Keys
      modifies this
      ensures Valid() && gray == {} && ToSet(nodes) <= indices.Keys
    {
      assert graph.Keys <= Nodes(graph);
      hide Ok, Reach, Edge, Visited, Nodes;
      var k := 0;
      while k < |nodes|
        invariant 0 <= k <= |nodes| && Valid() && gray == {}
        invariant ToSet(nodes[..k]) <= indices.Keys
      {
        ghost var before := View();
        NothingOpen(graph, before);
        ToSetNext(nodes, k);
        if nodes[k] !in indices {
          Visit(nodes[k]);
          VisitedDomain(graph, before, View(), nodes[k]);
        }
        k := k + 1;
      }
      assert nodes[..k] == nodes;
    }

    /** The inner loop: pop up to and including `node`. */
    method PopDownTo(node: Node, ghost k: nat) returns (component: seq<Node>)
      requires k < |stack| && stack[k] == node && Distinct(stack) && onStack == ToSet(stack)
      modifies `stack, `onStack
      ensures stack == old(stack)[..k] && onStack == ToSet(stack)
      ensures Distinct(component) && ToSet(component) == ToSet(old(stack)[k..]) && node in component
    {
      component := [];
      while true
        invariant k < |stack| <= |old(stack)| && stack == old(stack)[..|stack|]
        invariant onStack == ToSet(stack)
        invariant |component| + |stack| == |old(stack)|
        invariant forall i :: 0 <= i < |component| ==> component[i] == old(stack)[|old(stack)| - 1 - i]
        decreases |stack|
      {
        var member := stack[|stack| - 1];
        assert stack == stack[..|stack| - 1] + [member];
        stack, onStack, component := stack[..|stack| - 1], onStack - {member}, component + [member];
        if member == node {
          break;
        }
      }
      forall i | k <= i < |old(stack)| ensures old(stack)[i] in component {
        assert component[|old(stack)| - 1 - i] == old(stack)[i];
      }
    }
  }

  lemma ExploringDomain(g: Graph, s: State, t: State, node: Node, seen: set<Node>)
    requires Ok(g, s) && Exploring(g, s, t, node, seen)
    ensures Ok(g, t)
    ensures node in t.num && node in t.low && t.low.Keys == t.num.Keys && t.num.Keys <= Nodes(g)
    ensures Nodes(g) - t.num.Keys < Nodes(g) - s.num.Keys
    ensures |s.stack| < |t.stack| && t.stack[|s.stack|] == node && t.stack[..|s.stack|] == s.stack
    ensures Distinct(t.stack)
  {
    hide Reach, Edge, NoneMissed, DoneClosed, OlderReaches, ReachesOpen, LowReached, LowBound, CyclesMatch;
    forall i, j | 0 <= i < j < |t.stack| ensures t.stack[i] != t.stack[j] {
      StackDistinct(g, t, j, i, j);
    }
    assert node in Nodes(g) - s.num.Keys;
  }

  lemma VisitedDomain(g: Graph, s: State, t: State, node: Node)
    requires Visited(g, s, t, node)
    ensures Ok(g, t) && Extends(s, t) && node in t.low && node in t.num && t.gray == s.gray
  {
  }

  lemma NothingOpen(g: Graph, t: State)
    requires Ok(g, t) && t.gray == {}
    ensures t.stack == [] && t.num.Keys <= Nodes(g)
    ensures CyclesMatch(g, t.num.Keys, t.cycles)
    ensures forall x, y :: x in t.num && Edge(g, x, y) ==> y in t.num
  {
    hide Reach, Edge, OlderReaches, CyclesMatch;
    assert |t.stack| > 0 ==> ReachesOpen(g, t, 0);
    assert Done(t) == t.num.Keys;
  }

  /** `sorted(cycles)` of a finished search is the report the gate compares with []. */
  lemma FinishedReport(g: Graph, visited: set<Node>, cycles: seq<seq<Node>>)
    requires CyclesMatch(g, visited, cycles) && g.Keys <= visited <= Nodes(g)
    requires forall x, y :: x in visited && Edge(g, x, y) ==> y in visited
    ensures IsCycleReport(g, Sort(ListLe, cycles))
  {
    forall y | y in Nodes(g) ensures y in visited {
      if y !in g {
        var x :| x in g && y in g[x];
        assert Edge(g, x, y);
      }
    }
    assert visited == Nodes(g);
    hide Edge, Nodes, OnCycle, Component, StrictlySorted;
    var r := Sort(ListLe, cycles);
    ListOrder();
    SortSorts(ListLe, cycles);
    DistinctByMultiset(cycles, r);
    assert forall c :: c in r <==> c in multiset(r);
    assert forall c :: c in cycles <==> c in multiset(cycles);
    assert forall c :: c in r <==> c in cycles;
    assert (set c | c in r :: ToSet(c)) == (set c | c in cycles :: ToSet(c));
  }

  method FindCycles(g: Graph) returns (r: seq<seq<Node>>)
    ensures IsCycleReport(g, r)
    ensures r == [] <==> Layerable(g)
  {
    var search := new Search(g);
    var nodes := SortedSet(g.Keys);
    search.VisitAll(nodes);
    NothingOpen(g, search.View());
    FinishedReport(g, search.indices.Keys, search.cycles);
    r := Sort(ListLe, search.cycles);
    EmptyReportIffLayered(g, r);
  }

  /** The gate's `not cycles`: no report exactly when the packages can be layered. */
  lemma EmptyReportIffLayered(g: Graph, r: seq<seq<Node>>)
    requires IsCycleReport(g, r)
    ensures r == [] <==> Layerable(g)
  {
    AcyclicIffLayerable(g);
    var sets := set c | c in r :: ToSet(c);
    if r == [] {
      assert sets == {};
    } else {
      assert r[0] in r && ToSet(r[0]) in sets;
    }
  }
}
