/** The package graph of a source tree, and the gate that refuses its cycles. */
module PackageGraph {
  import CycleFinder
  import opened Graphs
  import opened Options
  import Orders

  const PRODUCT := "servicemind"
  const PREFIX := "servicemind."
  const ROOT := "_root"

  /** `import names`, and `from base import names` with `level` dots before the base. */
  datatype Statement =
    | Import(names: seq<string>)
    | ImportFrom(level: nat, base: Option<string>, names: seq<string>)

  /** A file by the parts of its path below the package root, and its import statements. */
  datatype SourceFile = SourceFile(parts: seq<string>, statements: seq<Statement>)

  predicate HasBase(base: Option<string>) {
    base.Some? && base.value != ""
  }

  /** The names one statement adds: of a `from` import its base alone, whatever its dots and names. */
  function NamesOf(s: Statement): seq<string> {
    match s
    case Import(names) => names
    case ImportFrom(_, base, _) => if HasBase(base) then [base.value] else []
  }

  function Collected(statements: seq<Statement>): set<string> {
    set s, n | s in statements && n in NamesOf(s) :: n
  }

  method CollectImports(statements: seq<Statement>) returns (imported: set<string>)
    ensures imported == Collected(statements)
  {
    imported := {};
    for i := 0 to |statements|
      invariant imported == Collected(statements[..i])
    {
      OneMoreStatement(statements, i);
      match statements[i]
      case Import(names) =>
        imported := imported + set n | n in names;
      case ImportFrom(_, base, _) =>
        if base.Some? && base.value != "" { imported := imported + {base.value}; }
    }
    assert statements[..|statements|] == statements;
  }

  lemma OneMoreStatement(statements: seq<Statement>, i: nat)
    requires i < |statements|
    ensures Collected(statements[..i + 1]) == Collected(statements[..i]) + set n | n in NamesOf(statements[i])
  {
    assert statements[..i + 1] == statements[..i] + [statements[i]];
  }

  function PackageOf(file: SourceFile): Node {
    if |file.parts| > 1 then file.parts[0] else ROOT
  }

  /** Files in a directory belong to the first one on their path, all others to `_root`. */
  lemma PackageInPlain(file: SourceFile)
    ensures |file.parts| >= 2 ==> PackageOf(file) == file.parts[0]
    ensures |file.parts| < 2 ==> PackageOf(file) == "_root"
  {
  }

  predicate Internal(imported: string) {
    PREFIX <= imported
  }

  function UpToDot(s: string): string {
    if s == [] || s[0] == '.' then [] else [s[0]] + UpToDot(s[1..])
  }

  /** `imported.split(".", 2)[1]`. */
  function TargetOf(imported: string): Node
    requires Internal(imported)
  {
    UpToDot(imported[|PREFIX|..])
  }

  /** The import takes a file of `source` out of its own package into `target`. */
  predicate Crosses(source: Node, imported: string, target: Node) {
    target != source && Internal(imported) && TargetOf(imported) == target
  }

  predicate LeadsTo(source: Node, imports: set<string>, target: Node) {
    exists i :: i in imports && Crosses(source, i, target)
  }

  predicate Depends(files: seq<SourceFile>, source: Node, target: Node) {
    exists k :: 0 <= k < |files| && PackageOf(files[k]) == source
                && LeadsTo(source, Collected(files[k].statements), target)
  }

  predicate Mentioned(files: seq<SourceFile>, p: Node) {
    exists k :: 0 <= k < |files|
                && (PackageOf(files[k]) == p || LeadsTo(PackageOf(files[k]), Collected(files[k].statements), p))
  }

  /** Keys are the packages that hold or are imported by a file, edges the imports between them. */
  ghost predicate IsPackageGraph(files: seq<SourceFile>, g: Graph) {
    && (forall p :: p in g <==> Mentioned(files, p))
    && (forall p, q :: Edge(g, p, q) <==> Depends(files, p, q))
  }

  method AddImport(before: Graph, source: Node, imported: string) returns (g: Graph)
    requires source in before
    ensures forall p :: p in g <==> p in before || Crosses(source, imported, p)
    ensures forall p, q :: Edge(g, p, q) <==> Edge(before, p, q) || (p == source && Crosses(source, imported, q))
  {
    g := before;
    if Internal(imported) {
      var target := TargetOf(imported);
      if target != source {
        g := g[source := g[source] + {target}];
        g := if target in g then g else g[target := {}];
      }
    }
  }

  /** One file's imports, taken in whatever order the set gives them. */
  method AddFile(before: Graph, file: SourceFile) returns (g: Graph)
    ensures var source, imports := PackageOf(file), Collected(file.statements);
            && (forall p :: p in g <==> p in before || p == source || LeadsTo(source, imports, p))
            && (forall p, q :: Edge(g, p, q) <==> Edge(before, p, q) || (p == source && LeadsTo(source, imports, q)))
  {
    hide Crosses;
    var source := PackageOf(file);
    g := if source in before then before else before[source := {}];
    var imports := CollectImports(file.statements);
    var todo := imports;
    while todo != {}
      invariant todo <= imports && source in g
      invariant forall p :: p in g <==> p in before || p == source || LeadsTo(source, imports - todo, p)
      invariant forall p, q :: Edge(g, p, q) <==>
        Edge(before, p, q) || (p == source && LeadsTo(source, imports - todo, q))
      decreases todo
    {
      var imported :| imported in todo;
      OneMoreImport(source, imports, todo, imported);
      g := AddImport(g, source, imported);
      todo := todo - {imported};
    }
    assert imports - todo == imports;
  }

  lemma OneMoreImport(source: Node, imports: set<string>, todo: set<string>, imported: string)
    requires todo <= imports && imported in todo
    ensures forall q :: LeadsTo(source, imports - (todo - {imported}), q) <==>
      LeadsTo(source, imports - todo, q) || Crosses(source, imported, q)
  {
    hide Crosses;
    assert imports - (todo - {imported}) == (imports - todo) + {imported};
  }

  method BuildGraph(files: seq<SourceFile>) returns (g: Graph)
    ensures IsPackageGraph(files, g)
  {
    hide LeadsTo;
    g := map[];
    for i := 0 to |files|
      invariant IsPackageGraph(files[..i], g)
    {
      OneMoreFile(files, i);
      g := AddFile(g, files[i]);
    }
    assert files[..|files|] == files;
  }

  lemma OneMoreFile(files: seq<SourceFile>, i: nat)
    requires i < |files|
    ensures forall p :: Mentioned(files[..i + 1], p) <==>
      Mentioned(files[..i], p)
      || PackageOf(files[i]) == p || LeadsTo(PackageOf(files[i]), Collected(files[i].statements), p)
    ensures forall p, q :: Depends(files[..i + 1], p, q) <==>
      Depends(files[..i], p, q) || (PackageOf(files[i]) == p && LeadsTo(p, Collected(files[i].statements), q))
  {
    hide LeadsTo, PackageOf;
    var more, less := files[..i + 1], files[..i];
    assert more[i] == files[i] && forall k :: 0 <= k < i ==> more[k] == less[k] == files[k];
    assert more == less + [files[i]];
    forall p ensures Mentioned(more, p) <==>
      Mentioned(less, p) || PackageOf(files[i]) == p || LeadsTo(PackageOf(files[i]), Collected(files[i].statements), p)
    {
      if PackageOf(files[i]) == p || LeadsTo(PackageOf(files[i]), Collected(files[i].statements), p) {
        assert PackageOf(more[i]) == p || LeadsTo(PackageOf(more[i]), Collected(more[i].statements), p);
      }
    }
  }

  /** Every reported cycle holds at least two packages: imports within a package are no edges. */
  lemma ReportedCyclesAreLarge(files: seq<SourceFile>, g: Graph, r: seq<seq<Node>>)
    requires IsPackageGraph(files, g) && IsCycleReport(g, r)
    ensures forall c :: c in r ==> |c| >= 2
  {
    hide Component, OnCycle, StrictlySorted;
    forall c | c in r ensures |c| >= 2 {
      assert Orders.ToSet(c) in CyclicComponents(g);
      var x :| x in Nodes(g) && OnCycle(g, x) && Orders.ToSet(c) == Component(g, x);
      assert !Depends(files, x, x);
      CyclicIffLargeOrLoop(g, x);
      SetNoLonger(c);
    }
  }

  lemma {:induction false} SetNoLonger<T>(c: seq<T>)
    ensures |Orders.ToSet(c)| <= |c|
  {
    if c != [] {
      SetNoLonger(c[1..]);
      assert Orders.ToSet(c) == {c[0]} + Orders.ToSet(c[1..]);
    }
  }

  /**
   * Top-level modules are one package only as importers: an import of one names the module,
   * not `_root`. So `_root` is in no reported cycle unless some import names `_root` itself.
   */
  lemma RootIsNeverInACycle(files: seq<SourceFile>, g: Graph, r: seq<seq<Node>>)
    requires IsPackageGraph(files, g) && IsCycleReport(g, r)
    requires forall p :: !Depends(files, p, ROOT)
    ensures forall c :: c in r ==> ROOT !in c
  {
    hide Component, StrictlySorted;
    forall c | c in r ensures ROOT !in c {
      assert Orders.ToSet(c) in CyclicComponents(g);
      var x :| x in Nodes(g) && OnCycle(g, x) && Orders.ToSet(c) == Component(g, x);
      if ROOT in Component(g, x) {
        SameComponent(g, x, ROOT);
        NoWayIn(g, ROOT);
      }
    }
  }

  predicate Plain(name: string) {
    name != ROOT && forall i :: 0 <= i < |name| ==> name[i] != '.'
  }

  lemma {:induction false} PlainTarget(name: string, rest: string)
    requires forall i :: 0 <= i < |name| ==> name[i] != '.'
    ensures UpToDot(name) == name && UpToDot(name + "." + rest) == name
  {
    if name != [] {
      assert (name + "." + rest)[1..] == name[1..] + "." + rest;
      PlainTarget(name[1..], rest);
    }
  }

  /** However deep the imported module, the target is the first name below the product package. */
  lemma TargetIsFirstPart(name: string, rest: string)
    requires forall i :: 0 <= i < |name| ==> name[i] != '.'
    ensures Internal("servicemind." + name) && TargetOf("servicemind." + name) == name
    ensures Internal("servicemind." + name + "." + rest) && TargetOf("servicemind." + name + "." + rest) == name
  {
    assert (PREFIX + name)[|PREFIX|..] == name;
    assert (PREFIX + name + "." + rest)[|PREFIX|..] == name + "." + rest;
    PlainTarget(name, rest);
  }

  lemma LastEdge(g: Graph, y: Node, x: Node)
    requires Reach(g, y, x) && y != x
    ensures exists p :: Edge(g, p, x)
  {
    var path :| Connects(g, path, y, x);
    assert Edge(g, path[|path| - 2], path[|path| - 2 + 1]);
  }

  lemma NoWayIn(g: Graph, x: Node)
    requires forall p :: !Edge(g, p, x)
    ensures !OnCycle(g, x)
  {
    hide Edge;
    forall y | Edge(g, x, y) ensures !Reach(g, y, x) {
      if Reach(g, y, x) && y != x { LastEdge(g, y, x); }
    }
  }

  /** A numbering of packages in which every dependency goes down. */
  ghost predicate Descends(files: seq<SourceFile>, level: map<Node, nat>) {
    forall p, q :: Depends(files, p, q) ==> p in level && q in level && level[p] > level[q]
  }

  lemma LayeredByDependency(files: seq<SourceFile>, g: Graph)
    requires IsPackageGraph(files, g)
    ensures Layerable(g) <==> exists level :: Descends(files, level)
  {
    hide Depends, Mentioned;
    assert forall p, q :: Edge(g, p, q) ==> p in Nodes(g) && q in Nodes(g);
    hide Edge, Nodes;
    if Layerable(g) {
      var level :| Layers(g, level);
      assert Descends(files, level);
    }
    if level :| Descends(files, level) {
      var full := map p | p in Nodes(g) :: if p in level then level[p] else 0;
      assert Layers(g, full);
    }
  }

  predicate Directory(files: seq<SourceFile>, p: Node) {
    exists k :: 0 <= k < |files| && |files[k].parts| > 1 && files[k].parts[0] == p
  }

  /** A module at top level that no directory of its name shadows. */
  predicate TopModule(files: seq<SourceFile>, m: Node) {
    !Directory(files, m) && exists k :: 0 <= k < |files| && files[k].parts == [m + ".py"]
  }

  /** Where an imported name really lives: the top-level modules are files of `_root`. */
  function Home(files: seq<SourceFile>, name: Node): Node {
    if TopModule(files, name) then ROOT else name
  }

  function Dirs(file: SourceFile): seq<string> {
    if file.parts == [] then [] else file.parts[..|file.parts| - 1]
  }

  /** An absolute name leads to the package it lies in; the bare product package is a file of `_root`. */
  predicate NamesModule(files: seq<SourceFile>, name: string, q: Node) {
    (name == PRODUCT && q == ROOT) || (Internal(name) && Home(files, TargetOf(name)) == q)
  }

  /** Names taken from the product package itself are its packages, or else live in files of `_root`. */
  predicate FromProduct(files: seq<SourceFile>, names: seq<string>, q: Node) {
    exists n :: n in names && q == if Directory(files, n) then n else ROOT
  }

  /** Where Python finds what the statement imports, for a file in the directories `dirs`. */
  predicate Refers(files: seq<SourceFile>, dirs: seq<string>, s: Statement, q: Node) {
    match s
    case Import(names) => exists n :: n in names && NamesModule(files, n, q)
    case ImportFrom(level, base, names) =>
      if level == 0 then
        base.Some?
        && if base.value == PRODUCT then FromProduct(files, names, q) else NamesModule(files, base.value, q)
      else if level <= |dirs| then q == dirs[0]
      else
        level == |dirs| + 1
        && if HasBase(base) then Home(files, UpToDot(base.value)) == q else FromProduct(files, names, q)
  }

  /** An import that leaves its package, however it is spelled. */
  ghost predicate TrulyDepends(files: seq<SourceFile>, p: Node, q: Node) {
    p != q && exists k, s :: 0 <= k < |files| && PackageOf(files[k]) == p && s in files[k].statements
                             && Refers(files, Dirs(files[k]), s, q)
  }

  /** Absolute by its dotted name, or relative within its own package. */
  predicate Spelled(file: SourceFile, s: Statement) {
    match s
    case Import(names) => PRODUCT !in names
    case ImportFrom(level, base, names) =>
      if level == 0 then base != Some(PRODUCT)
      else level <= |Dirs(file)| && (base.Some? ==> !Internal(base.value))
  }

  /** Every import that leaves its package is written by its absolute dotted name. */
  predicate WellSpelled(files: seq<SourceFile>) {
    forall k, s :: 0 <= k < |files| && s in files[k].statements ==> Spelled(files[k], s)
  }

  /** What the gate collects, with top-level modules counted where they live. */
  ghost predicate SeenAtHome(files: seq<SourceFile>, p: Node, q: Node) {
    p != q && exists r :: Depends(files, p, r) && Home(files, r) == q
  }

  lemma PackagesLiveAtHome(files: seq<SourceFile>, k: nat)
    requires k < |files|
    ensures Home(files, PackageOf(files[k])) == PackageOf(files[k])
  {
  }

  predicate NameLeads(files: seq<SourceFile>, p: Node, n: string, q: Node) {
    Internal(n) && TargetOf(n) != p && Home(files, TargetOf(n)) == q
  }

  /** A well-spelled statement refers to another package exactly if a name collected from it does. */
  lemma StatementSeen(files: seq<SourceFile>, k: nat, s: Statement, q: Node)
    requires k < |files| && Spelled(files[k], s) && q != PackageOf(files[k])
    ensures Refers(files, Dirs(files[k]), s, q) <==>
            exists n :: n in NamesOf(s) && NameLeads(files, PackageOf(files[k]), n, q)
  {
    hide TargetOf, TopModule, FromProduct;
    PackagesLiveAtHome(files, k);
    var p := PackageOf(files[k]);
    match s
    case Import(names) =>
      forall n | n in names ensures NamesModule(files, n, q) <==> NameLeads(files, p, n, q) {}
    case ImportFrom(level, base, names) =>
      if HasBase(base) {
        assert NamesOf(s) == [base.value] && base.value in NamesOf(s);
      }
      assert level > 0 ==> !Refers(files, Dirs(files[k]), s, q);
  }

  lemma WellSpelledIsSeen(files: seq<SourceFile>)
    requires WellSpelled(files)
    ensures forall p, q :: TrulyDepends(files, p, q) <==> SeenAtHome(files, p, q)
  {
    hide Refers, Spelled, Home, TargetOf, Internal, PackageOf, Dirs;
    forall p, q ensures TrulyDepends(files, p, q) <==> SeenAtHome(files, p, q) {
      if TrulyDepends(files, p, q) { TrueIsSeen(files, p, q); }
      if SeenAtHome(files, p, q) { SeenIsTrue(files, p, q); }
    }
  }

  lemma TrueIsSeen(files: seq<SourceFile>, p: Node, q: Node)
    requires WellSpelled(files) && TrulyDepends(files, p, q)
    ensures SeenAtHome(files, p, q)
  {
    hide Refers, Spelled, Home, PackageOf, Dirs, UpToDot, NamesOf;
    var k, s :| 0 <= k < |files| && PackageOf(files[k]) == p && s in files[k].statements
                && Refers(files, Dirs(files[k]), s, q);
    StatementSeen(files, k, s, q);
    var n :| n in NamesOf(s) && NameLeads(files, p, n, q);
    assert Crosses(p, n, TargetOf(n));
    assert n in Collected(files[k].statements);
    assert LeadsTo(p, Collected(files[k].statements), TargetOf(n));
  }

  lemma SeenIsTrue(files: seq<SourceFile>, p: Node, q: Node)
    requires WellSpelled(files) && SeenAtHome(files, p, q)
    ensures TrulyDepends(files, p, q)
  {
    hide Refers, Spelled, Home, PackageOf, Dirs, UpToDot, NamesOf;
    var r :| Depends(files, p, r) && Home(files, r) == q;
    var k :| 0 <= k < |files| && PackageOf(files[k]) == p && LeadsTo(p, Collected(files[k].statements), r);
    var n :| n in Collected(files[k].statements) && Crosses(p, n, r);
    var s :| s in files[k].statements && n in NamesOf(s);
    assert NameLeads(files, p, n, q);
    StatementSeen(files, k, s, q);
  }

  /** A numbering of packages in which every true dependency goes down. */
  ghost predicate TrulyDescends(files: seq<SourceFile>, level: map<Node, nat>) {
    forall p, q :: TrulyDepends(files, p, q) ==> p in level && q in level && level[p] > level[q]
  }

  /** A package that the top-level files lead to imports one of them back. */
  ghost predicate ComesBack(files: seq<SourceFile>, g: Graph, p: Node, m: Node) {
    p != ROOT && Reach(g, ROOT, p) && Depends(files, p, m) && TopModule(files, m)
  }

  ghost predicate HiddenCycle(files: seq<SourceFile>, g: Graph) {
    exists p, m :: ComesBack(files, g, p, m)
  }

  /** A package that imports anything holds files, so it is `_root` or a directory. */
  lemma SourcesLiveAtHome(files: seq<SourceFile>)
    ensures forall p, q :: Depends(files, p, q) ==> p == ROOT || !TopModule(files, p)
    ensures forall p, q :: Depends(files, p, q) ==> Home(files, p) == p
  {
    hide LeadsTo;
    forall p, q | Depends(files, p, q) ensures p == ROOT || Directory(files, p) {
      var k :| 0 <= k < |files| && PackageOf(files[k]) == p && LeadsTo(p, Collected(files[k].statements), q);
    }
  }

  /** Along a true numbering the levels fall from `_root` to any package it reaches that imports something. */
  lemma TrueLevelsFall(files: seq<SourceFile>, g: Graph, level: map<Node, nat>, path: seq<Node>, q: Node)
    requires WellSpelled(files) && IsPackageGraph(files, g) && TrulyDescends(files, level)
    requires IsPath(g, path) && Depends(files, path[|path| - 1], q)
    ensures |path| > 1 ==> path[0] in level && path[|path| - 1] in level && level[path[|path| - 1]] < level[path[0]]
  {
    hide Edge, Depends, Home, Mentioned, TrulyDepends, WellSpelled;
    WellSpelledIsSeen(files);
    SourcesLiveAtHome(files);
    var i := |path| - 1;
    while i > 0
      invariant 0 <= i < |path| && exists r :: Depends(files, path[i], r)
      invariant i < |path| - 1 ==>
        path[i] in level && path[|path| - 1] in level && level[path[|path| - 1]] < level[path[i]]
    {
      assert Edge(g, path[i - 1], path[i - 1 + 1]);
      NoSelfDependency(files, path[i - 1], path[i]);
      assert SeenAtHome(files, path[i - 1], path[i]);
      i := i - 1;
    }
  }

  lemma NoSelfDependency(files: seq<SourceFile>, p: Node, q: Node)
    requires Depends(files, p, q)
    ensures p != q
  {
  }

  /** A true numbering shows the gate no cycle, and leaves none hidden from it. */
  lemma TrueNumberingPasses(files: seq<SourceFile>, g: Graph, level: map<Node, nat>)
    requires WellSpelled(files) && IsPackageGraph(files, g) && TrulyDescends(files, level)
    ensures (exists seen :: Descends(files, seen)) && !HiddenCycle(files, g)
  {
    hide Reach, Edge, Depends, TopModule, Mentioned, TrulyDepends, WellSpelled;
    WellSpelledIsSeen(files);
    SourcesLiveAtHome(files);
    var seen := map p | p in level.Keys + Nodes(g) ::
      if p != ROOT && TopModule(files, p) then 0 else if p in level then level[p] + 1 else 1;
    forall p, q | Depends(files, p, q) ensures p in seen && q in seen && seen[p] > seen[q] {
      assert Edge(g, p, q);
      EdgeNodes(g, p, q);
      NoSelfDependency(files, p, q);
      if q == ROOT || !TopModule(files, q) {
        assert Home(files, q) == q;
        assert SeenAtHome(files, p, q);
      }
    }
    assert Descends(files, seen);
    forall p, m ensures !ComesBack(files, g, p, m) {
      if ComesBack(files, g, p, m) { NotBack(files, g, level, p, m); }
    }
  }

  lemma EdgeNodes(g: Graph, p: Node, q: Node)
    requires Edge(g, p, q)
    ensures p in Nodes(g) && q in Nodes(g)
  {
  }

  lemma NotBack(files: seq<SourceFile>, g: Graph, level: map<Node, nat>, p: Node, m: Node)
    requires WellSpelled(files) && IsPackageGraph(files, g) && TrulyDescends(files, level)
    ensures !ComesBack(files, g, p, m)
  {
    hide Depends, TopModule, Mentioned, IsPath, TrulyDepends, WellSpelled;
    WellSpelledIsSeen(files);
    forall path | Connects(g, path, ROOT, p) && Depends(files, p, m) && p != ROOT ensures !TopModule(files, m) {
      TrueLevelsFall(files, g, level, path, m);
      PathHasEdge(g, path);
      assert Home(files, m) == ROOT ==> SeenAtHome(files, p, ROOT);
    }
  }

  lemma PathHasEdge(g: Graph, path: seq<Node>)
    requires IsPath(g, path) && path[0] != path[|path| - 1]
    ensures |path| > 1
  {
  }

  /** Where nothing comes back, lifting every package `_root` does not reach above it numbers the true dependencies. */
  lemma PassingNumbersTruly(files: seq<SourceFile>, g: Graph, seen: map<Node, nat>)
    requires WellSpelled(files) && IsPackageGraph(files, g) && Descends(files, seen) && !HiddenCycle(files, g)
    ensures exists level :: TrulyDescends(files, level)
  {
    hide Reach, Edge, Depends, TopModule, Mentioned, TrulyDepends, WellSpelled;
    WellSpelledIsSeen(files);
    var top := if ROOT in seen then seen[ROOT] else 0;
    var level := map p | p in seen.Keys + {ROOT} ::
      if p == ROOT then top else if Reach(g, ROOT, p) then seen[p] else seen[p] + top + 1;
    ReachRefl(g, ROOT);
    forall p, q | TrulyDepends(files, p, q) ensures p in level && q in level && level[p] > level[q] {
      var r :| Depends(files, p, r) && Home(files, r) == q;
      assert Edge(g, p, r);
      if Reach(g, ROOT, p) {
        ReachEdge(g, p, r);
        ReachTrans(g, ROOT, p, r);
      }
      assert TopModule(files, r) && p != ROOT && Reach(g, ROOT, p) ==> ComesBack(files, g, p, r);
    }
    assert TrulyDescends(files, level);
  }

  /**
   * What the gate can and cannot see. It reports nothing exactly when the dependencies it
   * computes can be layered. Where every import that leaves its package is written by its
   * absolute dotted name, the dependencies the tree really has can be layered exactly when,
   * besides, no package that the top-level files lead to imports one of them back.
   */
  method Audit(files: seq<SourceFile>) returns (cycles: seq<seq<Node>>, ghost g: Graph)
    ensures IsPackageGraph(files, g)
    ensures cycles == [] <==> exists level :: Descends(files, level)
    ensures WellSpelled(files) ==>
      ((exists level :: TrulyDescends(files, level)) <==> cycles == [] && !HiddenCycle(files, g))
    ensures forall c :: c in cycles ==> |c| >= 2
  {
    hide Layerable, IsPackageGraph, IsCycleReport, Descends, TrulyDescends, HiddenCycle, WellSpelled;
    var graph := BuildGraph(files);
    cycles := CycleFinder.FindCycles(graph);
    g := graph;
    ReportedCyclesAreLarge(files, g, cycles);
    LayeredByDependency(files, g);
    if WellSpelled(files) { GateIsRightIff(files, g); }
  }

  lemma GateIsRightIff(files: seq<SourceFile>, g: Graph)
    requires WellSpelled(files) && IsPackageGraph(files, g)
    ensures (exists level :: TrulyDescends(files, level)) <==>
            (exists level :: Descends(files, level)) && !HiddenCycle(files, g)
  {
    hide IsPackageGraph, Descends, TrulyDescends, HiddenCycle, WellSpelled;
    if level :| TrulyDescends(files, level) {
      TrueNumberingPasses(files, g, level);
    }
    if level :| Descends(files, level) {
      if !HiddenCycle(files, g) { PassingNumbersTruly(files, g, level); }
    }
  }

  /** Two files: one in a package, one at top level, each importing the other. */
  function MutualImport(package: string, top: string, file: string): seq<SourceFile> {
    [SourceFile([package, file], [Import([PREFIX + top])]), SourceFile([top + ".py"], [Import([PREFIX + package])])]
  }

  /** Any package and top-level module that import each other: the gate passes, and the cycle is hidden. */
  lemma MutualImportWithTopLevelPasses(package: string, top: string, file: string, g: Graph)
    requires Plain(package) && Plain(top) && package != top && IsPackageGraph(MutualImport(package, top, file), g)
    ensures var files := MutualImport(package, top, file);
            WellSpelled(files) && (exists level :: Descends(files, level)) && HiddenCycle(files, g)
            && !exists level :: TrulyDescends(files, level)
  {
    hide MutualImport, Depends, TopModule, Mentioned, TrulyDescends;
    var files := MutualImport(package, top, file);
    TwoFileDependencies(package, top, file);
    GateIsRightIff(files, g);
    var level := map[top := 0, package := 1, ROOT := 2];
    assert Descends(files, level);
    assert Edge(g, ROOT, package);
    ReachEdge(g, ROOT, package);
    assert ComesBack(files, g, package, top);
  }

  lemma TwoFileDependencies(package: string, top: string, file: string)
    requires Plain(package) && Plain(top) && package != top
    ensures var files := MutualImport(package, top, file);
            WellSpelled(files) && TopModule(files, top) && Depends(files, package, top) && Depends(files, ROOT, package)
            && forall p, q :: Depends(files, p, q) ==> (p == package && q == top) || (p == ROOT && q == package)
  {
    var files := MutualImport(package, top, file);
    TargetIsFirstPart(package, "");
    TargetIsFirstPart(top, "");
    assert Crosses(package, PREFIX + top, top) && Crosses(ROOT, PREFIX + package, package);
    assert files[0].parts == [package, file] && files[1].parts == [top + ".py"];
    assert PackageOf(files[0]) == package && PackageOf(files[1]) == ROOT;
    OneImport(PREFIX + top);
    OneImport(PREFIX + package);
    assert LeadsTo(package, Collected(files[0].statements), top);
    assert LeadsTo(ROOT, Collected(files[1].statements), package);
  }

  lemma OneImport(name: string)
    ensures Collected([Import([name])]) == {name}
  {
    var s := Import([name]);
    assert s in [s] && name in NamesOf(s);
    assert Collected([s]) == {name};
  }

  /** Two packages: one imports the other by the statement `s`, and is imported back by its dotted name. */
  function Pair(a: string, b: string, s: Statement): seq<SourceFile> {
    [SourceFile([a, "x.py"], [s]), SourceFile([b, "y.py"], [Import([PREFIX + a])])]
  }

  /** A spelling that leads to `b` and leaves no name of the product package behind hides the cycle. */
  lemma MissedSpellingPasses(a: string, b: string, s: Statement, g: Graph)
    requires Plain(a) && Plain(b) && a != b && IsPackageGraph(Pair(a, b, s), g)
    requires Refers(Pair(a, b, s), [a], s, b) && forall n :: n in NamesOf(s) ==> !Internal(n)
    ensures var files := Pair(a, b, s);
            (exists level :: Descends(files, level)) && !HiddenCycle(files, g)
            && !exists level :: TrulyDescends(files, level)
  {
    var files := Pair(a, b, s);
    PairDependencies(a, b, s);
    hide Pair, Depends, Refers, Mentioned, Reach, TrulyDepends;
    assert Descends(files, map[a := 0, b := 1]);
    forall p, m ensures !ComesBack(files, g, p, m) {}
    forall level ensures !TrulyDescends(files, level) {}
  }

  lemma PairDependencies(a: string, b: string, s: Statement)
    requires Plain(a) && Plain(b) && a != b
    requires Refers(Pair(a, b, s), [a], s, b) && forall n :: n in NamesOf(s) ==> !Internal(n)
    ensures var files := Pair(a, b, s);
            (forall p, q :: Depends(files, p, q) ==> p == b && q == a)
            && (forall m :: !TopModule(files, m))
            && TrulyDepends(files, a, b) && TrulyDepends(files, b, a)
  {
    hide Refers;
    var files := Pair(a, b, s);
    TargetIsFirstPart(a, "");
    OneImport(PREFIX + a);
    assert files[0].parts == [a, "x.py"] && files[1].parts == [b, "y.py"];
    assert PackageOf(files[0]) == a && PackageOf(files[1]) == b;
    assert Dirs(files[0]) == [a];
    assert s in files[0].statements && Import([PREFIX + a]) in files[1].statements;
    BackToFirst(a, b, s);
    forall q ensures !LeadsTo(a, Collected(files[0].statements), q) {}
  }

  lemma BackToFirst(a: string, b: string, s: Statement)
    requires Plain(a)
    ensures Refers(Pair(a, b, s), Dirs(Pair(a, b, s)[1]), Import([PREFIX + a]), a)
  {
    hide TargetOf;
    var files := Pair(a, b, s);
    TargetIsFirstPart(a, "");
    assert |files[0].parts| > 1 && files[0].parts[0] == a;
    assert Directory(files, a);
    assert NamesModule(files, PREFIX + a, a);
    assert PREFIX + a in [PREFIX + a];
  }

  /** `from servicemind import b`, `from ..b import names` and `from .. import b`. */
  function Missed(b: string, names: seq<string>): seq<Statement> {
    [ImportFrom(0, Some(PRODUCT), [b]), ImportFrom(2, Some(b), names), ImportFrom(2, None, [b])]
  }

  /** All three lead from the package `a` to `b` and leave nothing of the product package behind. */
  lemma MissedSpellings(files: seq<SourceFile>, a: string, b: string, names: seq<string>, s: Statement)
    requires Plain(b) && b != "" && Directory(files, b) && s in Missed(b, names)
    ensures Refers(files, [a], s, b) && forall n :: n in NamesOf(s) ==> !Internal(n)
  {
    hide Directory;
    PlainTarget(b, "");
    assert b in [b] && FromProduct(files, [b], b);
    assert PREFIX[|PREFIX| - 1] == '.' && !Internal(b);
    assert !TopModule(files, b);
  }
}
