/**
 The resumable two-phase experiment: observe the dev rows, freeze a threshold,
 observe the test rows, publish. A step is one effect of the stage loop; a crash
 may come between any two and loses everything but the two files.
 */
module Experiment {
  import opened Options
  import Orders
  import opened Routing

  /** The frozen inputs. */
  datatype Config = Config(cases: seq<Row>, guard: seq<Row>, grid: seq<real>)

  datatype Status = Running | Stopped | Completed

  datatype Report = Report(status: Status, rows: seq<Row>, served: Option<string>)

  /** The selection file; the digest of the dev rows is modelled by the rows themselves. */
  datatype Selection = Selection(threshold: real, devRows: seq<Row>)

  datatype Disk = Disk(report: Option<Report>, selection: Option<Selection>)

  /** A running process: its rows, where its loop stands, and whether a save is due. */
  datatype Process =
    | Dead
    | Live(rows: seq<Row>, served: Option<string>, phase: Split, pos: nat, due: bool, selection: Option<Selection>)

  datatype State = State(disk: Disk, process: Process)

  datatype Action =
    | Start(rules: seq<Rule>)
    | Skip
    | Observe(decision: Decision, attempts: nat)
    | Save
    | Halt(paid: Option<(Decision, nat)>)
    | Freeze
    | Complete
    | Crash

  /** The frozen set: distinct ids and nothing observed yet. */
  ghost predicate ValidConfig(c: Config) {
    && (forall i, j :: 0 <= i < j < |c.cases| ==> c.cases[i].id != c.cases[j].id)
    && (forall i :: 0 <= i < |c.cases| ==> Blank(c.cases[i]))
  }

  predicate Blank(row: Row) {
    row.jev.None? && row.hybrid.None? && !row.observed && row.attempts == 0
  }

  function OfSplit(rows: seq<Row>, split: Split): seq<Row> {
    if rows == [] then []
    else OfSplit(rows[..|rows| - 1], split) + if rows[|rows| - 1].split == split then [rows[|rows| - 1]] else []
  }

  function Ids(rows: seq<Row>): set<string> {
    set r | r in rows :: r.id
  }

  /** The check `load_checkpoint` makes before it trusts a report. */
  predicate Covers(rows: seq<Row>, cases: seq<Row>) {
    |rows| == |cases| && Ids(rows) == Ids(cases)
  }

  /** The row of a report with a given id. */
  function Find(rows: seq<Row>, id: string): Row
    requires id in Ids(rows)
  {
    if rows[|rows| - 1].id == id then rows[|rows| - 1] else Find(rows[..|rows| - 1], id)
  }

  /** What a restart makes of one case and its checkpointed row. */
  function Restored(blank: Row, rule: Rule, saved: Option<Row>): Row {
    match saved
    case None => blank.(rule := rule)
    case Some(row) =>
      if row.jev.Some? then blank.(rule := row.rule, jev := row.jev, observed := true, attempts := row.attempts)
      else blank.(rule := row.rule)
  }

  function SavedRow(disk: Disk, id: string): Option<Row>
    requires disk.report.Some? ==> id in Ids(disk.report.value.rows)
  {
    if disk.report.None? then None else Some(Find(disk.report.value.rows, id))
  }

  predicate Startable(c: Config, disk: Disk, rules: seq<Rule>) {
    && |rules| == |c.cases|
    && (disk.report.Some? ==>
          && disk.report.value.status != Completed
          && Covers(disk.report.value.rows, c.cases)
          && forall i :: 0 <= i < |c.cases| && c.cases[i].id in Ids(disk.report.value.rows) ==>
               Find(disk.report.value.rows, c.cases[i].id).rule.route == rules[i].route)
  }

  function RestoredRows(c: Config, disk: Disk, rules: seq<Rule>): (rows: seq<Row>)
    requires Startable(c, disk, rules)
    ensures |rows| == |c.cases|
    ensures forall i :: 0 <= i < |rows| ==>
              (disk.report.Some? ==> c.cases[i].id in Ids(disk.report.value.rows))
              && rows[i] == Restored(c.cases[i], rules[i], SavedRow(disk, c.cases[i].id))
  {
    seq(|c.cases|, i requires 0 <= i < |c.cases| =>
      assert c.cases[i].id in Ids(c.cases);
      Restored(c.cases[i], rules[i], SavedRow(disk, c.cases[i].id)))
  }

  /** A checkpoint follows every tenth row of the split and its last one. */
  predicate CheckpointDue(rows: seq<Row>, phase: Split, pos: nat)
    requires pos < |rows|
  {
    var index := |OfSplit(rows[..pos + 1], phase)|;
    index % 10 == 0 || index == |OfSplit(rows, phase)|
  }

  function PlacesOf(rows: seq<Row>, split: Split): set<int> {
    set i | 0 <= i < |rows| && rows[i].split == split
  }

  lemma {:induction false} OfSplitCounts(rows: seq<Row>, split: Split)
    ensures |OfSplit(rows, split)| == |PlacesOf(rows, split)|
  {
    if rows == [] {
      assert PlacesOf(rows, split) == {};
    } else {
      OfSplitCounts(rows[..|rows| - 1], split);
      PlacesGrow(rows, split);
      hide PlacesOf;
    }
  }

  lemma PlacesGrow(rows: seq<Row>, split: Split)
    requires rows != []
    ensures var n := |rows| - 1;
            |PlacesOf(rows, split)| == |PlacesOf(rows[..n], split)| + if rows[n].split == split then 1 else 0
  {
    var n := |rows| - 1;
    var front, all := PlacesOf(rows[..n], split), PlacesOf(rows, split);
    forall i ensures i in all <==> i in front || (i == n && rows[n].split == split) {}
    assert all == if rows[n].split == split then front + {n} else front;
  }

  /** A report is saved after a row exactly if the split's rows up to it are a multiple of ten, or none follows. */
  lemma CheckpointDueIff(rows: seq<Row>, phase: Split, pos: nat)
    requires pos < |rows|
    ensures CheckpointDue(rows, phase, pos) <==>
      |set i | 0 <= i <= pos && rows[i].split == phase| % 10 == 0
      || forall k :: pos < k < |rows| ==> rows[k].split != phase
  {
    hide OfSplit;
    var upTo := rows[..pos + 1];
    OfSplitCounts(upTo, phase);
    OfSplitCounts(rows, phase);
    assert PlacesOf(upTo, phase) == set i | 0 <= i <= pos && rows[i].split == phase;
    assert PlacesOf(upTo, phase) <= PlacesOf(rows, phase);
    Orders.SubsetSize(PlacesOf(upTo, phase), PlacesOf(rows, phase));
    if k :| pos < k < |rows| && rows[k].split == phase {
      assert k in PlacesOf(rows, phase) && k !in PlacesOf(upTo, phase);
    } else {
      assert PlacesOf(rows, phase) == PlacesOf(upTo, phase);
    }
  }

  predicate Enabled(c: Config, s: State, a: Action) {
    var p := s.process;
    match a
    case Start(rules) => p.Dead? && Startable(c, s.disk, rules)
    case Skip => p.Live? && !p.due && p.pos < |p.rows| && (p.rows[p.pos].split != p.phase || p.rows[p.pos].observed)
    case Observe(d, _) => AtCall(p) && (p.served.None? || p.served.value == d.servedModel)
    case Save => p.Live? && p.due
    case Halt(paid) => AtCall(p) && (paid.Some? ==> p.served.Some? && p.served.value != paid.value.0.servedModel)
    case Freeze =>
      p.Live? && !p.due && p.pos == |p.rows| && p.phase == Dev
      && if s.disk.selection.Some? then s.disk.selection.value.devRows == OfSplit(p.rows, Dev)
         else Select(OfSplit(p.rows, Dev), c.guard, c.grid).Some?
    case Complete =>
      p.Live? && !p.due && p.pos == |p.rows| && p.phase == Test && p.selection.Some?
      && forall r :: r in p.rows ==> r.jev.Some?
    case Crash => p.Live?
  }

  /** The loop stands at an unobserved row of the current split, about to pay for a call. */
  predicate AtCall(p: Process) {
    p.Live? && !p.due && p.pos < |p.rows| && p.rows[p.pos].split == p.phase && !p.rows[p.pos].observed
  }

  function Next(c: Config, s: State, a: Action): State
    requires Enabled(c, s, a)
  {
    var p := s.process;
    match a
    case Start(rules) =>
      var served := if s.disk.report.Some? then s.disk.report.value.served else None;
      s.(process := Live(RestoredRows(c, s.disk, rules), served, Dev, 0, false, None))
    case Skip => s.(process := p.(pos := p.pos + 1))
    case Observe(d, n) =>
      var rows := p.rows[p.pos := p.rows[p.pos].(jev := Some(d), attempts := n, observed := true)];
      var due := CheckpointDue(p.rows, p.phase, p.pos);
      s.(process := p.(rows := rows, served := Some(d.servedModel), due := due, pos := p.pos + 1))
    case Save =>
      State(s.disk.(report := Some(Report(Running, p.rows, p.served))), p.(due := false))
    case Halt(paid) =>
      var rows := if paid.None? then p.rows
                  else p.rows[p.pos := p.rows[p.pos].(jev := Some(paid.value.0), attempts := paid.value.1)];
      State(s.disk.(report := Some(Report(Stopped, rows, p.served))), Dead)
    case Freeze =>
      var dev := OfSplit(p.rows, Dev);
      var selection := if s.disk.selection.Some? then s.disk.selection.value
                       else Selection(Select(dev, c.guard, c.grid).value.threshold, dev);
      State(s.disk.(selection := Some(selection)), p.(phase := Test, pos := 0, selection := Some(selection)))
    case Complete =>
      State(s.disk.(report := Some(Report(Completed, WithHybrid(p.rows, p.selection.value.threshold), p.served))), Dead)
    case Crash => s.(process := Dead)
  }

  function WithHybrid(rows: seq<Row>, threshold: real): (r: seq<Row>)
    ensures |r| == |rows| && forall i :: 0 <= i < |rows| ==>
              r[i] == rows[i].(hybrid := Some(HybridOf(rows[i], threshold)))
  {
    seq(|rows|, i requires 0 <= i < |rows| => rows[i].(hybrid := Some(HybridOf(rows[i], threshold))))
  }

  ghost predicate Reaches(c: Config, s: State, actions: seq<Action>, t: State)
    decreases |actions|
  {
    if actions == [] then s == t
    else Enabled(c, s, actions[0]) && Reaches(c, Next(c, s, actions[0]), actions[1..], t)
  }

  const INITIAL := State(Disk(None, None), Dead)

  // What every step keeps.

  /** The rows of a case set, whatever has been observed on them. */
  ghost predicate RowsFor(c: Config, rows: seq<Row>) {
    |rows| == |c.cases|
    && forall i :: 0 <= i < |rows| ==>
         rows[i].id == c.cases[i].id && rows[i].split == c.cases[i].split && rows[i].expected == c.cases[i].expected
  }

  /** A row as a restart would read it back. */
  function Reread(row: Row): Row {
    row.(hybrid := None, observed := row.jev.Some?, attempts := if row.jev.Some? then row.attempts else 0)
  }

  ghost predicate InMemory(rows: seq<Row>) {
    forall i :: 0 <= i < |rows| ==> rows[i] == Reread(rows[i])
  }

  /** Within a split, rows are observed in order. */
  ghost predicate Prefix(rows: seq<Row>) {
    forall i, j :: 0 <= i < j < |rows| && rows[i].split == rows[j].split && rows[j].jev.Some? ==> rows[i].jev.Some?
  }

  ghost predicate NoTestRow(rows: seq<Row>) {
    forall i :: 0 <= i < |rows| && rows[i].split == Test ==> rows[i].jev.None?
  }

  /** Memory agrees with what a restart would now read. */
  ghost predicate Clean(disk: Disk, rows: seq<Row>) {
    if disk.report.None? then forall i :: 0 <= i < |rows| ==> rows[i].jev.None?
    else |disk.report.value.rows| == |rows|
         && forall i :: 0 <= i < |rows| ==> rows[i] == Reread(disk.report.value.rows[i])
  }

  /** The loop cannot leave the current split yet. */
  ghost predicate Pending(p: Process)
    requires p.Live?
  {
    p.due || exists k :: p.pos <= k < |p.rows| && p.rows[k].split == p.phase && p.rows[k].jev.None?
  }

  ghost predicate FrozenDev(c: Config, selection: Selection) {
    && Select(selection.devRows, c.guard, c.grid).Some?
    && selection.threshold == Select(selection.devRows, c.guard, c.grid).value.threshold
    && forall r :: r in selection.devRows ==> r.jev.Some? && r.split == Dev
  }

  ghost predicate DevMatches(rows: seq<Row>, selection: Selection) {
    |OfSplit(rows, Dev)| == |selection.devRows|
    && forall i :: 0 <= i < |selection.devRows| ==> Reread(OfSplit(rows, Dev)[i]) == selection.devRows[i]
  }

  ghost predicate DiskInv(c: Config, disk: Disk) {
    && (disk.report.Some? ==>
          && RowsFor(c, disk.report.value.rows)
          && Prefix(disk.report.value.rows)
          && (disk.selection.None? ==> NoTestRow(disk.report.value.rows) && disk.report.value.status != Completed))
    && (disk.selection.Some? ==>
          && FrozenDev(c, disk.selection.value)
          && disk.report.Some? && DevMatches(disk.report.value.rows, disk.selection.value))
    && (disk.report.Some? && disk.report.value.status == Completed ==>
          disk.selection.Some? && Published(disk.report.value.rows, disk.selection.value.threshold))
  }

  ghost predicate Published(rows: seq<Row>, threshold: real) {
    forall r :: r in rows ==>
      r.jev.Some? && r.hybrid == Some(HybridOf(r, threshold)) && Reread(r) == r.(hybrid := None)
  }

  ghost predicate LiveInv(c: Config, disk: Disk, p: Process)
    requires p.Live?
  {
    && RowsFor(c, p.rows) && InMemory(p.rows) && Prefix(p.rows)
    && p.pos <= |p.rows|
    && (disk.report.Some? ==> disk.report.value.status != Completed)
    && (p.phase == Test ==> p.selection.Some? && p.selection == disk.selection)
    && (disk.selection.None? ==> NoTestRow(p.rows))
    && (disk.selection.Some? ==> DevMatches(p.rows, disk.selection.value))
    && (forall k :: 0 <= k < p.pos && p.rows[k].split == p.phase ==> p.rows[k].jev.Some?)
    && (p.phase == Test ==> forall k :: 0 <= k < |p.rows| && p.rows[k].split == Dev ==> p.rows[k].jev.Some?)
    && (Clean(disk, p.rows) || Pending(p))
  }

  ghost predicate Inv(c: Config, s: State) {
    DiskInv(c, s.disk) && (s.process.Live? ==> LiveInv(c, s.disk, s.process))
  }

  lemma {:induction false} OfSplitMembers(rows: seq<Row>, split: Split)
    ensures forall r :: r in OfSplit(rows, split) <==> r in rows && r.split == split
  {
    if rows != [] {
      OfSplitMembers(rows[..|rows| - 1], split);
      assert rows == rows[..|rows| - 1] + [rows[|rows| - 1]];
    }
  }

  /** Rereading row by row rereads each split row by row. */
  lemma {:induction false} OfSplitReread(a: seq<Row>, b: seq<Row>, split: Split)
    requires |a| == |b| && forall i :: 0 <= i < |a| ==> Reread(b[i]) == Reread(a[i]) && b[i].split == a[i].split
    ensures |OfSplit(a, split)| == |OfSplit(b, split)|
    ensures forall i :: 0 <= i < |OfSplit(a, split)| ==> Reread(OfSplit(b, split)[i]) == Reread(OfSplit(a, split)[i])
  {
    if a != [] { OfSplitReread(a[..|a| - 1], b[..|b| - 1], split); }
  }

  lemma {:induction false} OfSplitOther(rows: seq<Row>, pos: nat, row: Row, split: Split)
    requires pos < |rows| && rows[pos].split == row.split != split
    ensures OfSplit(rows[pos := row], split) == OfSplit(rows, split)
  {
    var last := |rows| - 1;
    if pos < last {
      OfSplitOther(rows[..last], pos, row, split);
      assert rows[pos := row][..last] == rows[..last][pos := row];
    } else {
      assert rows[pos := row][..last] == rows[..last];
    }
  }

  lemma {:induction false} LaterRow(rows: seq<Row>, n: nat, split: Split)
    requires n <= |rows| && |OfSplit(rows[..n], split)| != |OfSplit(rows, split)|
    ensures exists k :: n <= k < |rows| && rows[k].split == split
  {
    assert rows[..|rows|] == rows;
    if n < |rows| {
      var last := |rows| - 1;
      if rows[last].split != split {
        assert rows[..last][..n] == rows[..n];
        LaterRow(rows[..last], n, split);
      }
    }
  }

  lemma {:induction false} FindRow(rows: seq<Row>, k: nat)
    requires k < |rows|
    requires forall i, j :: 0 <= i < j < |rows| ==> rows[i].id != rows[j].id
    ensures rows[k].id in Ids(rows) && Find(rows, rows[k].id) == rows[k]
  {
    var last := |rows| - 1;
    if k < last { FindRow(rows[..last], k); }
  }

  /** Row `k` is the last with this id, the one a dictionary by id keeps. */
  ghost predicate LastWithId(rows: seq<Row>, id: string, k: int) {
    0 <= k < |rows| && rows[k].id == id && forall j :: k < j < |rows| ==> rows[j].id != id
  }

  lemma {:induction false} FindIsLast(rows: seq<Row>, id: string) returns (k: nat)
    requires id in Ids(rows)
    ensures LastWithId(rows, id, k) && Find(rows, id) == rows[k]
  {
    k := |rows| - 1;
    if rows[k].id != id {
      k := FindIsLast(rows[..k], id);
    }
  }

  ghost predicate RoutesAgree(rows: seq<Row>, cases: seq<Row>, rules: seq<Rule>)
    requires |rules| == |cases|
  {
    forall i, k :: 0 <= i < |cases| && LastWithId(rows, cases[i].id, k) ==> rows[k].rule.route == rules[i].route
  }

  /** Every row is of some case, and every case has a row. */
  ghost predicate SameCases(rows: seq<Row>, cases: seq<Row>) {
    (forall r :: r in rows ==> exists q :: q in cases && q.id == r.id)
    && forall q :: q in cases ==> exists r :: r in rows && r.id == q.id
  }

  /**
   What a restart accepts, for any files: no report, or one that is not complete, has as many rows as
   there are cases and their ids, and under each id last the route that the rules give now.
   */
  lemma StartableIff(c: Config, disk: Disk, rules: seq<Rule>)
    requires |rules| == |c.cases|
    ensures Startable(c, disk, rules) <==>
      (disk.report.Some? ==>
         && disk.report.value.status != Completed
         && |disk.report.value.rows| == |c.cases|
         && SameCases(disk.report.value.rows, c.cases)
         && RoutesAgree(disk.report.value.rows, c.cases, rules))
  {
    hide SameCases, RoutesAgree, Find, Ids;
    if disk.report.Some? {
      SameIds(disk.report.value.rows, c.cases);
      FindsAgree(disk.report.value.rows, c.cases, rules);
    }
  }

  lemma FindsAgree(rows: seq<Row>, cases: seq<Row>, rules: seq<Rule>)
    requires |rules| == |cases|
    ensures RoutesAgree(rows, cases, rules) <==>
      forall i :: 0 <= i < |cases| && cases[i].id in Ids(rows) ==> Find(rows, cases[i].id).rule.route == rules[i].route
  {
    hide Find, Ids;
    forall i, k | 0 <= i < |cases| && LastWithId(rows, cases[i].id, k)
      ensures cases[i].id in Ids(rows) && Find(rows, cases[i].id) == rows[k]
    {
      LastIsFound(rows, cases[i].id, k);
    }
    forall i | 0 <= i < |cases| && cases[i].id in Ids(rows)
      ensures exists k :: LastWithId(rows, cases[i].id, k) && Find(rows, cases[i].id) == rows[k]
    {
      var k := FindIsLast(rows, cases[i].id);
    }
  }

  lemma LastIsFound(rows: seq<Row>, id: string, k: int)
    requires LastWithId(rows, id, k)
    ensures id in Ids(rows) && Find(rows, id) == rows[k]
  {
    hide Find;
    assert rows[k] in rows;
    var l := FindIsLast(rows, id);
    assert l == k;
  }

  lemma SameIds(rows: seq<Row>, cases: seq<Row>)
    ensures Ids(rows) == Ids(cases) <==> SameCases(rows, cases)
  {
    if Ids(rows) == Ids(cases) {
      assert forall r :: r in rows ==> r.id in Ids(cases);
      assert forall q :: q in cases ==> q.id in Ids(rows);
    }
  }

  /** A restart rebuilds exactly the reread checkpoint. */
  lemma RestoreRereads(c: Config, disk: Disk, rules: seq<Rule>, i: nat)
    requires ValidConfig(c) && DiskInv(c, disk) && Startable(c, disk, rules) && i < |c.cases|
    ensures var row := RestoredRows(c, disk, rules)[i];
            row == Reread(row) && row.id == c.cases[i].id && row.split == c.cases[i].split
            && row.expected == c.cases[i].expected
            && (disk.report.None? ==> row.jev.None?)
            && (disk.report.Some? ==> row == Reread(disk.report.value.rows[i]))
  {
    assert Blank(c.cases[i]);
    if disk.report.Some? {
      FindRow(disk.report.value.rows, i);
    }
  }

  /** Memory that agrees with the file agrees with the frozen rows as the file does. */
  lemma DevMatchesMemory(disk: Disk, rows: seq<Row>)
    requires disk.report.Some? && Clean(disk, rows) && disk.selection.Some?
    requires DevMatches(disk.report.value.rows, disk.selection.value)
    ensures DevMatches(rows, disk.selection.value)
  {
    forall i | 0 <= i < |rows| ensures Reread(rows[i]) == Reread(disk.report.value.rows[i]) {}
    OfSplitReread(disk.report.value.rows, rows, Dev);
  }

  lemma StartKeepsInv(c: Config, s: State, a: Action)
    requires ValidConfig(c) && Inv(c, s) && a.Start? && Enabled(c, s, a)
    ensures Inv(c, Next(c, s, a))
  {
    var rows := RestoredRows(c, s.disk, a.rules);
    forall i | 0 <= i < |rows|
      ensures rows[i] == Reread(rows[i]) && rows[i].id == c.cases[i].id && rows[i].split == c.cases[i].split
      ensures rows[i].expected == c.cases[i].expected
      ensures s.disk.report.None? ==> rows[i].jev.None?
      ensures s.disk.report.Some? ==> rows[i] == Reread(s.disk.report.value.rows[i])
    {
      RestoreRereads(c, s.disk, a.rules, i);
    }
    if s.disk.selection.Some? { DevMatchesMemory(s.disk, rows); }
  }

  /** Once a threshold is frozen every dev row in memory is observed. */
  lemma FrozenMeansObserved(c: Config, disk: Disk, rows: seq<Row>, k: nat)
    requires disk.selection.Some? && FrozenDev(c, disk.selection.value) && DevMatches(rows, disk.selection.value)
    requires k < |rows| && rows[k].split == Dev
    ensures rows[k].jev.Some?
  {
    OfSplitMembers(rows, Dev);
    assert rows[k] in OfSplit(rows, Dev);
    var i :| 0 <= i < |OfSplit(rows, Dev)| && OfSplit(rows, Dev)[i] == rows[k];
    assert disk.selection.value.devRows[i] in disk.selection.value.devRows;
  }

  /** Paid calls in the dev phase come before the freeze, in the test phase after it. */
  lemma CallMatchesPhase(c: Config, s: State)
    requires Inv(c, s) && AtCall(s.process)
    ensures s.process.phase == Test <==> s.disk.selection.Some?
    ensures s.process.rows[s.process.pos].jev.None?
  {
    var p := s.process;
    assert p.rows[p.pos] == Reread(p.rows[p.pos]);
    if p.phase == Dev && s.disk.selection.Some? {
      FrozenMeansObserved(c, s.disk, p.rows, p.pos);
    }
  }

  /** Writing a decision on the row at hand. */
  lemma WriteKeeps(c: Config, s: State, row: Row)
    requires Inv(c, s) && AtCall(s.process) && row.jev.Some?
    requires var was := s.process.rows[s.process.pos];
             row.id == was.id && row.split == was.split && row.expected == was.expected
    ensures var rows := s.process.rows[s.process.pos := row];
            RowsFor(c, rows) && Prefix(rows)
            && (s.disk.selection.None? ==> NoTestRow(rows))
            && (s.disk.selection.Some? ==> DevMatches(rows, s.disk.selection.value))
  {
    hide Published, FrozenDev, Clean, Pending, InMemory, OfSplit, Reread;
    var p := s.process;
    CallMatchesPhase(c, s);
    if s.disk.selection.Some? { OfSplitOther(p.rows, p.pos, row, Dev); }
  }

  /** A row that is not the last of its split leaves a later one still unobserved. */
  lemma MoreToCome(c: Config, s: State)
    requires Inv(c, s) && AtCall(s.process) && !CheckpointDue(s.process.rows, s.process.phase, s.process.pos)
    ensures exists k :: s.process.pos < k < |s.process.rows| && s.process.rows[k].split == s.process.phase
              && s.process.rows[k].jev.None?
  {
    var p := s.process;
    CallMatchesPhase(c, s);
    LaterRow(p.rows, p.pos + 1, p.phase);
    var k :| p.pos + 1 <= k < |p.rows| && p.rows[k].split == p.phase;
    assert p.rows[k].jev.None?;
  }

  lemma ObserveKeepsInv(c: Config, s: State, a: Action)
    requires Inv(c, s) && a.Observe? && Enabled(c, s, a)
    ensures Inv(c, Next(c, s, a))
  {
    hide Prefix, DevMatches, Published, RowsFor, FrozenDev, NoTestRow, Clean, CheckpointDue, OfSplit;
    var p, t := s.process, Next(c, s, a);
    WriteKeeps(c, s, t.process.rows[p.pos]);
    CallMatchesPhase(c, s);
    if !t.process.due {
      MoreToCome(c, s);
      var k :| p.pos < k < |p.rows| && p.rows[k].split == p.phase && p.rows[k].jev.None?;
      assert t.process.rows[k] == p.rows[k];
    }
  }

  lemma HaltKeepsInv(c: Config, s: State, a: Action)
    requires Inv(c, s) && a.Halt? && Enabled(c, s, a)
    ensures Inv(c, Next(c, s, a))
  {
    var p := s.process;
    if a.paid.Some? {
      WriteKeeps(c, s, p.rows[p.pos].(jev := Some(a.paid.value.0), attempts := a.paid.value.1));
    }
    CallMatchesPhase(c, s);
  }

  lemma NotPendingIsClean(c: Config, s: State)
    requires Inv(c, s) && s.process.Live? && !s.process.due && s.process.pos == |s.process.rows|
    ensures Clean(s.disk, s.process.rows)
  {
  }

  lemma InMemorySplit(rows: seq<Row>, split: Split)
    requires InMemory(rows)
    ensures forall i :: 0 <= i < |OfSplit(rows, split)| ==> Reread(OfSplit(rows, split)[i]) == OfSplit(rows, split)[i]
  {
    OfSplitMembers(rows, split);
    forall i | 0 <= i < |OfSplit(rows, split)| ensures Reread(OfSplit(rows, split)[i]) == OfSplit(rows, split)[i] {
      assert OfSplit(rows, split)[i] in rows;
    }
  }

  /** The loop has reached the end of a split. */
  predicate AtEnd(p: Process, phase: Split) {
    p.Live? && !p.due && p.pos == |p.rows| && p.phase == phase
  }

  /** At the end of the dev split every dev row is observed. */
  lemma DevIsObserved(c: Config, s: State)
    requires Inv(c, s) && AtEnd(s.process, Dev)
    ensures forall r :: r in OfSplit(s.process.rows, Dev) ==> r.jev.Some? && r.split == Dev
    ensures forall k :: 0 <= k < |s.process.rows| && s.process.rows[k].split == Dev ==> s.process.rows[k].jev.Some?
  {
    hide DiskInv, RowsFor, InMemory, Prefix, Clean, DevMatches;
    OfSplitMembers(s.process.rows, Dev);
  }

  /** Rows that agree with the report freeze to a selection that the report's rows agree with. */
  lemma FreshSelectionMatches(disk: Disk, rows: seq<Row>, threshold: real)
    requires Clean(disk, rows) && InMemory(rows) && disk.report.Some?
    ensures DevMatches(rows, Selection(threshold, OfSplit(rows, Dev)))
    ensures DevMatches(disk.report.value.rows, Selection(threshold, OfSplit(rows, Dev)))
  {
    var saved := disk.report.value.rows;
    InMemorySplit(rows, Dev);
    forall i | 0 <= i < |rows| ensures Reread(rows[i]) == Reread(saved[i]) {}
    OfSplitReread(saved, rows, Dev);
  }

  /** Selection needs dev rows, and they are observed, so there is a report. */
  lemma SelectedIsSaved(c: Config, disk: Disk, rows: seq<Row>)
    requires Clean(disk, rows) && Select(OfSplit(rows, Dev), c.guard, c.grid).Some?
    requires forall r :: r in OfSplit(rows, Dev) ==> r.jev.Some?
    ensures disk.report.Some?
  {
    var dev := OfSplit(rows, Dev);
    OfSplitMembers(rows, Dev);
    assert dev != [] && dev[0] in dev;
    assert dev[0] in rows;
  }

  lemma FreezeKeepsInv(c: Config, s: State, a: Action)
    requires Inv(c, s) && a.Freeze? && Enabled(c, s, a)
    ensures Inv(c, Next(c, s, a))
  {
    hide Clean, DevMatches, OfSplit, Select, RowsFor, InMemory, Prefix, Published;
    var p := s.process;
    NotPendingIsClean(c, s);
    DevIsObserved(c, s);
    if s.disk.selection.None? {
      SelectedIsSaved(c, s.disk, p.rows);
      FreshSelectionMatches(s.disk, p.rows, Select(OfSplit(p.rows, Dev), c.guard, c.grid).value.threshold);
    }
    hide Pending, Reread, CheckpointDue;
    CleanIgnoresSelection(s.disk, Next(c, s, a).disk, p.rows);
  }

  lemma CleanIgnoresSelection(before: Disk, after: Disk, rows: seq<Row>)
    requires Clean(before, rows) && after.report == before.report
    ensures Clean(after, rows)
  {
  }

  /** Drawing the hybrid column changes nothing a restart or the frozen digest looks at. */
  lemma HybridColumn(c: Config, rows: seq<Row>, selection: Selection)
    requires RowsFor(c, rows) && InMemory(rows) && Prefix(rows) && DevMatches(rows, selection)
    requires forall r :: r in rows ==> r.jev.Some?
    ensures var published := WithHybrid(rows, selection.threshold);
            RowsFor(c, published) && Prefix(published) && DevMatches(published, selection)
            && Published(published, selection.threshold)
  {
    var published := WithHybrid(rows, selection.threshold);
    forall i | 0 <= i < |rows|
      ensures Reread(published[i]) == Reread(rows[i]) && published[i].split == rows[i].split
      ensures published[i].jev.Some? && Reread(published[i]) == published[i].(hybrid := None)
      ensures HybridOf(published[i], selection.threshold) == HybridOf(rows[i], selection.threshold)
    {
      assert rows[i] in rows;
    }
    OfSplitReread(rows, published, Dev);
  }

  lemma CompleteKeepsInv(c: Config, s: State, a: Action)
    requires Inv(c, s) && a.Complete? && Enabled(c, s, a)
    ensures Inv(c, Next(c, s, a))
  {
    hide Prefix, DevMatches, Published, RowsFor, FrozenDev, InMemory, WithHybrid, Clean;
    HybridColumn(c, s.process.rows, s.process.selection.value);
  }

  lemma SkipKeepsInv(c: Config, s: State, a: Action)
    requires Inv(c, s) && a.Skip? && Enabled(c, s, a)
    ensures Inv(c, Next(c, s, a))
  {
    hide Prefix, DevMatches, Published, RowsFor, FrozenDev, Clean, NoTestRow;
    var p := s.process;
    assert p.rows[p.pos] == Reread(p.rows[p.pos]);
  }

  lemma SaveKeepsInv(c: Config, s: State, a: Action)
    requires Inv(c, s) && a.Save? && Enabled(c, s, a)
    ensures Inv(c, Next(c, s, a))
  {
    hide Prefix, DevMatches, Published, RowsFor, FrozenDev, NoTestRow, Reread;
  }

  lemma StepKeepsInv(c: Config, s: State, a: Action)
    requires ValidConfig(c) && Inv(c, s) && Enabled(c, s, a)
    ensures Inv(c, Next(c, s, a))
  {
    hide Enabled, DiskInv, LiveInv, ValidConfig;
    match a
    case Start(_) => StartKeepsInv(c, s, a);
    case Observe(_, _) => ObserveKeepsInv(c, s, a);
    case Halt(_) => HaltKeepsInv(c, s, a);
    case Freeze => FreezeKeepsInv(c, s, a);
    case Complete => CompleteKeepsInv(c, s, a);
    case Skip => SkipKeepsInv(c, s, a);
    case Save => SaveKeepsInv(c, s, a);
    case Crash =>
  }

  // What holds over every run.

  lemma {:induction false} RunKeepsInv(c: Config, s: State, actions: seq<Action>, t: State)
    requires ValidConfig(c) && Inv(c, s) && Reaches(c, s, actions, t)
    ensures Inv(c, t)
    decreases |actions|
  {
    hide Inv;
    if actions != [] {
      StepKeepsInv(c, s, actions[0]);
      RunKeepsInv(c, Next(c, s, actions[0]), actions[1..], t);
    }
  }

  /**
   Over every sequence of observations, saves, crashes and restarts: a call is paid
   for a test row only when the threshold file exists, and until then no test row
   carries a decision anywhere, in memory or in the checkpoint.
   */
  lemma NoTestRowBeforeThreshold(c: Config, actions: seq<Action>, t: State)
    requires ValidConfig(c) && Reaches(c, INITIAL, actions, t)
    ensures AtCall(t.process) && t.process.rows[t.process.pos].split == Test ==> t.disk.selection.Some?
    ensures t.disk.selection.None? && t.disk.report.Some? ==> NoTestRow(t.disk.report.value.rows)
    ensures t.disk.selection.None? && t.process.Live? ==> NoTestRow(t.process.rows)
  {
    RunKeepsInv(c, INITIAL, actions, t);
  }

  /** The frozen selection is the same in every later state. */
  lemma {:induction false} ThresholdNeverChanges(c: Config, s: State, actions: seq<Action>, t: State)
    requires Reaches(c, s, actions, t) && s.disk.selection.Some?
    ensures t.disk.selection == s.disk.selection
    decreases |actions|
  {
    if actions != [] { ThresholdNeverChanges(c, Next(c, s, actions[0]), actions[1..], t); }
  }

  function ClearHybrid(rows: seq<Row>): (r: seq<Row>)
    ensures |r| == |rows| && forall i :: 0 <= i < |rows| ==> r[i] == rows[i].(hybrid := None)
  {
    seq(|rows|, i requires 0 <= i < |rows| => rows[i].(hybrid := None))
  }

  /**
   A completed report holds every case observed, its hybrid column is drawn at the
   frozen threshold, and that threshold is what selection computes from exactly the
   report's own dev rows.
   */
  lemma CompletedReportIsHonest(c: Config, actions: seq<Action>, t: State)
    requires ValidConfig(c) && Reaches(c, INITIAL, actions, t)
    requires t.disk.report.Some? && t.disk.report.value.status == Completed
    ensures t.disk.selection.Some? && RowsFor(c, t.disk.report.value.rows)
    ensures var rows, threshold := t.disk.report.value.rows, t.disk.selection.value.threshold;
            var chosen := Select(OfSplit(ClearHybrid(rows), Dev), c.guard, c.grid);
            chosen.Some? && threshold == chosen.value.threshold
            && forall r :: r in rows ==>
                 && r.jev.Some?
                 && r.hybrid == Some(if r.jev.value.confidence >= threshold
                                     then Hybrid(r.jev.value.route, FromJev, false)
                                     else Hybrid(r.rule.route, FromRule, false))
  {
    RunKeepsInv(c, INITIAL, actions, t);
    var rows, selection := t.disk.report.value.rows, t.disk.selection.value;
    var cleared := ClearHybrid(rows);
    forall i | 0 <= i < |rows| ensures Reread(cleared[i]) == Reread(rows[i]) && cleared[i] == Reread(cleared[i]) {
      assert rows[i] in rows;
    }
    OfSplitReread(rows, cleared, Dev);
    InMemorySplit(cleared, Dev);
    assert OfSplit(cleared, Dev) == selection.devRows;
  }

  lemma EndsAreEnabled(c: Config, s: State)
    requires Inv(c, s)
    ensures AtEnd(s.process, Dev) && s.disk.selection.Some? ==> Enabled(c, s, Freeze)
    ensures AtEnd(s.process, Test) ==> Enabled(c, s, Complete)
  {
    var p := s.process;
    if AtEnd(p, Dev) {
      InMemorySplit(p.rows, Dev);
    }
    if AtEnd(p, Test) {
      forall r | r in p.rows ensures r.jev.Some? {
        var i :| 0 <= i < |p.rows| && p.rows[i] == r;
      }
    }
  }

  /**
   A restart never finds its dev rows different from the frozen ones, and the final
   validation never fails, whatever crashed before.
   */
  lemma ChecksNeverFail(c: Config, actions: seq<Action>, t: State)
    requires ValidConfig(c) && Reaches(c, INITIAL, actions, t)
    ensures AtEnd(t.process, Dev) && t.disk.selection.Some? ==> Enabled(c, t, Freeze)
    ensures AtEnd(t.process, Test) ==> Enabled(c, t, Complete) && RowsFor(c, t.process.rows)
  {
    RunKeepsInv(c, INITIAL, actions, t);
    EndsAreEnabled(c, t);
  }

  /**
   On files that any run from nothing has left, a new process is refused exactly when the report is
   complete or some rule decision differs from the recorded one: the ids are never at fault.
   */
  lemma RestartRefusedIff(c: Config, actions: seq<Action>, t: State, rules: seq<Rule>)
    requires ValidConfig(c) && Reaches(c, INITIAL, actions, t) && |rules| == |c.cases|
    ensures t.disk.report.Some? ==> |t.disk.report.value.rows| == |c.cases|
    ensures !Startable(c, t.disk, rules) <==>
      t.disk.report.Some?
      && (t.disk.report.value.status == Completed
          || exists i :: 0 <= i < |c.cases| && t.disk.report.value.rows[i].rule.route != rules[i].route)
  {
    hide Select;
    RunKeepsInv(c, INITIAL, actions, t);
    if t.disk.report.Some? {
      var rows := t.disk.report.value.rows;
      forall i | 0 <= i < |rows| ensures c.cases[i].id in Ids(rows) && Find(rows, c.cases[i].id) == rows[i] {
        FindRow(rows, i);
      }
      assert Ids(rows) == Ids(c.cases) by {
        forall x ensures x in Ids(rows) <==> x in Ids(c.cases) {
          if x in Ids(rows) {
            var i :| 0 <= i < |rows| && rows[i].id == x;
            assert c.cases[i] in c.cases;
          }
          if x in Ids(c.cases) {
            var i :| 0 <= i < |c.cases| && c.cases[i].id == x;
            assert rows[i] in rows;
          }
        }
      }
    }
  }

  /** A completed experiment is over: no action is possible, and no later process starts. */
  lemma CompletedIsFinal(c: Config, actions: seq<Action>, t: State, later: seq<Action>, u: State)
    requires ValidConfig(c) && Reaches(c, INITIAL, actions, t) && Reaches(c, t, later, u)
    requires t.disk.report.Some? && t.disk.report.value.status == Completed
    ensures u == t
  {
    RunKeepsInv(c, INITIAL, actions, t);
    assert t.process.Dead?;
    assert forall a :: !Enabled(c, t, a);
  }
}
