/** What a crash of the experiment can cost: never a saved observation, and ten unsaved ones at most. */
module Checkpoints {
  import opened Routing
  import opened Experiment

  const EVERY: nat := 10

  predicate SavedAt(disk: Disk, i: nat) {
    disk.report.Some? && i < |disk.report.value.rows| && disk.report.value.rows[i].jev.Some?
  }

  /** Paid observations in memory that the report does not hold yet, among the first `n` rows. */
  function Unsaved(disk: Disk, rows: seq<Row>, n: nat): (u: nat)
    requires n <= |rows|
    ensures u <= n
  {
    if n == 0 then 0
    else Unsaved(disk, rows, n - 1) + if rows[n - 1].jev.Some? && !SavedAt(disk, n - 1) then 1 else 0
  }

  /** Rows of the current split before the loop's position. */
  function Passed(p: Process): nat
    requires p.Live? && p.pos <= |p.rows|
  {
    |OfSplit(p.rows[..p.pos], p.phase)|
  }

  /** No row of the current split at or after the position has been observed. */
  ghost predicate RestIsOpen(p: Process)
    requires p.Live?
  {
    forall k :: p.pos <= k < |p.rows| && p.rows[k].split == p.phase ==> p.rows[k].jev.None?
  }

  ghost predicate LossInv(s: State) {
    var p := s.process;
    p.Live? ==>
      && p.pos <= |p.rows|
      && Unsaved(s.disk, p.rows, |p.rows|) <= EVERY
      && (!p.due && Unsaved(s.disk, p.rows, |p.rows|) > 0 ==>
            Unsaved(s.disk, p.rows, |p.rows|) <= Passed(p) % EVERY && RestIsOpen(p))
  }

  /** Memory holds every saved decision, unchanged. */
  ghost predicate Holds(disk: Disk, rows: seq<Row>) {
    disk.report.Some? ==>
      && |rows| == |disk.report.value.rows|
      && forall i :: 0 <= i < |rows| && disk.report.value.rows[i].jev.Some? ==>
           rows[i].jev == disk.report.value.rows[i].jev && rows[i].attempts == disk.report.value.rows[i].attempts
  }

  /** Every decision of the earlier report is in the later one, with its decision and attempt count. */
  ghost predicate Keeps(before: Disk, after: Disk) {
    before.report.Some? ==> after.report.Some? && Holds(before, after.report.value.rows)
  }

  ghost predicate Inv(c: Config, s: State) {
    && Experiment.Inv(c, s)
    && LossInv(s)
    && (s.process.Live? ==> Holds(s.disk, s.process.rows))
  }

  lemma {:induction false} NothingUnsaved(disk: Disk, rows: seq<Row>, n: nat)
    requires n <= |rows| && forall i :: 0 <= i < n && rows[i].jev.Some? ==> SavedAt(disk, i)
    ensures Unsaved(disk, rows, n) == 0
  {
    if n > 0 { NothingUnsaved(disk, rows, n - 1); }
  }

  /** One more observation is one more to save. */
  lemma {:induction false} OneMoreUnsaved(disk: Disk, rows: seq<Row>, pos: nat, row: Row, n: nat)
    requires pos < |rows| && n <= |rows| && rows[pos].jev.None? && row.jev.Some? && !SavedAt(disk, pos)
    ensures Unsaved(disk, rows[pos := row], n) == Unsaved(disk, rows, n) + if pos < n then 1 else 0
  {
    if n > 0 { OneMoreUnsaved(disk, rows, pos, row, n - 1); }
  }

  lemma CleanIsSaved(disk: Disk, rows: seq<Row>)
    requires Clean(disk, rows)
    ensures Unsaved(disk, rows, |rows|) == 0 && Holds(disk, rows)
  {
    NothingUnsaved(disk, rows, |rows|);
  }

  lemma StartKeeps(c: Config, s: State, a: Action)
    requires ValidConfig(c) && Inv(c, s) && a.Start? && Enabled(c, s, a)
    ensures LossInv(Next(c, s, a)) && Holds(s.disk, Next(c, s, a).process.rows)
  {
    hide Clean, Holds, Unsaved, RestIsOpen;
    var rows := RestoredRows(c, s.disk, a.rules);
    RestoredIsClean(c, s.disk, a.rules);
    CleanIsSaved(s.disk, rows);
  }

  lemma RestoredIsClean(c: Config, disk: Disk, rules: seq<Rule>)
    requires ValidConfig(c) && DiskInv(c, disk) && Startable(c, disk, rules)
    ensures Clean(disk, RestoredRows(c, disk, rules))
  {
    var rows := RestoredRows(c, disk, rules);
    hide RestoredRows;
    forall i | 0 <= i < |rows|
      ensures disk.report.None? ==> rows[i].jev.None?
      ensures disk.report.Some? ==> rows[i] == Reread(disk.report.value.rows[i])
    {
      RestoreRereads(c, disk, rules, i);
    }
  }

  lemma SkipKeeps(c: Config, s: State)
    requires Inv(c, s) && Enabled(c, s, Skip)
    ensures LossInv(Next(c, s, Skip))
  {
    hide Unsaved, Prefix, DevMatches, Published, RowsFor, FrozenDev, Clean, NoTestRow;
    var p := s.process;
    assert p.rows[..p.pos + 1][..p.pos] == p.rows[..p.pos];
    assert p.rows[p.pos] == Reread(p.rows[p.pos]);
  }

  /** The row about to be paid for is in no report, and after it the split is unobserved. */
  lemma CallIsNew(c: Config, s: State)
    requires Inv(c, s) && AtCall(s.process)
    ensures var p := s.process;
            p.rows[p.pos].jev.None? && !SavedAt(s.disk, p.pos) && RestIsOpen(p)
  {
    hide DevMatches, Published, RowsFor, FrozenDev, Clean, NoTestRow, Pending, LossInv;
    var p := s.process;
    assert p.rows[p.pos] == Reread(p.rows[p.pos]);
  }

  lemma ObserveHolds(c: Config, s: State, a: Action)
    requires Inv(c, s) && a.Observe? && Enabled(c, s, a)
    ensures Holds(s.disk, Next(c, s, a).process.rows)
  {
    hide Experiment.Inv, LossInv, RestIsOpen, CheckpointDue;
    CallIsNew(c, s);
  }

  lemma ObserveCounts(c: Config, s: State, a: Action)
    requires Inv(c, s) && a.Observe? && Enabled(c, s, a)
    ensures var p, q := s.process, Next(c, s, a).process;
            && Unsaved(s.disk, q.rows, |q.rows|) == Unsaved(s.disk, p.rows, |p.rows|) + 1
            && Passed(q) == Passed(p) + 1
            && (!q.due ==> Passed(q) % EVERY != 0)
            && RestIsOpen(p) && RestIsOpen(q)
  {
    hide Experiment.Inv, LossInv, Holds, Unsaved;
    var p, q := s.process, Next(c, s, a).process;
    CallIsNew(c, s);
    OneMoreUnsaved(s.disk, p.rows, p.pos, q.rows[p.pos], |p.rows|);
    PassedNext(p.rows, p.pos, q.rows[p.pos], p.phase);
  }

  lemma ObserveKeeps(c: Config, s: State, a: Action)
    requires Inv(c, s) && a.Observe? && Enabled(c, s, a)
    ensures LossInv(Next(c, s, a)) && Holds(s.disk, Next(c, s, a).process.rows)
  {
    hide Experiment.Inv, Holds, Unsaved, Passed, RestIsOpen, CheckpointDue;
    ObserveHolds(c, s, a);
    ObserveCounts(c, s, a);
  }

  /** Passing a row of the split counts it, whatever is written on it. */
  lemma PassedNext(rows: seq<Row>, pos: nat, row: Row, phase: Split)
    requires pos < |rows| && rows[pos].split == row.split == phase
    ensures |OfSplit(rows[pos := row][..pos + 1], phase)| == |OfSplit(rows[..pos], phase)| + 1
    ensures |OfSplit(rows[..pos + 1], phase)| == |OfSplit(rows[..pos], phase)| + 1
  {
    assert rows[pos := row][..pos + 1][..pos] == rows[..pos];
    assert rows[..pos + 1][..pos] == rows[..pos];
  }

  lemma SaveKeeps(c: Config, s: State)
    requires Inv(c, s) && Enabled(c, s, Save)
    ensures LossInv(Next(c, s, Save)) && Holds(Next(c, s, Save).disk, s.process.rows)
    ensures Keeps(s.disk, Next(c, s, Save).disk)
  {
    hide DevMatches, Published, RowsFor, FrozenDev, Clean, NoTestRow, Pending, Prefix;
    NothingUnsaved(Next(c, s, Save).disk, s.process.rows, |s.process.rows|);
  }

  lemma FreezeKeeps(c: Config, s: State)
    requires Inv(c, s) && Enabled(c, s, Freeze)
    ensures LossInv(Next(c, s, Freeze)) && Holds(Next(c, s, Freeze).disk, s.process.rows)
    ensures Keeps(s.disk, Next(c, s, Freeze).disk)
  {
    hide DevMatches, Published, RowsFor, FrozenDev, NoTestRow, Prefix, Select;
    NotPendingIsClean(c, s);
    hide Pending;
    CleanIsSaved(Next(c, s, Freeze).disk, s.process.rows);
  }

  lemma HaltKeeps(c: Config, s: State, a: Action)
    requires Inv(c, s) && (a.Halt? || a.Complete?) && Enabled(c, s, a)
    ensures Keeps(s.disk, Next(c, s, a).disk)
  {
    hide DevMatches, Published, RowsFor, FrozenDev, NoTestRow, Prefix, Clean, Pending;
    if a.Halt? { CallIsNew(c, s); }
  }

  lemma StepKeeps(c: Config, s: State, a: Action)
    requires ValidConfig(c) && Inv(c, s) && Enabled(c, s, a)
    ensures Inv(c, Next(c, s, a)) && Keeps(s.disk, Next(c, s, a).disk)
  {
    StepKeepsInv(c, s, a);
    hide Experiment.Inv, LossInv, Enabled, ValidConfig;
    match a
    case Start(_) => StartKeeps(c, s, a);
    case Skip => SkipKeeps(c, s);
    case Observe(_, _) => ObserveKeeps(c, s, a);
    case Save => SaveKeeps(c, s);
    case Freeze => FreezeKeeps(c, s);
    case Halt(_) => HaltKeeps(c, s, a);
    case Complete => HaltKeeps(c, s, a);
    case Crash =>
  }

  lemma KeepsTrans(x: Disk, y: Disk, z: Disk)
    requires Keeps(x, y) && Keeps(y, z)
    ensures Keeps(x, z)
  {
  }

  lemma {:induction false} RunKeeps(c: Config, s: State, actions: seq<Action>, t: State)
    requires ValidConfig(c) && Inv(c, s) && Reaches(c, s, actions, t)
    ensures Inv(c, t) && Keeps(s.disk, t.disk)
    decreases |actions|
  {
    hide Inv, Keeps;
    if actions != [] {
      var u := Next(c, s, actions[0]);
      StepKeeps(c, s, actions[0]);
      RunKeeps(c, u, actions[1..], t);
      KeepsTrans(s.disk, u.disk, t.disk);
    } else {
      SameDiskKeeps(s.disk);
    }
  }

  lemma SameDiskKeeps(disk: Disk)
    ensures Keeps(disk, disk)
  {
  }

  /** In every reachable state a crash loses ten paid observations at most. */
  lemma CrashLosesAtMostTen(c: Config, actions: seq<Action>, t: State)
    requires ValidConfig(c) && Reaches(c, INITIAL, actions, t) && t.process.Live?
    ensures Unsaved(t.disk, t.process.rows, |t.process.rows|) <= EVERY
  {
    RunKeeps(c, INITIAL, actions, t);
  }

  /**
   A saved observation is never lost, changed or paid for again: it is in every later report,
   the completed one included, with the same decision and the same attempt count.
   */
  lemma SavedIsForever(c: Config, actions: seq<Action>, s: State, later: seq<Action>, t: State)
    requires ValidConfig(c) && Reaches(c, INITIAL, actions, s) && Reaches(c, s, later, t)
    ensures Keeps(s.disk, t.disk)
    ensures AtCall(t.process) ==> !SavedAt(s.disk, t.process.pos)
  {
    RunKeeps(c, INITIAL, actions, s);
    RunKeeps(c, s, later, t);
    if AtCall(t.process) {
      CallIsNew(c, t);
    }
  }
}
