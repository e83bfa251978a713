/**
 The stage loop itself, over the two files it keeps, as one process that may die
 before any of its effects. It refines the step relation of `Experiment`.
 */
module StageRun {
  import opened Options
  import opened Routing
  import opened Experiment

  /** The stage directory: what outlives a process. */
  class StageFiles {
    var report: Option<Report>
    var selection: Option<Selection>

    ghost function View(): Disk
      reads this
    {
      Disk(report, selection)
    }
  }

  /** How one paid call, retries included, ends. */
  datatype Call = Answered(decision: Decision, attempts: nat) | Failed

  /** The call answered, and with the model of the calls before it. */
  predicate Accepts(served: Option<string>, call: Call) {
    call.Answered? && (served.Some? ==> served.value == call.decision.servedModel)
  }

  /** The call at this place answered, and the row holds its decision and its number of attempts. */
  predicate Gave(calls: seq<Call>, i: nat, row: Row) {
    i < |calls| && calls[i].Answered?
    && row.jev == Some(calls[i].decision) && row.attempts == calls[i].attempts
  }

  /** Rows of the split may hold what the call at their place gave; all else is as it was. */
  ghost predicate Extends(phase: Split, calls: seq<Call>, before: seq<Row>, after: seq<Row>) {
    |after| == |before|
    && forall i :: 0 <= i < |after| ==>
         after[i] == before[i]
         || (before[i].split == phase && Gave(calls, i, after[i])
             && after[i] == before[i].(
                              jev := after[i].jev, attempts := after[i].attempts, observed := after[i].observed))
  }

  /** A saved report is the one there was, or holds such rows. */
  ghost predicate SavedFrom(
      phase: Split, calls: seq<Call>, before: seq<Row>, was: Option<Report>, now: Option<Report>)
  {
    now == was || (now.Some? && Extends(phase, calls, before, now.value.rows))
  }

  /** What one call may do to the rows: nothing, or put its decision and attempts at the row. */
  ghost predicate Wrote(call: Call, pos: nat, before: seq<Row>, after: seq<Row>)
    requires pos < |before|
  {
    after == before
    || (call.Answered? && exists seen ::
          after == before[pos := before[pos].(
                            jev := Some(call.decision), attempts := call.attempts, observed := seen)])
  }

  lemma OneMoreCall(
      phase: Split, calls: seq<Call>, start: seq<Row>, before: seq<Row>, after: seq<Row>, pos: nat, call: Call)
    requires Extends(phase, calls, start, before) && pos < |before| && Wrote(call, pos, before, after)
    requires after != before ==> before[pos].split == phase && pos < |calls| && call == calls[pos]
    ensures Extends(phase, calls, start, after)
  {
  }

  /** The row of the first report with this id held the same decision and attempts. */
  ghost predicate HeldBefore(first: Option<Report>, row: Row) {
    first.Some? && exists r :: r in first.value.rows && r.id == row.id && r.jev == row.jev && r.attempts == row.attempts
  }

  ghost predicate RuleBefore(first: Option<Report>, row: Row) {
    first.Some? && exists r :: r in first.value.rows && r.id == row.id && r.rule == row.rule
  }

  /**
   Row by row in the order of the cases: inputs as frozen, the rule decision of the first report or
   else the router's, and any decision that of the first report or of the call made at this row.
   */
  ghost predicate Sourced(
      c: Config, first: Option<Report>, rules: seq<Rule>, devCalls: seq<Call>, testCalls: seq<Call>, rows: seq<Row>)
  {
    |rows| == |c.cases| == |rules|
    && forall i :: 0 <= i < |rows| ==>
         && rows[i].id == c.cases[i].id && rows[i].split == c.cases[i].split
         && rows[i].expected == c.cases[i].expected
         && (if first.None? then rows[i].rule == rules[i] else RuleBefore(first, rows[i]))
         && (rows[i].jev != c.cases[i].jev ==>
               HeldBefore(first, rows[i]) || Gave(if rows[i].split == Dev then devCalls else testCalls, i, rows[i]))
  }

  lemma {:induction false} FindIsMember(rows: seq<Row>, id: string)
    requires id in Ids(rows)
    ensures Find(rows, id) in rows && Find(rows, id).id == id
  {
    if rows[|rows| - 1].id != id { FindIsMember(rows[..|rows| - 1], id); }
  }

  lemma RestoredIsSourced(c: Config, disk: Disk, rules: seq<Rule>, devCalls: seq<Call>, testCalls: seq<Call>)
    requires Startable(c, disk, rules)
    ensures Sourced(c, disk.report, rules, devCalls, testCalls, RestoredRows(c, disk, rules))
  {
    var rows := RestoredRows(c, disk, rules);
    hide RestoredRows, Find;
    if disk.report.Some? {
      forall i | 0 <= i < |rows|
        ensures RuleBefore(disk.report, rows[i])
        ensures rows[i].jev != c.cases[i].jev ==> HeldBefore(disk.report, rows[i])
      {
        FindIsMember(disk.report.value.rows, c.cases[i].id);
      }
    }
  }

  lemma ExtendedIsSourced(
      c: Config, first: Option<Report>, rules: seq<Rule>, devCalls: seq<Call>, testCalls: seq<Call>,
      phase: Split, before: seq<Row>, after: seq<Row>)
    requires Sourced(c, first, rules, devCalls, testCalls, before)
    requires Extends(phase, if phase == Dev then devCalls else testCalls, before, after)
    ensures Sourced(c, first, rules, devCalls, testCalls, after)
  {
  }

  /** After a split the rows are sourced, and a report that was saved in it. */
  lemma SavedIsSourced(
      c: Config, first: Option<Report>, rules: seq<Rule>, devCalls: seq<Call>, testCalls: seq<Call>,
      phase: Split, before: seq<Row>, after: seq<Row>, was: Option<Report>, now: Option<Report>)
    requires Sourced(c, first, rules, devCalls, testCalls, before)
    requires var calls := if phase == Dev then devCalls else testCalls;
             Extends(phase, calls, before, after) && SavedFrom(phase, calls, before, was, now)
    ensures Sourced(c, first, rules, devCalls, testCalls, after)
    ensures now == was || (now.Some? && Sourced(c, first, rules, devCalls, testCalls, now.value.rows))
  {
    hide Sourced, Extends;
    ExtendedIsSourced(c, first, rules, devCalls, testCalls, phase, before, after);
    if now != was { ExtendedIsSourced(c, first, rules, devCalls, testCalls, phase, before, now.value.rows); }
  }

  lemma PublishedIsSourced(
      c: Config, first: Option<Report>, rules: seq<Rule>, devCalls: seq<Call>, testCalls: seq<Call>,
      rows: seq<Row>, threshold: real)
    requires Sourced(c, first, rules, devCalls, testCalls, rows)
    ensures Sourced(c, first, rules, devCalls, testCalls, WithHybrid(rows, threshold))
  {
    hide HybridOf;
  }

  datatype Exit = Refused | Died | StoppedWithCode | Finished

  lemma NoSteps(c: Config, s: State)
    ensures Reaches(c, s, [], s)
  {
  }

  lemma {:induction false} ReachesStep(c: Config, s: State, actions: seq<Action>, t: State, a: Action)
    requires Reaches(c, s, actions, t) && Enabled(c, t, a)
    ensures Reaches(c, s, actions + [a], Next(c, t, a))
    decreases |actions|
  {
    hide Enabled, Next;
    if actions == [] {
      assert ([] + [a])[1..] == [];
      assert [] + [a] == [a];
    } else {
      ReachesStep(c, Next(c, s, actions[0]), actions[1..], t, a);
      assert (actions + [a])[1..] == actions[1..] + [a];
    }
  }

  /** Every dev row observed and saved, and selection over them finds no threshold. */
  ghost predicate Unselectable(c: Config, disk: Disk, rows: seq<Row>) {
    && disk.selection.None? && RowsFor(c, rows) && Clean(disk, rows)
    && (forall r :: r in OfSplit(rows, Dev) ==> r.jev.Some?)
    && Select(OfSplit(rows, Dev), c.guard, c.grid).None?
  }

  ghost predicate NoneEligible(c: Config, disk: Disk) {
    exists rows :: Unselectable(c, disk, rows)
  }

  class Runner {
    const c: Config
    const files: StageFiles
    var rows: seq<Row>
    var served: Option<string>
    var selection: Option<Selection>
    /** Effects left before the process dies. */
    var lifetime: nat
    /** The steps taken since `start`. */
    ghost const start: State
    ghost var actions: seq<Action>

    ghost predicate At(phase: Split, pos: nat, due: bool)
      reads this, files
    {
      Reaches(c, start, actions, State(files.View(), Live(rows, served, phase, pos, due, selection)))
    }

    ghost predicate Ended()
      reads this, files
    {
      Reaches(c, start, actions, State(files.View(), Dead))
    }

    /** The process found files that earlier processes could have left. */
    ghost predicate Sound() {
      ValidConfig(c) && Inv(c, start)
    }

    lemma SoundAt(phase: Split, pos: nat, due: bool)
      requires Sound() && At(phase, pos, due)
      ensures var s := State(files.View(), Live(rows, served, phase, pos, due, selection));
              Inv(c, s)
              && (AtEnd(s.process, Dev) && s.disk.selection.Some? ==> Enabled(c, s, Freeze))
              && (AtEnd(s.process, Test) ==> Enabled(c, s, Complete))
    {
      var s := State(files.View(), Live(rows, served, phase, pos, due, selection));
      RunKeepsInv(c, start, actions, s);
      EndsAreEnabled(c, s);
    }

    /** `load_checkpoint` and the rebuilding of the rows. */
    constructor (c: Config, files: StageFiles, rules: seq<Rule>, lifetime: nat)
      requires Startable(c, files.View(), rules)
      ensures this.c == c && this.files == files && start == State(files.View(), Dead)
      ensures At(Dev, 0, false) && |rows| == |c.cases| && this.lifetime == lifetime
      ensures rows == RestoredRows(c, files.View(), rules)
      ensures served == if files.report.Some? then files.report.value.served else None
    {
      this.c, this.files, this.lifetime := c, files, lifetime;
      start, actions := State(files.View(), Dead), [Start(rules)];
      rows := RestoredRows(c, Disk(files.report, files.selection), rules);
      served := if files.report.Some? then files.report.value.served else None;
      selection := None;
      new;
      assert actions[1..] == [];
    }

    /** Dies here if its time is up. */
    method Tick(ghost phase: Split, ghost pos: nat, ghost due: bool) returns (alive: bool)
      requires At(phase, pos, due)
      modifies `lifetime, `actions
      ensures if alive then actions == old(actions) && lifetime == old(lifetime) - 1 else Ended() && old(lifetime) == 0
    {
      alive := lifetime > 0;
      if alive {
        lifetime := lifetime - 1;
      } else {
        Take(phase, pos, due, Crash);
      }
    }

    /** Records one step of the relation. */
    ghost method Take(phase: Split, pos: nat, due: bool, a: Action)
      requires At(phase, pos, due)
      requires Enabled(c, State(files.View(), Live(rows, served, phase, pos, due, selection)), a)
      modifies `actions
      ensures actions == old(actions) + [a]
      ensures Reaches(c, start, actions,
                Next(c, State(files.View(), Live(rows, served, phase, pos, due, selection)), a))
    {
      ReachesStep(c, start, actions, State(files.View(), Live(rows, served, phase, pos, due, selection)), a);
      actions := actions + [a];
    }

    /** The paid call of one row: its decision noted in memory, or the stop and its report. */
    method PayRow(phase: Split, pos: nat, call: Call) returns (exit: Option<Exit>, due: bool)
      requires At(phase, pos, false) && pos < |rows| && rows[pos].split == phase && !rows[pos].observed
      modifies this, files
      ensures exit.None? ==> At(phase, pos + 1, due) && lifetime + 1 == old(lifetime)
      ensures exit.Some? ==> Ended() && (exit.value == Died || exit.value == StoppedWithCode)
      ensures exit == Some(Died) ==> old(lifetime) == 0
      ensures exit == Some(StoppedWithCode) ==> !Accepts(old(served), call)
      ensures served == old(served) || (call.Answered? && served == Some(call.decision.servedModel))
      ensures selection == old(selection) && Wrote(call, pos, old(rows), rows)
      ensures files.report == old(files.report) || (files.report.Some? && files.report.value.rows == rows)
    {
      due := false;
      var alive := Tick(phase, pos, false);
      if !alive {
        return Some(Died), false;
      }
      if !Accepts(served, call) {
        Stop(phase, pos, call);
        return Some(StoppedWithCode), false;
      }
      due := CheckpointDue(rows, phase, pos);
      Take(phase, pos, false, Observe(call.decision, call.attempts));
      rows := rows[pos := rows[pos].(jev := Some(call.decision), attempts := call.attempts, observed := true)];
      served := Some(call.decision.servedModel);
      exit := None;
    }

    /** A failed call or a changed model: the observation is kept, the report saved, the process over. */
    method Stop(phase: Split, pos: nat, call: Call)
      requires At(phase, pos, false) && pos < |rows| && rows[pos].split == phase && !rows[pos].observed
      requires !Accepts(served, call)
      modifies this, files
      ensures Ended() && served == old(served) && selection == old(selection) && Wrote(call, pos, old(rows), rows)
      ensures files.report.Some? && files.report.value.rows == rows
    {
      var paid := if call.Failed? then None else Some((call.decision, call.attempts));
      Take(phase, pos, false, Halt(paid));
      if call.Answered? {
        rows := rows[pos := rows[pos].(jev := Some(call.decision), attempts := call.attempts)];
      }
      files.report := Some(Report(Stopped, rows, served));
    }

    /** The checkpoint after every tenth row and the last. */
    method Checkpoint(phase: Split, pos: nat) returns (exit: Option<Exit>)
      requires At(phase, pos, true)
      modifies this, files
      ensures exit.None? ==> At(phase, pos, false) && lifetime + 1 == old(lifetime)
      ensures exit.Some? ==> Ended() && exit.value == Died && old(lifetime) == 0
      ensures served == old(served) && selection == old(selection) && rows == old(rows)
      ensures files.report == old(files.report) || (files.report.Some? && files.report.value.rows == rows)
    {
      var alive := Tick(phase, pos, true);
      if !alive {
        return Some(Died);
      }
      Take(phase, pos, true, Save);
      files.report := Some(Report(Running, rows, served));
      return None;
    }

    /** One row of the split: restored rows are skipped, others cost a call. */
    method DoRow(phase: Split, pos: nat, call: Call) returns (exit: Option<Exit>)
      requires At(phase, pos, false) && pos < |rows|
      modifies this, files
      ensures exit.None? ==> At(phase, pos + 1, false) && lifetime + 2 >= old(lifetime)
      ensures exit.Some? ==> Ended() && (exit.value == Died || exit.value == StoppedWithCode)
      ensures exit == Some(Died) ==> old(lifetime) < 2
      ensures exit == Some(StoppedWithCode) ==> !Accepts(old(served), call)
      ensures served == old(served) || (call.Answered? && served == Some(call.decision.servedModel))
      ensures selection == old(selection) && Wrote(call, pos, old(rows), rows)
      ensures rows != old(rows) ==> old(rows)[pos].split == phase
      ensures files.report == old(files.report) || (files.report.Some? && files.report.value.rows == rows)
    {
      hide Reaches, Enabled, Next, Wrote;
      NothingWritten(pos, call);
      if rows[pos].split != phase || rows[pos].observed {
        SkipRow(phase, pos);
        return None;
      }
      var due;
      exit, due := PayRow(phase, pos, call);
      if exit.None? && due {
        exit := Checkpoint(phase, pos + 1);
      }
    }

    lemma NothingWritten(pos: nat, call: Call)
      requires pos < |rows|
      ensures Wrote(call, pos, rows, rows)
    {
    }

    ghost method SkipRow(phase: Split, pos: nat)
      requires At(phase, pos, false) && pos < |rows| && (rows[pos].split != phase || rows[pos].observed)
      modifies `actions
      ensures At(phase, pos + 1, false)
    {
      Take(phase, pos, false, Skip);
    }

    /** Between the splits: load the frozen threshold or freeze one. */
    method DoFreeze() returns (exit: Option<Exit>)
      requires At(Dev, |rows|, false)
      modifies this, files
      ensures exit.None? ==> At(Test, 0, false) && selection.Some? && lifetime + 1 == old(lifetime)
      ensures exit.Some? ==> Ended() && exit.value == Died && files.View() == old(files.View())
      ensures exit.Some? && Sound() && old(lifetime) > 0 ==> NoneEligible(c, files.View())
      ensures served == old(served) && rows == old(rows) && files.report == old(files.report)
    {
      hide Reaches, Select, OfSplit, CheckpointDue, RestoredRows, Startable, Inv, ValidConfig, NoneEligible;
      var alive := Tick(Dev, |rows|, false);
      if !alive {
        return Some(Died);
      }
      var dev := OfSplit(rows, Dev);
      var chosen := SelectThreshold(dev, c.guard, c.grid);
      if if files.selection.Some? then files.selection.value.devRows != dev else chosen.None? {
        if Sound() { NothingToFreeze(); }
        Take(Dev, |rows|, false, Crash);
        return Some(Died);
      }
      Take(Dev, |rows|, false, Freeze);
      if files.selection.None? {
        files.selection := Some(Selection(chosen.value.threshold, dev));
      }
      selection := files.selection;
      return None;
    }

    lemma NothingToFreeze()
      requires Sound() && At(Dev, |rows|, false)
      requires !Enabled(c, State(files.View(), Live(rows, served, Dev, |rows|, false, selection)), Freeze)
      ensures NoneEligible(c, files.View())
    {
      hide Reaches, Select;
      SoundAt(Dev, |rows|, false);
      var s := State(files.View(), Live(rows, served, Dev, |rows|, false, selection));
      NotPendingIsClean(c, s);
      DevIsObserved(c, s);
      assert Unselectable(c, files.View(), rows);
    }

    /** The hybrid column, the validation and the final report. */
    method DoComplete() returns (exit: Exit)
      requires At(Test, |rows|, false) && selection.Some?
      modifies this, files
      ensures Ended() && (exit == Died || exit == Finished)
      ensures exit == Finished ==> files.report.Some? && files.report.value.status == Completed
      ensures files.report == old(files.report)
              || (files.report.Some?
                  && files.report.value.rows == WithHybrid(old(rows), old(selection).value.threshold))
      ensures exit == Died && Sound() ==> old(lifetime) == 0
    {
      hide Reaches, Select, OfSplit, CheckpointDue, RestoredRows, Startable, Inv, ValidConfig, HybridOf;
      var alive := Tick(Test, |rows|, false);
      if !alive {
        return Died;
      }
      if Sound() { SoundAt(Test, |rows|, false); }
      if exists r :: r in rows && r.jev.None? {
        Take(Test, |rows|, false, Crash);
        return Died;
      }
      Take(Test, |rows|, false, Complete);
      files.report := Some(Report(Completed, WithHybrid(rows, selection.value.threshold), served));
      return Finished;
    }

    method DoSplit(phase: Split, calls: seq<Call>) returns (exit: Option<Exit>)
      requires At(phase, 0, false)
      modifies this, files
      ensures |rows| == old(|rows|) && selection == old(selection) && Extends(phase, calls, old(rows), rows)
      ensures SavedFrom(phase, calls, old(rows), old(files.report), files.report)
      ensures exit.None? ==> At(phase, |rows|, false) && lifetime + 2 * |rows| >= old(lifetime)
      ensures exit.Some? ==> Ended() && (exit.value == Died || exit.value == StoppedWithCode)
      ensures exit == Some(Died) ==> old(lifetime) < 2 * |rows|
      ensures forall model :: AllAnswered(calls, |rows|, model) && ServedBy(old(served), model) ==>
                ServedBy(served, model) && exit != Some(StoppedWithCode)
    {
      var pos := 0;
      exit := None;
      while pos < |rows|
        invariant 0 <= pos <= |rows| == old(|rows|) && At(phase, pos, false)
        invariant lifetime + 2 * pos >= old(lifetime) && exit.None? && selection == old(selection)
        invariant Extends(phase, calls, old(rows), rows)
        invariant SavedFrom(phase, calls, old(rows), old(files.report), files.report)
        invariant forall model :: AllAnswered(calls, |rows|, model) && ServedBy(old(served), model) ==>
                    ServedBy(served, model)
        decreases |rows| - pos
      {
        var call := if pos < |calls| then calls[pos] else Failed;
        ghost var before := rows;
        exit := DoRow(phase, pos, call);
        OneMoreCall(phase, calls, old(rows), before, rows, pos, call);
        if exit.Some? {
          return;
        }
        pos := pos + 1;
      }
    }
  }

  /** No call fails, and one model answers them all. */
  ghost predicate AllAnswered(calls: seq<Call>, n: nat, model: string) {
    n <= |calls| && forall i :: 0 <= i < n ==> calls[i].Answered? && calls[i].decision.servedModel == model
  }

  ghost predicate ServedBy(served: Option<string>, model: string) {
    served.Some? ==> served.value == model
  }

  ghost predicate LastServed(disk: Disk, model: string) {
    disk.report.Some? ==> ServedBy(disk.report.value.served, model)
  }

  /**
   One process from start to finish, death or stop. Whatever it does to the two
   files is a run of the step relation, so everything proved of runs holds of it.
   It stops only for a failed call or a changed model, and on files that earlier
   processes left it otherwise completes, unless it is killed or no threshold is
   eligible.
   */
  method Run(c: Config, files: StageFiles, rules: seq<Rule>, devCalls: seq<Call>, testCalls: seq<Call>, lifetime: nat)
    returns (exit: Exit, ghost actions: seq<Action>)
    modifies files
    ensures Reaches(c, State(old(files.View()), Dead), actions, State(files.View(), Dead))
    ensures exit == Refused <==> !Startable(c, old(files.View()), rules)
    ensures exit == Finished ==> files.report.Some? && files.report.value.status == Completed
    ensures files.report == old(files.report)
            || (files.report.Some?
                && Sourced(c, old(files.report), rules, devCalls, testCalls, files.report.value.rows))
    ensures exit == Died ==>
              || !(ValidConfig(c) && Inv(c, State(old(files.View()), Dead)))
              || lifetime < 4 * |c.cases| + 2
              || NoneEligible(c, files.View())
    ensures exit == StoppedWithCode ==>
              forall model :: LastServed(old(files.View()), model) ==>
                !AllAnswered(devCalls, |c.cases|, model) || !AllAnswered(testCalls, |c.cases|, model)
  {
    hide Reaches, Sourced, Extends, SavedFrom, Inv, ValidConfig, NoneEligible, RestoredRows, Startable, Next, Enabled;
    actions := [];
    ghost var first := files.report;
    NoSteps(c, State(files.View(), Dead));
    if !Startable(c, Disk(files.report, files.selection), rules) {
      return Refused, [];
    }
    RestoredIsSourced(c, files.View(), rules, devCalls, testCalls);
    var runner := new Runner(c, files, rules, lifetime);
    ghost var rows := runner.rows;
    var early := runner.DoSplit(Dev, devCalls);
    SavedIsSourced(c, first, rules, devCalls, testCalls, Dev, rows, runner.rows, first, files.report);
    if early.Some? {
      return early.value, runner.actions;
    }
    early := runner.DoFreeze();
    if early.Some? {
      return early.value, runner.actions;
    }
    rows := runner.rows;
    ghost var saved := files.report;
    early := runner.DoSplit(Test, testCalls);
    SavedIsSourced(c, first, rules, devCalls, testCalls, Test, rows, runner.rows, saved, files.report);
    if early.Some? {
      return early.value, runner.actions;
    }
    PublishedIsSourced(c, first, rules, devCalls, testCalls, runner.rows, runner.selection.value.threshold);
    exit := runner.DoComplete();
    return exit, runner.actions;
  }
}
