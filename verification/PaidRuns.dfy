/**
 The experiment and its ledger together: the stage loop over its two files, every paid call
 over the journal, and crashes between two effects or in the middle of a call.
 */
module PaidRuns {
  import opened Options
  import opened Journal
  import opened SpendLedger
  import opened JevCalls
  import CallRuns
  import Checkpoints
  import E = Experiment
  import L = CumulativeLedger
  import Orders
  import Routing

  datatype State = State(exp: E.State, events: seq<Event>, budget: Usd)

  /** One call with its retries: identifiers, replies, result, attempts, and the journal it leaves. */
  datatype Call = Call(
    ids: seq<Id>, replies: seq<Reply>, r: Result<Routing.Decision>, n: nat, end: seq<Event>)

  datatype Action =
    | Free(a: E.Action)
    | Paid(a: E.Action, call: Call)
    | CrashInCall(call: Call, cut: nat)

  ghost predicate IsCall(s: State, carry: L.Carry, call: Call) {
    && Accepted(s.events)
    && |call.ids| == LAST_ATTEMPT == |call.replies|
    && FreshIds(s.events, call.ids)
    && RetryOutcome(s.events, call.end, s.budget, carry, call.ids, call.replies, call.r, call.n)
  }

  /**
   An observation, and the unfinished one of a changed model, come from a returned decision; any
   other stop from an error.
   */
  predicate Matches(a: E.Action, call: Call) {
    match a
    case Observe(d, n) => call.r == Ok(d) && n == call.n
    case Halt(Some(paid)) => call.r == Ok(paid.0) && paid.1 == call.n
    case Halt(None) => call.r.Err?
    case _ => false
  }

  ghost predicate Enabled(c: E.Config, carry: L.Carry, s: State, a: Action) {
    match a
    case Free(x) =>
      E.Enabled(c, s.exp, x) && !x.Observe? && !x.Halt? && (x.Start? ==> Enter(s.events, L.LIMIT).Ok?)
    case Paid(x, call) => E.Enabled(c, s.exp, x) && IsCall(s, carry, call) && Matches(x, call)
    case CrashInCall(call, cut) =>
      E.AtCall(s.exp.process) && IsCall(s, carry, call) && |s.events| <= cut <= |call.end|
  }

  ghost function Next(c: E.Config, carry: L.Carry, s: State, a: Action): State
    requires Enabled(c, carry, s, a)
  {
    match a
    case Free(x) =>
      if x.Start? then
        var (lines, inForce) := Enter(s.events, L.LIMIT).value;
        State(E.Next(c, s.exp, x), lines, inForce)
      else s.(exp := E.Next(c, s.exp, x))
    case Paid(x, call) => State(E.Next(c, s.exp, x), call.end, s.budget)
    case CrashInCall(call, cut) => State(E.Next(c, s.exp, E.Crash), call.end[..cut], s.budget)
  }

  ghost predicate Reaches(c: E.Config, carry: L.Carry, s: State, actions: seq<Action>, t: State)
    decreases |actions|
  {
    if actions == [] then s == t
    else Enabled(c, carry, s, actions[0]) && Reaches(c, carry, Next(c, carry, s, actions[0]), actions[1..], t)
  }

  /** No files and no journal. */
  const INITIAL := State(E.INITIAL, [], 0.0)

  /** The step of the experiment alone. */
  function Shadow(a: Action): E.Action {
    match a
    case Free(x) => x
    case Paid(x, _) => x
    case CrashInCall(_, _) => E.Crash
  }

  /** The journal is missing, or within the stage's limits; a live process has opened it. */
  ghost predicate LedgerInv(s: State) {
    && (s.events != [] ==> L.Inv(L.State(s.events, s.budget)))
    && (s.exp.process.Live? ==> s.events != [])
  }

  lemma CallLimits(s: State, carry: L.Carry, call: Call, cut: nat)
    requires LedgerInv(s) && IsCall(s, carry, call)
    ensures s.events <= call.end && L.Inv(L.State(call.end, s.budget))
    ensures |s.events| <= cut <= |call.end| ==>
              s.events <= call.end[..cut] && L.Inv(L.State(call.end[..cut], s.budget))
  {
    assert s.events != [];
    hide Accepted, FreshIds, RetryOutcome, L.Inv;
    CallRuns.CallKeepsLimits(
      s.events, call.end, s.budget, carry, call.ids, call.replies, call.r, call.n, cut);
  }

  lemma OpeningLimits(s: State)
    requires LedgerInv(s) && Enter(s.events, L.LIMIT).Ok?
    ensures var (lines, inForce) := Enter(s.events, L.LIMIT).value;
            L.Inv(L.State(lines, inForce)) && s.events <= lines && lines != []
            && (s.events != [] ==> lines == s.events)
            && CountSettles(lines) == CountSettles(s.events)
  {
    EnterAccepts(s.events, L.LIMIT);
    if s.events == [] {
      var lines := Enter(s.events, L.LIMIT).value.0;
      assert lines == [lines[0]] && lines[1..] == [];
      assert CountSettles(lines) == CountSettles(lines[..0]);
    }
  }

  /** The step of the experiment is one of its own, and the journal only grows, within its limits. */
  lemma StepShadows(c: E.Config, carry: L.Carry, s: State, a: Action)
    requires LedgerInv(s) && Enabled(c, carry, s, a)
    ensures E.Enabled(c, s.exp, Shadow(a)) && Next(c, carry, s, a).exp == E.Next(c, s.exp, Shadow(a))
    ensures LedgerInv(Next(c, carry, s, a)) && s.events <= Next(c, carry, s, a).events
  {
    hide IsCall, Enter, L.Inv, CountSettles;
    match a
    case Free(x) => if x.Start? { OpeningLimits(s); }
    case Paid(_, call) => CallLimits(s, carry, call, 0);
    case CrashInCall(call, cut) => CallLimits(s, carry, call, cut);
  }

  /** Seen from its two files, a joint run is a run of the experiment; and the journal keeps the stage's limits. */
  lemma {:induction false} RunShadows(c: E.Config, carry: L.Carry, s: State, actions: seq<Action>, t: State)
    returns (shadows: seq<E.Action>)
    requires LedgerInv(s) && Reaches(c, carry, s, actions, t)
    ensures E.Reaches(c, s.exp, shadows, t.exp) && LedgerInv(t) && s.events <= t.events
    decreases |actions|
  {
    hide Enabled, Next, LedgerInv, E.Enabled, E.Next;
    if actions == [] {
      shadows := [];
    } else {
      var u := Next(c, carry, s, actions[0]);
      StepShadows(c, carry, s, actions[0]);
      var rest := RunShadows(c, carry, u, actions[1..], t);
      shadows := [Shadow(actions[0])] + rest;
      assert shadows[1..] == rest;
    }
  }

  /**
   Over every joint run from nothing: the files are as the experiment alone keeps them, one
   reservation is open at most, and 550 attempts are the most the whole experiment ever makes.
   */
  lemma WholeRunKeepsBoth(c: E.Config, carry: L.Carry, actions: seq<Action>, t: State)
    requires E.ValidConfig(c) && Reaches(c, carry, INITIAL, actions, t)
    ensures Checkpoints.Inv(c, t.exp) && LedgerInv(t)
    ensures t.events != [] ==> Accepted(t.events) && |BookOf(t.events).order| <= L.MAX_ATTEMPTS
  {
    hide Checkpoints.Inv, Accepted;
    var shadows := RunShadows(c, carry, INITIAL, actions, t);
    assert Checkpoints.Inv(c, E.INITIAL) by { InitialInv(c); }
    Checkpoints.RunKeeps(c, E.INITIAL, shadows, t.exp);
  }

  lemma InitialInv(c: E.Config)
    ensures Checkpoints.Inv(c, E.INITIAL)
  {
  }

  // A blocked journal.

  /** Every decision held in memory or in the report was in the report of `before`. */
  ghost predicate NothingNew(before: E.Disk, s: E.State) {
    && (forall i :: Checkpoints.SavedAt(s.disk, i) ==> Checkpoints.SavedAt(before, i))
    && (s.process.Live? ==>
          forall i :: 0 <= i < |s.process.rows| && s.process.rows[i].jev.Some? ==> Checkpoints.SavedAt(before, i))
  }

  ghost predicate Blocked(before: State, s: State) {
    && s.events == before.events && s.events != [] && Accepted(s.events) && L.SomethingOpen(BookOf(s.events))
    && NothingNew(before.exp.disk, s.exp)
  }

  /** With a reservation open, a call ends in an error and leaves no line. */
  lemma BlockedCall(s: State, carry: L.Carry, call: Call)
    requires IsCall(s, carry, call) && L.SomethingOpen(BookOf(s.events))
    ensures call.r.Err? && call.end == s.events
  {
    hide Accepted, RetryOutcome, FreshIds;
    OpenReservationStopsCalls(
      s.events, call.end, s.budget, carry, call.ids, call.replies, call.r, call.n);
  }

  lemma StartIsNothingNew(c: E.Config, before: E.Disk, s: E.State, a: E.Action)
    requires E.ValidConfig(c) && E.Inv(c, s) && a.Start? && E.Enabled(c, s, a) && NothingNew(before, s)
    ensures NothingNew(before, E.Next(c, s, a))
  {
    Checkpoints.RestoredIsClean(c, s.disk, a.rules);
    hide E.RestoredRows, E.Inv, E.Startable;
    var rows := E.RestoredRows(c, s.disk, a.rules);
    forall i | 0 <= i < |rows| && rows[i].jev.Some? ensures Checkpoints.SavedAt(s.disk, i) {}
  }

  /** What does not observe adds nothing. */
  lemma OtherIsNothingNew(c: E.Config, before: E.Disk, s: E.State, a: E.Action)
    requires E.Enabled(c, s, a) && NothingNew(before, s)
    requires !a.Start? && !a.Observe? && (a.Halt? ==> a.paid.None?)
    ensures NothingNew(before, E.Next(c, s, a))
  {
    hide E.CheckpointDue, E.OfSplit, Routing.Select, E.RestoredRows;
  }

  lemma BlockedStep(c: E.Config, carry: L.Carry, before: State, s: State, a: Action)
    requires E.ValidConfig(c) && E.Inv(c, s.exp) && LedgerInv(s) && Blocked(before, s) && Enabled(c, carry, s, a)
    ensures Blocked(before, Next(c, carry, s, a))
  {
    hide Accepted, IsCall, NothingNew, L.SomethingOpen, L.Inv, E.Inv, E.Enabled, E.Next, Enter, CountSettles;
    match a
    case Free(x) =>
      if x.Start? {
        OpeningLimits(s);
        StartIsNothingNew(c, before.exp.disk, s.exp, x);
      } else {
        OtherIsNothingNew(c, before.exp.disk, s.exp, x);
      }
    case Paid(x, call) =>
      BlockedCall(s, carry, call);
      OtherIsNothingNew(c, before.exp.disk, s.exp, x);
    case CrashInCall(call, cut) =>
      BlockedCall(s, carry, call);
      StepShadows(c, carry, s, a);
      OtherIsNothingNew(c, before.exp.disk, s.exp, E.Crash);
  }

  lemma {:induction false} BlockedRun(
      c: E.Config, carry: L.Carry, before: State, s: State, actions: seq<Action>, t: State)
    requires E.ValidConfig(c) && E.Inv(c, s.exp) && LedgerInv(s) && Blocked(before, s)
    requires Reaches(c, carry, s, actions, t)
    ensures E.Inv(c, t.exp) && Blocked(before, t)
    decreases |actions|
  {
    hide E.Inv, LedgerInv, Blocked, Enabled, Next, E.Enabled, E.Next;
    if actions != [] {
      var u := Next(c, carry, s, actions[0]);
      BlockedStep(c, carry, before, s, actions[0]);
      StepShadows(c, carry, s, actions[0]);
      E.StepKeepsInv(c, s.exp, Shadow(actions[0]));
      BlockedRun(c, carry, before, u, actions[1..], t);
    }
  }

  /**
   A reservation left open with no process running blocks the experiment for good: no later
   process writes a line of the journal or observes a row.
   */
  lemma OpenReservationBlocksForever(
      c: E.Config, carry: L.Carry, actions: seq<Action>, s: State, later: seq<Action>, t: State)
    requires E.ValidConfig(c) && Reaches(c, carry, INITIAL, actions, s) && s.exp.process.Dead?
    requires s.events != [] && Accepted(s.events) && L.SomethingOpen(BookOf(s.events))
    requires Reaches(c, carry, s, later, t)
    ensures t.events == s.events && NothingNew(s.exp.disk, t.exp)
  {
    hide Accepted, Reaches, L.Inv, Checkpoints.LossInv, E.Inv;
    WholeRunKeepsBoth(c, carry, actions, s);
    BlockedRun(c, carry, s, s, later, t);
  }

  /**
   A crash inside a call that leaves its reservation open is the end of the experiment: no
   later process, however many there are, observes another row, and none completes the report.
   */
  lemma CrashInsideCallIsFinal(
      c: E.Config, carry: L.Carry, actions: seq<Action>, s: State, call: Call, cut: nat, later: seq<Action>, t: State)
    requires E.ValidConfig(c) && Reaches(c, carry, INITIAL, actions, s)
    requires Enabled(c, carry, s, CrashInCall(call, cut))
    requires var u := Next(c, carry, s, CrashInCall(call, cut));
             && Accepted(u.events) && L.SomethingOpen(BookOf(u.events))
             && Reaches(c, carry, u, later, t)
    ensures t.events == call.end[..cut] && NothingNew(s.exp.disk, t.exp)
    ensures t.exp.disk.report.Some? ==> t.exp.disk.report.value.status != E.Completed
  {
    hide Accepted, Reaches, L.Inv, L.SomethingOpen, E.Inv, E.Enabled;
    hide Checkpoints.LossInv, Checkpoints.RestIsOpen, IsCall;
    var u := Next(c, carry, s, CrashInCall(call, cut));
    WholeRunKeepsBoth(c, carry, actions, s);
    StepShadows(c, carry, s, CrashInCall(call, cut));
    Checkpoints.CallIsNew(c, s.exp);
    assert !Checkpoints.SavedAt(s.exp.disk, s.exp.process.pos);
    E.StepKeepsInv(c, s.exp, E.Crash);
    BlockedRun(c, carry, u, u, later, t);
    SameCases(c, s.exp);
    if t.exp.disk.report.Some? && t.exp.disk.report.value.status == E.Completed {
      CompletedIsAllSaved(c, t.exp);
    }
  }

  lemma CompletedIsAllSaved(c: E.Config, s: E.State)
    requires E.Inv(c, s) && s.disk.report.Some? && s.disk.report.value.status == E.Completed
    ensures forall i :: 0 <= i < |c.cases| ==> Checkpoints.SavedAt(s.disk, i)
  {
    var rows := s.disk.report.value.rows;
    forall i | 0 <= i < |c.cases| ensures Checkpoints.SavedAt(s.disk, i) {
      assert rows[i] in rows;
    }
  }

  lemma SameCases(c: E.Config, s: E.State)
    requires E.Inv(c, s) && s.process.Live?
    ensures |s.process.rows| == |c.cases|
  {
  }

  // Every observation has been paid for.

  predicate Decided(row: Routing.Row) { row.jev.Some? }

  function Observed(rows: seq<Routing.Row>): nat { Orders.Count(Decided, rows) }

  ghost predicate PaidFor(s: State) {
    && (s.exp.disk.report.Some? ==> Observed(s.exp.disk.report.value.rows) <= CountSettles(s.events))
    && (s.exp.process.Live? ==> Observed(s.exp.process.rows) <= CountSettles(s.events))
  }

  lemma {:induction false} SameDecisions(a: seq<Routing.Row>, b: seq<Routing.Row>)
    requires |a| == |b| && forall i :: 0 <= i < |a| ==> (a[i].jev.Some? <==> b[i].jev.Some?)
    ensures Observed(a) == Observed(b)
  {
    if a != [] { SameDecisions(a[..|a| - 1], b[..|b| - 1]); }
  }

  lemma {:induction false} NoneObserved(rows: seq<Routing.Row>)
    requires forall i :: 0 <= i < |rows| ==> rows[i].jev.None?
    ensures Observed(rows) == 0
  {
    if rows != [] { NoneObserved(rows[..|rows| - 1]); }
  }

  lemma {:induction false} OneMoreObserved(rows: seq<Routing.Row>, pos: nat, row: Routing.Row)
    requires pos < |rows| && row.jev.Some?
    ensures Observed(rows[pos := row]) <= Observed(rows) + 1
  {
    var n := |rows| - 1;
    if pos < n {
      assert rows[pos := row][..n] == rows[..n][pos := row];
      OneMoreObserved(rows[..n], pos, row);
    } else {
      assert rows[pos := row][..n] == rows[..n];
    }
  }

  /** A returned decision adds a settlement; no call takes one away. */
  lemma CallSettles(s: State, carry: L.Carry, call: Call)
    requires LedgerInv(s) && IsCall(s, carry, call)
    ensures CountSettles(s.events) + (if call.r.Ok? then 1 else 0) <= CountSettles(call.end)
  {
    hide Accepted, FreshIds, RetryOutcome, L.Inv, CountSettles, Retired, LedgerInv;
    CallLimits(s, carry, call, 0);
    Grown(s.events, call.end);
    if call.r.Ok? {
      DecisionIsPaidFor(
        s.events, call.end, s.budget, carry, call.ids, call.replies, call.r.value, call.n);
      var id, reply := call.ids[call.n - 1], call.replies[call.n - 1];
      LastIsSettle(s.events, Retired(call.ids, call.n - 1), Event.Reserve(id, Bound(OPENROUTER), OPENROUTER),
                   Event.Settle(id, reply.cost.value));
    }
  }

  lemma Grown(before: seq<Event>, after: seq<Event>)
    requires before <= after
    ensures CountSettles(before) <= CountSettles(after)
  {
    assert after == before + after[|before|..];
    CountSettlesAppend(before, after[|before|..]);
  }

  lemma LastIsSettle(before: seq<Event>, retired: seq<Event>, reserve: Event, settle: Event)
    requires settle.Settle?
    ensures CountSettles(before) + 1 <= CountSettles(before + retired + [reserve, settle])
  {
    var all := before + retired + [reserve, settle];
    assert all[..|all| - 1] == before + (retired + [reserve]);
    CountSettlesAppend(before, retired + [reserve]);
  }

  lemma StartPays(c: E.Config, s: E.State, a: E.Action, settled: nat)
    requires E.ValidConfig(c) && E.Inv(c, s) && a.Start? && E.Enabled(c, s, a)
    requires s.disk.report.Some? ==> Observed(s.disk.report.value.rows) <= settled
    ensures Observed(E.Next(c, s, a).process.rows) <= settled
  {
    Checkpoints.RestoredIsClean(c, s.disk, a.rules);
    hide E.RestoredRows, E.Inv, E.Startable, Observed;
    var rows := E.RestoredRows(c, s.disk, a.rules);
    if s.disk.report.Some? {
      SameDecisions(rows, s.disk.report.value.rows);
    } else {
      NoneObserved(rows);
    }
  }

  /** Rows written without a new decision: what a step leaves is what was observed before it. */
  lemma OtherPays(c: E.Config, s: E.State, a: E.Action, settled: nat)
    requires E.Enabled(c, s, a) && !a.Start? && !a.Observe? && (a.Halt? ==> a.paid.None?)
    requires s.disk.report.Some? ==> Observed(s.disk.report.value.rows) <= settled
    requires s.process.Live? ==> Observed(s.process.rows) <= settled
    ensures var t := E.Next(c, s, a);
            (t.disk.report.Some? ==> Observed(t.disk.report.value.rows) <= settled)
            && (t.process.Live? ==> Observed(t.process.rows) <= settled)
  {
    hide E.CheckpointDue, E.OfSplit, Routing.Select, E.RestoredRows, Observed;
    if a.Complete? {
      SameDecisions(s.process.rows, E.WithHybrid(s.process.rows, s.process.selection.value.threshold));
    }
  }

  lemma DecisionPays(c: E.Config, s: E.State, a: E.Action, settled: nat)
    requires E.Enabled(c, s, a) && (a.Observe? || (a.Halt? && a.paid.Some?))
    requires s.disk.report.Some? ==> Observed(s.disk.report.value.rows) <= settled
    requires s.process.Live? ==> Observed(s.process.rows) <= settled
    ensures var t := E.Next(c, s, a);
            (t.disk.report.Some? ==> Observed(t.disk.report.value.rows) <= settled + 1)
            && (t.process.Live? ==> Observed(t.process.rows) <= settled + 1)
  {
    hide E.CheckpointDue, E.OfSplit, Routing.Select, E.RestoredRows, Observed;
    var p := s.process;
    if a.Observe? {
      OneMoreObserved(p.rows, p.pos, p.rows[p.pos].(jev := Some(a.decision), attempts := a.attempts, observed := true));
    } else {
      OneMoreObserved(p.rows, p.pos, p.rows[p.pos].(jev := Some(a.paid.value.0), attempts := a.paid.value.1));
    }
  }

  lemma StepPays(c: E.Config, carry: L.Carry, s: State, a: Action)
    requires E.ValidConfig(c) && E.Inv(c, s.exp) && LedgerInv(s) && PaidFor(s) && Enabled(c, carry, s, a)
    ensures PaidFor(Next(c, carry, s, a))
  {
    hide IsCall, Enter, L.Inv, CountSettles, E.Inv, E.Enabled, E.Next, Observed;
    var settled := CountSettles(s.events);
    match a
    case Free(x) =>
      if x.Start? {
        OpeningLimits(s);
        StartPays(c, s.exp, x, settled);
        StartKeepsReport(c, s.exp, x);
      } else {
        OtherPays(c, s.exp, x, settled);
      }
    case Paid(x, call) =>
      CallSettles(s, carry, call);
      if call.r.Ok? { DecisionPays(c, s.exp, x, settled); } else { OtherPays(c, s.exp, x, settled); }
    case CrashInCall(call, cut) =>
      CallLimits(s, carry, call, cut);
      Grown(s.events, call.end[..cut]);
      CrashEnabled(c, s.exp);
      OtherPays(c, s.exp, E.Crash, settled);
  }

  lemma StartKeepsReport(c: E.Config, s: E.State, a: E.Action)
    requires a.Start? && E.Enabled(c, s, a)
    ensures E.Next(c, s, a).disk == s.disk
  {
  }

  lemma CrashEnabled(c: E.Config, s: E.State)
    requires E.AtCall(s.process)
    ensures E.Enabled(c, s, E.Crash)
  {
  }

  lemma {:induction false} RunPays(c: E.Config, carry: L.Carry, s: State, actions: seq<Action>, t: State)
    requires E.ValidConfig(c) && E.Inv(c, s.exp) && LedgerInv(s) && PaidFor(s)
    requires Reaches(c, carry, s, actions, t)
    ensures LedgerInv(t) && PaidFor(t)
    decreases |actions|
  {
    hide E.Inv, LedgerInv, PaidFor, Enabled, Next, E.Enabled, E.Next;
    if actions != [] {
      StepPays(c, carry, s, actions[0]);
      StepShadows(c, carry, s, actions[0]);
      E.StepKeepsInv(c, s.exp, Shadow(actions[0]));
      RunPays(c, carry, Next(c, carry, s, actions[0]), actions[1..], t);
    }
  }

  /** In every reachable state the rows with a decision, saved or in memory, are at most the settled attempts. */
  lemma EveryObservationIsSettled(c: E.Config, carry: L.Carry, actions: seq<Action>, t: State)
    requires E.ValidConfig(c) && Reaches(c, carry, INITIAL, actions, t) && t.events != []
    ensures Accepted(t.events)
    ensures var b := BookOf(t.events);
            var settled := CountStatus(b.order, b.entries, Settled);
            (t.exp.disk.report.Some? ==> Observed(t.exp.disk.report.value.rows) <= settled)
            && (t.exp.process.Live? ==> Observed(t.exp.process.rows) <= settled)
  {
    InitialInv(c);
    hide E.Inv, Observed, Reaches, Replay, CountStatus;
    RunPays(c, carry, INITIAL, actions, t);
    SettlesCountedOnce(t.events[1..]);
    assert t.events == t.events[..1] + t.events[1..];
    CountSettlesAppend(t.events[..1], t.events[1..]);
    HeaderSettlesNothing(t.events[..1]);
  }

  lemma HeaderSettlesNothing(header: seq<Event>)
    requires |header| == 1 && header[0].Budget?
    ensures CountSettles(header) == 0
  {
    assert header[..0] == [];
  }
}
