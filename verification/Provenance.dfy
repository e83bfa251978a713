/** Where every decision in memory or in the report comes from: the paid call that was made at its row. */
module Provenance {
  import opened Options
  import opened Journal
  import opened PaidRuns
  import E = Experiment
  import L = CumulativeLedger
  import Routing

  /** The report holds the decision `d` at row `i`, paid for with `n` attempts. */
  predicate Reported(s: E.State, i: nat, d: Routing.Decision, n: nat) {
    s.disk.report.Some? && i < |s.disk.report.value.rows|
    && s.disk.report.value.rows[i].jev == Some(d) && s.disk.report.value.rows[i].attempts == n
  }

  predicate Remembered(s: E.State, i: nat, d: Routing.Decision, n: nat) {
    s.process.Live? && i < |s.process.rows| && s.process.rows[i].jev == Some(d) && s.process.rows[i].attempts == n
  }

  predicate Held(s: E.State, i: nat, d: Routing.Decision, n: nat) {
    Reported(s, i, d, n) || Remembered(s, i, d, n)
  }

  /** The step writes down a decision at the row where the loop stands. */
  predicate Writes(s: E.State, a: E.Action, i: nat, d: Routing.Decision, n: nat) {
    s.process.Live? && s.process.pos == i && (a == E.Observe(d, n) || a == E.Halt(Some((d, n))))
  }

  lemma StartHolds(c: E.Config, s: E.State, a: E.Action, i: nat, d: Routing.Decision, n: nat)
    requires E.ValidConfig(c) && E.Inv(c, s) && a.Start? && E.Enabled(c, s, a) && Held(E.Next(c, s, a), i, d, n)
    ensures Held(s, i, d, n)
  {
    if Remembered(E.Next(c, s, a), i, d, n) { E.RestoreRereads(c, s.disk, a.rules, i); }
  }

  lemma StepHolds(c: E.Config, s: E.State, a: E.Action, i: nat, d: Routing.Decision, n: nat)
    requires E.ValidConfig(c) && E.Inv(c, s) && E.Enabled(c, s, a) && Held(E.Next(c, s, a), i, d, n)
    ensures Held(s, i, d, n) || Writes(s, a, i, d, n)
  {
    if a.Start? {
      StartHolds(c, s, a, i, d, n);
    } else {
      hide E.Inv, E.CheckpointDue, E.OfSplit, Routing.Select, E.RestoredRows, E.Startable, E.ValidConfig;
    }
  }

  /** Some call of the run was made at row `i`, and returned the decision `d` after `n` attempts. */
  ghost predicate PaidAt(
      c: E.Config, carry: L.Carry, s: State, actions: seq<Action>, i: nat, d: Routing.Decision, n: nat)
    decreases |actions|
  {
    actions != [] && Enabled(c, carry, s, actions[0])
    && ((actions[0].Paid? && s.exp.process.Live? && s.exp.process.pos == i
         && actions[0].call.r == Ok(d) && actions[0].call.n == n)
        || PaidAt(c, carry, Next(c, carry, s, actions[0]), actions[1..], i, d, n))
  }

  lemma PaidStepHolds(c: E.Config, carry: L.Carry, s: State, a: Action, i: nat, d: Routing.Decision, n: nat)
    requires E.ValidConfig(c) && E.Inv(c, s.exp) && LedgerInv(s) && Enabled(c, carry, s, a)
    requires Held(Next(c, carry, s, a).exp, i, d, n)
    ensures Held(s.exp, i, d, n)
            || (a.Paid? && s.exp.process.Live? && s.exp.process.pos == i && a.call.r == Ok(d) && a.call.n == n)
  {
    StepShadows(c, carry, s, a);
    StepHolds(c, s.exp, Shadow(a), i, d, n);
    hide Held, E.Inv, LedgerInv, E.Enabled, E.Next, IsCall;
  }

  lemma {:induction false} RunHolds(
      c: E.Config, carry: L.Carry, s: State, actions: seq<Action>, t: State, i: nat, d: Routing.Decision, n: nat)
    requires E.ValidConfig(c) && E.Inv(c, s.exp) && LedgerInv(s) && Reaches(c, carry, s, actions, t)
    requires Held(t.exp, i, d, n)
    ensures Held(s.exp, i, d, n) || PaidAt(c, carry, s, actions, i, d, n)
    decreases |actions|
  {
    hide Held, E.Inv, LedgerInv, Enabled, Next, E.Enabled, E.Next;
    if actions != [] {
      var u := Next(c, carry, s, actions[0]);
      StepShadows(c, carry, s, actions[0]);
      E.StepKeepsInv(c, s.exp, Shadow(actions[0]));
      RunHolds(c, carry, u, actions[1..], t, i, d, n);
      if Held(u.exp, i, d, n) { PaidStepHolds(c, carry, s, actions[0], i, d, n); }
    }
  }

  /**
   Over every joint run from nothing, however it was killed and restarted: a decision held at a row,
   in memory or in the report, is the one some paid call made at that row returned, with its attempts.
   */
  lemma EveryDecisionWasPaidAtItsRow(
      c: E.Config, carry: L.Carry, actions: seq<Action>, t: State, i: nat, d: Routing.Decision, n: nat)
    requires E.ValidConfig(c) && Reaches(c, carry, INITIAL, actions, t)
    requires Reported(t.exp, i, d, n) || Remembered(t.exp, i, d, n)
    ensures PaidAt(c, carry, INITIAL, actions, i, d, n)
  {
    hide Reaches, PaidAt;
    InitialInv(c);
    RunHolds(c, carry, INITIAL, actions, t, i, d, n);
  }

  /** A decision beside the name of another model, or of none. */
  ghost predicate Odd(s: E.State, i: nat, d: Routing.Decision) {
    (exists n :: Reported(s, i, d, n) && s.disk.report.value.served != Some(d.servedModel))
    || (exists n :: Remembered(s, i, d, n) && s.process.served != Some(d.servedModel))
  }

  /** Some stop of the run, for a changed model, kept this decision at row `i`. */
  ghost predicate KeptByStop(c: E.Config, s: E.State, actions: seq<E.Action>, i: nat, d: Routing.Decision)
    decreases |actions|
  {
    actions != [] && E.Enabled(c, s, actions[0])
    && ((s.process.Live? && s.process.pos == i
         && actions[0].Halt? && actions[0].paid.Some? && actions[0].paid.value.0 == d
         && s.process.served.Some? && s.process.served.value != d.servedModel)
        || KeptByStop(c, E.Next(c, s, actions[0]), actions[1..], i, d))
  }

  lemma StepOdd(c: E.Config, s: E.State, a: E.Action, i: nat, d: Routing.Decision)
    requires E.ValidConfig(c) && E.Inv(c, s) && E.Enabled(c, s, a) && Odd(E.Next(c, s, a), i, d)
    ensures Odd(s, i, d)
            || (s.process.Live? && s.process.pos == i && a.Halt? && a.paid.Some? && a.paid.value.0 == d
                && s.process.served.Some? && s.process.served.value != d.servedModel)
  {
    var t := E.Next(c, s, a);
    if n :| Reported(t, i, d, n) && t.disk.report.value.served != Some(d.servedModel) {
      OddStep(c, s, a, i, d, n);
    } else if n :| Remembered(t, i, d, n) && t.process.served != Some(d.servedModel) {
      OddStep(c, s, a, i, d, n);
    }
  }

  lemma OddStep(c: E.Config, s: E.State, a: E.Action, i: nat, d: Routing.Decision, n: nat)
    requires E.ValidConfig(c) && E.Inv(c, s) && E.Enabled(c, s, a)
    requires var t := E.Next(c, s, a);
             (Reported(t, i, d, n) && t.disk.report.value.served != Some(d.servedModel))
             || (Remembered(t, i, d, n) && t.process.served != Some(d.servedModel))
    ensures Odd(s, i, d)
            || (s.process.Live? && s.process.pos == i && a.Halt? && a.paid.Some? && a.paid.value.0 == d
                && s.process.served.Some? && s.process.served.value != d.servedModel)
  {
    var t := E.Next(c, s, a);
    if a.Start? {
      if i < |c.cases| { E.RestoreRereads(c, s.disk, a.rules, i); }
      assert Remembered(t, i, d, n) ==> Reported(s, i, d, n);
    } else {
      hide E.Inv, E.CheckpointDue, E.OfSplit, Routing.Select, E.RestoredRows, E.Startable, E.ValidConfig;
      if Remembered(t, i, d, n) && t.process.served != Some(d.servedModel) {
        assert Remembered(s, i, d, n);
      } else if a.Save? || a.Complete? || a.Halt? {
        assert i == s.process.pos || Remembered(s, i, d, n);
      } else {
        assert Reported(s, i, d, n);
      }
    }
  }

  lemma {:induction false} RunOdd(
      c: E.Config, s: E.State, actions: seq<E.Action>, t: E.State, i: nat, d: Routing.Decision)
    requires E.ValidConfig(c) && E.Inv(c, s) && E.Reaches(c, s, actions, t) && Odd(t, i, d)
    ensures Odd(s, i, d) || KeptByStop(c, s, actions, i, d)
    decreases |actions|
  {
    hide Odd, E.Inv, E.Enabled, E.Next;
    if actions != [] {
      var u := E.Next(c, s, actions[0]);
      E.StepKeepsInv(c, s, actions[0]);
      RunOdd(c, u, actions[1..], t, i, d);
      if Odd(u, i, d) { StepOdd(c, s, actions[0], i, d); }
    }
  }

  /**
   Over every run from nothing all decisions in a report come from the one model the report names,
   but for those that a stop for a changed model has kept; and so in memory.
   */
  lemma OneModelButForStops(
      c: E.Config, actions: seq<E.Action>, t: E.State, i: nat, d: Routing.Decision, n: nat)
    requires E.ValidConfig(c) && E.Reaches(c, E.INITIAL, actions, t)
    ensures Reported(t, i, d, n) ==>
      t.disk.report.value.served == Some(d.servedModel) || KeptByStop(c, E.INITIAL, actions, i, d)
    ensures Remembered(t, i, d, n) ==>
      t.process.served == Some(d.servedModel) || KeptByStop(c, E.INITIAL, actions, i, d)
  {
    hide E.Reaches, KeptByStop;
    InitialInv(c);
    if Odd(t, i, d) { RunOdd(c, E.INITIAL, actions, t, i, d); }
  }

  predicate HoldsRule(s: E.State, i: nat, rule: Routing.Rule) {
    (s.disk.report.Some? && i < |s.disk.report.value.rows| && s.disk.report.value.rows[i].rule == rule)
    || (s.process.Live? && i < |s.process.rows| && s.process.rows[i].rule == rule)
  }

  /** Some process of the run was started with this rule decision for row `i`. */
  ghost predicate RoutedAt(c: E.Config, s: E.State, actions: seq<E.Action>, i: nat, rule: Routing.Rule)
    decreases |actions|
  {
    actions != [] && E.Enabled(c, s, actions[0])
    && ((actions[0].Start? && i < |actions[0].rules| && actions[0].rules[i] == rule)
        || RoutedAt(c, E.Next(c, s, actions[0]), actions[1..], i, rule))
  }

  lemma StepHoldsRule(c: E.Config, s: E.State, a: E.Action, i: nat, rule: Routing.Rule)
    requires E.ValidConfig(c) && E.Inv(c, s) && E.Enabled(c, s, a) && HoldsRule(E.Next(c, s, a), i, rule)
    ensures HoldsRule(s, i, rule) || (a.Start? && i < |a.rules| && a.rules[i] == rule)
  {
    if a.Start? {
      if i < |c.cases| { E.RestoreRereads(c, s.disk, a.rules, i); }
    } else {
      hide E.Inv, E.CheckpointDue, E.OfSplit, Routing.Select, E.RestoredRows, E.Startable, E.ValidConfig;
    }
  }

  /** Over every run from nothing, the rule decision at a row is the router's of one of the processes. */
  lemma {:induction false} EveryRuleWasRouted(
      c: E.Config, s: E.State, actions: seq<E.Action>, t: E.State, i: nat, rule: Routing.Rule)
    requires E.ValidConfig(c) && E.Inv(c, s) && E.Reaches(c, s, actions, t) && HoldsRule(t, i, rule)
    ensures HoldsRule(s, i, rule) || RoutedAt(c, s, actions, i, rule)
    decreases |actions|
  {
    hide HoldsRule, E.Inv, E.Enabled, E.Next;
    if actions != [] {
      var u := E.Next(c, s, actions[0]);
      E.StepKeepsInv(c, s, actions[0]);
      EveryRuleWasRouted(c, u, actions[1..], t, i, rule);
      if HoldsRule(u, i, rule) { StepHoldsRule(c, s, actions[0], i, rule); }
    }
  }
}
