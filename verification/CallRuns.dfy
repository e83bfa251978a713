/** A call with its retries, and any cut a crash makes in it, is a run of the stage's ledger. */
module CallRuns {
  import opened Options
  import opened Journal
  import opened SpendLedger
  import opened CumulativeLedger
  import opened JevCalls
  import Routing

  lemma {:induction false} ReachesStep(
      s: State, carry: Carry, actions: seq<Action>, t: State, a: Action)
    requires Accepted(s.events) && Reaches(s, carry, actions, t)
    requires Accepted(t.events) && Possible(t, a) && Accepted(Step(t, carry, a).events)
    ensures Reaches(s, carry, actions + [a], Step(t, carry, a))
    decreases |actions|
  {
    hide Accepted, Step, Possible;
    if actions == [] {
      assert [] + [a] == [a] && [a][1..] == [];
      assert Reaches(Step(t, carry, a), carry, [], Step(t, carry, a));
    } else {
      ReachesStep(Step(s, carry, actions[0]), carry, actions[1..], t, a);
      assert (actions + [a])[0] == actions[0] && (actions + [a])[1..] == actions[1..] + [a];
    }
  }

  ghost predicate NoReopening(actions: seq<Action>) {
    forall a :: a in actions ==> !a.Reopen?
  }

  ghost predicate RunVia(start: seq<Event>, end: seq<Event>, budget: Usd, carry: Carry, actions: seq<Action>)
    requires Accepted(start)
  {
    NoReopening(actions) && Reaches(State(start, budget), carry, actions, State(end, budget))
  }

  /** One process takes the journal from `start` to `end` by calls on the stage's ledger. */
  ghost predicate LedgerRun(start: seq<Event>, end: seq<Event>, budget: Usd, carry: Carry) {
    Accepted(start) && Accepted(end) && exists actions :: RunVia(start, end, budget, carry, actions)
  }

  lemma RunNothing(start: seq<Event>, budget: Usd, carry: Carry)
    requires Accepted(start)
    ensures LedgerRun(start, start, budget, carry)
  {
    assert RunVia(start, start, budget, carry, []);
  }

  lemma RunStep(start: seq<Event>, before: seq<Event>, after: seq<Event>, budget: Usd, carry: Carry, a: Action)
    requires LedgerRun(start, before, budget, carry) && !a.Reopen?
    requires Possible(State(before, budget), a) && Step(State(before, budget), carry, a) == State(after, budget)
    requires Accepted(after)
    ensures LedgerRun(start, after, budget, carry)
  {
    hide Accepted, Possible, Step, Reaches;
    var actions :| RunVia(start, before, budget, carry, actions);
    ReachesStep(State(start, budget), carry, actions, State(before, budget), a);
    assert RunVia(start, after, budget, carry, actions + [a]);
  }

  lemma RunGrant(start: seq<Event>, before: seq<Event>, budget: Usd, carry: Carry, id: Id)
    requires LedgerRun(start, before, budget, carry) && id !in BookOf(before).entries
    requires Refusal(before, budget, carry, OPENROUTER).None?
    ensures var after := before + [Event.Reserve(id, Bound(OPENROUTER), OPENROUTER)];
            LedgerRun(start, after, budget, carry)
            && IsOpen(BookOf(after), id) && BookOf(after).entries.Keys == BookOf(before).entries.Keys + {id}
  {
    AppendReserve(before, id, OPENROUTER);
    RunStep(start, before, before + [Event.Reserve(id, Bound(OPENROUTER), OPENROUTER)], budget, carry,
            DoReserve(id, OPENROUTER));
  }

  lemma RunClose(start: seq<Event>, before: seq<Event>, budget: Usd, carry: Carry, a: Action)
    requires LedgerRun(start, before, budget, carry) && (a.DoVoid? || a.DoSettle?) && IsOpen(BookOf(before), a.id)
    requires a.DoSettle? ==> a.tokens > 0 && a.cost.Some? && a.cost.value >= 0.0
    ensures var after := before + [if a.DoVoid? then Event.Void(a.id, 0.0) else Event.Settle(a.id, a.cost.value)];
            LedgerRun(start, after, budget, carry)
            && BookOf(after).entries.Keys == BookOf(before).entries.Keys
  {
    var e := if a.DoVoid? then Event.Void(a.id, 0.0) else Event.Settle(a.id, a.cost.value);
    AppendClose(before, e);
    RunStep(start, before, before + [e], budget, carry, a);
  }

  /** One attempt reserved and voided. */
  lemma RunRetire(start: seq<Event>, before: seq<Event>, budget: Usd, carry: Carry, id: Id)
    requires LedgerRun(start, before, budget, carry) && id !in BookOf(before).entries
    requires Refusal(before, budget, carry, OPENROUTER).None?
    ensures var after := before + [Event.Reserve(id, Bound(OPENROUTER), OPENROUTER), Event.Void(id, 0.0)];
            LedgerRun(start, after, budget, carry)
            && BookOf(after).entries.Keys == BookOf(before).entries.Keys + {id}
  {
    hide Accepted, Refusal, IsOpen, LedgerRun;
    RunGrant(start, before, budget, carry, id);
    var reserve, void := Event.Reserve(id, Bound(OPENROUTER), OPENROUTER), Event.Void(id, 0.0);
    RunClose(start, before + [reserve], budget, carry, DoVoid(id));
    assert before + [reserve] + [void] == before + [reserve, void];
  }

  /** The identifiers of the first `n` attempts. */
  function FirstIds(ids: seq<Id>, n: nat): set<Id>
    requires n <= |ids|
  {
    set i | 0 <= i < n :: ids[i]
  }

  lemma NextId(start: seq<Event>, ids: seq<Id>, n: nat)
    requires Accepted(start) && FreshIds(start, ids) && n < |ids|
    ensures ids[n] !in BookOf(start).entries && ids[n] !in FirstIds(ids, n)
    ensures FirstIds(ids, n + 1) == FirstIds(ids, n) + {ids[n]}
  {
  }

  /** The rejected attempts of a call, each reserved and voided. */
  lemma {:induction false} RetiredRun(start: seq<Event>, ids: seq<Id>, n: nat, budget: Usd, carry: Carry)
    requires Accepted(start) && FreshIds(start, ids) && n <= |ids|
    requires forall i :: 0 <= i < n ==> Granted(start, ids, i, budget, carry)
    ensures LedgerRun(start, start + Retired(ids, n), budget, carry)
    ensures BookOf(start + Retired(ids, n)).entries.Keys <= BookOf(start).entries.Keys + FirstIds(ids, n)
  {
    hide Accepted, Refusal, IsOpen, LedgerRun, FirstIds, FreshIds, Bound, Retired;
    if n == 0 {
      NoneRetired(start, ids, budget, carry);
      RunNothing(start, budget, carry);
    } else {
      RetiredRun(start, ids, n - 1, budget, carry);
      NextId(start, ids, n - 1);
      assert Granted(start, ids, n - 1, budget, carry);
      RunRetire(start, start + Retired(ids, n - 1), budget, carry, ids[n - 1]);
      RetiredNext(start, ids, n);
    }
  }

  lemma RetiredNext(start: seq<Event>, ids: seq<Id>, n: nat)
    requires 0 < n <= |ids|
    ensures start + Retired(ids, n) == start + Retired(ids, n - 1)
              + [Event.Reserve(ids[n - 1], Bound(OPENROUTER), OPENROUTER), Event.Void(ids[n - 1], 0.0)]
  {
  }

  /** The lines of one request. */
  lemma RequestRun(start: seq<Event>, before: seq<Event>, budget: Usd, carry: Carry, id: Id, reply: Reply)
    requires LedgerRun(start, before, budget, carry) && Accepted(before) && id !in BookOf(before).entries
    ensures LedgerRun(start, before + CallLines(before, budget, carry, id, reply), budget, carry)
  {
    hide Accepted, Refusal, IsOpen, LedgerRun;
    if Refusal(before, budget, carry, OPENROUTER).Some? {
      assert before + [] == before;
    } else {
      RunGrant(start, before, budget, carry, id);
      var reserve := Event.Reserve(id, Bound(OPENROUTER), OPENROUTER);
      if reply.Billable() {
        RunClose(start, before + [reserve], budget, carry, DoSettle(id, reply.tokens.value, reply.cost));
        assert before + [reserve] + [Event.Settle(id, reply.cost.value)]
            == before + CallLines(before, budget, carry, id, reply);
      } else {
        assert [reserve] + [] == [reserve];
      }
    }
  }

  lemma AllGranted(start: seq<Event>, ids: seq<Id>, n: nat, budget: Usd, carry: Carry)
    requires Accepted(start) && n <= |ids| && RetiredSo(start, ids, n, budget, carry)
    ensures forall i :: 0 <= i < n ==> Granted(start, ids, i, budget, carry)
  {
    hide Accepted, Granted, Retired, IsOpen;
  }

  /** A whole call is a run of the stage's ledger. */
  lemma CallIsRun(
      start: seq<Event>, end: seq<Event>, budget: Usd, carry: Carry,
      ids: seq<Id>, replies: seq<Reply>, r: Result<Routing.Decision>, n: nat)
    requires Accepted(start) && FreshIds(start, ids) && |ids| == LAST_ATTEMPT == |replies|
    requires RetryOutcome(start, end, budget, carry, ids, replies, r, n)
    ensures LedgerRun(start, end, budget, carry)
  {
    hide Accepted, Refusal, FreshIds, Granted, CallLines, LedgerRun;
    hide TransientStop, ReplyResult, Retired, RetiredSo, GrandTotal;
    var before := start + Retired(ids, n - 1);
    AllGranted(start, ids, n - 1, budget, carry);
    NextIsFresh(start, ids, n - 1, budget, carry);
    RetiredRun(start, ids, n - 1, budget, carry);
    if Refusal(before, budget, carry, OPENROUTER).None? {
      if TransientStop(r) {
        AllGranted(start, ids, n, budget, carry);
        RetiredRun(start, ids, n, budget, carry);
      } else {
        RequestRun(start, before, budget, carry, ids[n - 1], replies[n - 1]);
      }
    }
  }

  lemma StepGrows(s: State, carry: Carry, a: Action)
    requires Accepted(s.events) && Possible(s, a) && !a.Reopen?
    ensures Accepted(Step(s, carry, a).events)
    ensures Step(s, carry, a).budget == s.budget && |Step(s, carry, a).events| <= |s.events| + 1
    ensures s.events <= Step(s, carry, a).events
  {
    StepAppends(s, carry, a);
  }

  lemma {:induction false} RunGrows(s: State, carry: Carry, actions: seq<Action>, t: State)
    requires Accepted(s.events) && Reaches(s, carry, actions, t) && NoReopening(actions)
    ensures s.events <= t.events && t.budget == s.budget
    decreases |actions|
  {
    hide Accepted, Step, Possible;
    if actions != [] {
      StepGrows(s, carry, actions[0]);
      RunGrows(Step(s, carry, actions[0]), carry, actions[1..], t);
    }
  }

  /** However far a run has come, what a crash leaves of it is a run too. */
  lemma {:induction false} CutReaches(s: State, carry: Carry, actions: seq<Action>, t: State, k: nat)
    returns (some: seq<Action>)
    requires Accepted(s.events) && Reaches(s, carry, actions, t) && NoReopening(actions)
    requires |s.events| <= k <= |t.events|
    ensures NoReopening(some) && Reaches(s, carry, some, State(t.events[..k], s.budget))
    decreases |actions|
  {
    hide Accepted, Step, Possible;
    RunGrows(s, carry, actions, t);
    if k == |s.events| {
      assert t.events[..k] == s.events;
      some := [];
    } else {
      StepGrows(s, carry, actions[0]);
      var rest := CutReaches(Step(s, carry, actions[0]), carry, actions[1..], t, k);
      some := [actions[0]] + rest;
      assert some[1..] == rest;
    }
  }

  /**
   A call made within the stage's limits leaves a journal within them, at its end and wherever
   a crash cuts it: one open reservation at most, 550 attempts at most.
   */
  lemma CallKeepsLimits(
      start: seq<Event>, end: seq<Event>, budget: Usd, carry: Carry,
      ids: seq<Id>, replies: seq<Reply>, r: Result<Routing.Decision>, n: nat, k: nat)
    requires Inv(State(start, budget)) && FreshIds(start, ids) && |ids| == LAST_ATTEMPT == |replies|
    requires RetryOutcome(start, end, budget, carry, ids, replies, r, n)
    ensures start <= end && Inv(State(end, budget))
    ensures |start| <= k <= |end| ==> start <= end[..k] && Inv(State(end[..k], budget))
  {
    hide Accepted, FreshIds, RetryOutcome, Reaches, NoReopening, OneOpen;
    CallIsRun(start, end, budget, carry, ids, replies, r, n);
    var actions :| RunVia(start, end, budget, carry, actions);
    RunGrows(State(start, budget), carry, actions, State(end, budget));
    RunKeepsInv(State(start, budget), carry, actions, State(end, budget));
    if |start| <= k <= |end| {
      var some := CutReaches(State(start, budget), carry, actions, State(end, budget), k);
      RunKeepsInv(State(start, budget), carry, some, State(end[..k], budget));
    }
  }

  /** Once a call has taken the total past the limit, its settlement is the last line any later run can leave. */
  lemma OverspendingCallIsLast(
      start: seq<Event>, end: seq<Event>, budget: Usd, carry: Carry,
      ids: seq<Id>, replies: seq<Reply>, r: Result<Routing.Decision>, n: nat, later: seq<Action>, t: State)
    requires Inv(State(start, budget)) && FreshIds(start, ids) && |ids| == LAST_ATTEMPT == |replies|
    requires RetryOutcome(start, end, budget, carry, ids, replies, r, n)
    requires Accepted(end) && !SomethingOpen(BookOf(end))
    requires Total(BookOf(end), Settled) + Total(BookOf(end), Open) + carry.priced + carry.unresolved > 50_000_000.0
    requires Reaches(State(end, budget), carry, later, t)
    ensures t.events == end
  {
    hide RetryOutcome, FreshIds;
    CallKeepsLimits(start, end, budget, carry, ids, replies, r, n, |end|);
    ExhaustedForever(State(end, budget), carry, later, t);
  }
}
