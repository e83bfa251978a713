/**
 Every run of the ledger: any interleaving of its calls with crashes and
 reopenings. A crash loses only the process, so it is the start of a `Reopen`.
 */
module LedgerRuns {
  import opened Options
  import opened Journal
  import opened SpendLedger
  import Reals

  datatype Action =
    | DoReserve(id: Id, provider: string)
    | DoSettle(id: Id, tokens: int, cost: Option<Usd>)
    | DoVoid(id: Id)
    | Reopen(requested: Usd)

  datatype State = State(events: seq<Event>, budget: Usd)

  /** Attempt identifiers are random and never repeat. */
  ghost predicate Possible(s: State, a: Action)
    requires Accepted(s.events)
  {
    a.DoReserve? ==> a.id !in BookOf(s.events).entries
  }

  ghost function Step(s: State, a: Action): State
    requires Accepted(s.events)
  {
    match a
    case DoReserve(id, provider) => s.(events := ReserveStep(s.events, s.budget, id, provider))
    case DoSettle(id, tokens, cost) => s.(events := SettleStep(s.events, id, tokens, cost))
    case DoVoid(id) => s.(events := VoidStep(s.events, id))
    case Reopen(requested) =>
      match Enter(s.events, requested)
      case Ok((lines, inForce)) => State(lines, inForce)
      case Err(_) => s
  }

  ghost predicate OneOpenPerProvider(b: Book) {
    forall x, y :: IsOpen(b, x) && IsOpen(b, y) && b.entries[x].provider == b.entries[y].provider ==> x == y
  }

  ghost predicate Inv(s: State) {
    && Accepted(s.events)
    && 0.0 < s.budget <= s.events[0].usd <= 700_000_000.0
    && OneOpenPerProvider(BookOf(s.events))
    && |BookOf(s.events).order| <= 300
  }

  /** A journal just created by the first opening. */
  ghost predicate Fresh(s: State) {
    exists requested :: Enter([], requested) == Ok((s.events, s.budget))
  }

  ghost predicate Reaches(s: State, actions: seq<Action>, t: State)
    requires Accepted(s.events)
    decreases |actions|
  {
    if actions == [] then s == t
    else Possible(s, actions[0]) && Accepted(Step(s, actions[0]).events)
         && Reaches(Step(s, actions[0]), actions[1..], t)
  }

  lemma FreshInv(s: State)
    requires Fresh(s)
    ensures Inv(s) && Accounted(BookOf(s.events)) == 0.0
  {
    var requested :| Enter([], requested) == Ok((s.events, s.budget));
    assert s.events[1..] == [];
  }

  /** The line a call appends, if its checks pass. */
  ghost function Line(s: State, a: Action): Option<Event>
    requires Accepted(s.events)
  {
    match a
    case DoReserve(id, provider) =>
      if ReserveRefusal(s.events, s.budget, provider).Some? then None
      else Some(Reserve(id, Bound(provider), provider))
    case DoSettle(id, tokens, cost) =>
      if SettleRefusal(s.events, id, tokens, cost).Some? then None else Some(Settle(id, Cost(tokens, cost)))
    case DoVoid(id) =>
      if VoidRefusal(s.events, id).Some? then None else Some(Void(id, 0.0))
    case Reopen(_) => None
  }

  lemma StepAppends(s: State, a: Action)
    requires Accepted(s.events) && Possible(s, a)
    ensures Accepted(Step(s, a).events)
    ensures Line(s, a).None? ==> Step(s, a).events == s.events
    ensures Line(s, a).Some? ==> Step(s, a) == State(s.events + [Line(s, a).value], s.budget)
    ensures Line(s, a).Some? ==> Apply(BookOf(s.events), Line(s, a).value) == Ok(BookOf(Step(s, a).events))
  {
    if Line(s, a).Some? {
      AppendAccepted(s.events, Line(s, a).value);
    } else if a.Reopen? && Enter(s.events, a.requested).Ok? {
      EnterAccepts(s.events, a.requested);
    }
  }

  lemma StepKeepsInv(s: State, a: Action)
    requires Inv(s) && Possible(s, a)
    ensures Inv(Step(s, a)) && Step(s, a).events[0] == s.events[0]
  {
    hide Accepted, Apply, Replay, Accounted, Total;
    StepAppends(s, a);
    if Line(s, a).Some? {
      var b, e := BookOf(s.events), Line(s, a).value;
      OpenAfter(b, e);
      ApplyTotals(b, e);
      assert e.Reserve? ==> !BlockedBy(b, e.provider) && |b.order| < REQUEST_CAP;
    } else if a.Reopen? && Enter(s.events, a.requested).Ok? {
      EnterAccepts(s.events, a.requested);
    }
  }

  /**
   Over every run from an empty journal: one open reservation per provider at most,
   300 attempts at most, and a budget in force that never exceeds the first one recorded.
   */
  lemma {:induction false} RunKeepsInv(s: State, actions: seq<Action>, t: State)
    requires Inv(s) && Reaches(s, actions, t)
    ensures Inv(t) && t.events[0] == s.events[0] && t.budget <= s.events[0].usd
    ensures s.events <= t.events
    decreases |actions|
  {
    if actions != [] {
      StepKeepsInv(s, actions[0]);
      StepAppends(s, actions[0]);
      var e := Line(s, actions[0]);
      RunKeepsInv(Step(s, actions[0]), actions[1..], t);
    }
  }

  /** The proviso: a settlement costs no more than the reservation it replaces. */
  ghost predicate WithinReservation(s: State, a: Action)
    requires Accepted(s.events)
  {
    a.DoSettle? && SettleRefusal(s.events, a.id, a.tokens, a.cost).None? ==>
      Cost(a.tokens, a.cost) <= BookOf(s.events).entries[a.id].usd
  }

  ghost predicate AllWithin(s: State, actions: seq<Action>)
    requires Accepted(s.events)
    decreases |actions|
  {
    actions != [] ==>
      && WithinReservation(s, actions[0])
      && Accepted(Step(s, actions[0]).events)
      && AllWithin(Step(s, actions[0]), actions[1..])
  }

  /** List-price settlements inside the context ceiling meet the proviso. */
  lemma ListPriceWithin(s: State, id: Id, tokens: int)
    requires Accepted(s.events) && IsOpen(BookOf(s.events), id)
    requires var p := BookOf(s.events).entries[id].provider; p in CONTEXT_CEILING ==> tokens <= CONTEXT_CEILING[p]
    ensures WithinReservation(s, DoSettle(id, tokens, None))
  {
    ReplayOpenAtBound(s.events[1..]);
    var ceiling := CONTEXT_CEILING[BookOf(s.events).entries[id].provider];
    assert tokens as real <= ceiling as real;
  }

  lemma StepKeepsSpend(s: State, a: Action)
    requires Inv(s) && Possible(s, a) && WithinReservation(s, a)
    requires Accounted(BookOf(s.events)) <= s.events[0].usd
    ensures Accepted(Step(s, a).events) && Accounted(BookOf(Step(s, a).events)) <= s.events[0].usd
  {
    StepAppends(s, a);
    if Line(s, a).Some? { ApplyTotals(BookOf(s.events), Line(s, a).value); }
  }

  /** Under the proviso the accounted spend never exceeds the first recorded budget. */
  lemma {:induction false} RunKeepsSpendCap(s: State, actions: seq<Action>, t: State)
    requires Inv(s) && Reaches(s, actions, t) && AllWithin(s, actions)
    requires Accounted(BookOf(s.events)) <= s.events[0].usd
    ensures Accepted(t.events) && Accounted(BookOf(t.events)) <= s.events[0].usd
    decreases |actions|
  {
    hide Accepted, Apply, Replay, Total;
    if actions != [] {
      StepKeepsInv(s, actions[0]);
      StepKeepsSpend(s, actions[0]);
      RunKeepsSpendCap(Step(s, actions[0]), actions[1..], t);
    }
  }

  /** The two together, for any run that began with an empty journal. */
  lemma FreshRunIsSafe(s: State, actions: seq<Action>, t: State)
    requires Fresh(s) && Accepted(s.events) && Reaches(s, actions, t)
    ensures Inv(t) && t.budget <= s.events[0].usd
    ensures AllWithin(s, actions) ==> Accounted(BookOf(t.events)) <= s.events[0].usd
  {
    FreshInv(s);
    RunKeepsInv(s, actions, t);
    if AllWithin(s, actions) { RunKeepsSpendCap(s, actions, t); }
  }

  /** Right after a granted reservation the spend is inside the budget then in force. */
  lemma ReserveWithinBudget(s: State, a: Action)
    requires Accepted(s.events) && Possible(s, a) && a.DoReserve? && Step(s, a) != s
    ensures Accepted(Step(s, a).events) && Accounted(BookOf(Step(s, a).events)) <= s.budget
  {
    StepAppends(s, a);
    var e := Line(s, a);
    ApplyTotals(BookOf(s.events), e.value);
  }

  /** A reservation of a known provider is refused exactly when granting it would break one of the limits. */
  lemma ReserveGrantedIff(s: State, id: Id, provider: string)
    requires Inv(s) && id !in BookOf(s.events).entries && provider in CONTEXT_CEILING
    ensures var after := s.events + [Reserve(id, Bound(provider), provider)];
            Accepted(after)
            && (Step(s, DoReserve(id, provider)).events == after <==>
                  OneOpenPerProvider(BookOf(after)) && |BookOf(after).order| <= REQUEST_CAP
                  && Accounted(BookOf(after)) <= s.budget)
  {
    hide Accepted, Total;
    var b, e := BookOf(s.events), Reserve(id, Bound(provider), provider);
    AppendAccepted(s.events, e);
    ApplyTotals(b, e);
    OpenAfter(b, e);
    var c := BookOf(s.events + [e]);
    if BlockedBy(b, provider) {
      var x :| x in b.entries && b.entries[x].status == Open && b.entries[x].provider == provider;
      assert IsOpen(b, x) && IsOpen(c, x) && IsOpen(c, id) && c.entries[x].provider == c.entries[id].provider;
    }
    assert s.events != s.events + [e];
  }

  /**
   Without the proviso the cap can break, and this is exactly when: a settlement
   keeps the spend within the recorded budget iff its excess over the reservation
   fits the headroom the ledger had before the call.
   */
  lemma SettleKeepsCapIff(s: State, a: Action)
    requires Inv(s) && a.DoSettle? && SettleRefusal(s.events, a.id, a.tokens, a.cost).None?
    ensures Accepted(Step(s, a).events)
    ensures Accounted(BookOf(Step(s, a).events)) <= s.events[0].usd
       <==> Cost(a.tokens, a.cost) - BookOf(s.events).entries[a.id].usd
              <= s.events[0].usd - Accounted(BookOf(s.events))
  {
    StepAppends(s, a);
    var e := Line(s, a);
    ApplyTotals(BookOf(s.events), e.value);
  }

  lemma TwoSteps(s: State, a: Action, u: State, b: Action, t: State)
    requires Accepted(s.events) && Possible(s, a) && u == Step(s, a)
    requires Accepted(u.events) && Possible(u, b) && t == Step(u, b) && Accepted(t.events)
    ensures Reaches(s, [a, b], t)
  {
    hide Accepted, Step, Possible;
    assert [a, b][1..] == [b] && [b][1..] == [];
    assert Reaches(t, [], t);
    assert Reaches(u, [b], t);
  }

  /** An openrouter attempt is settled at whatever the provider reports, and accounted so. */
  lemma ChargeIsAccounted(s: State, id: Id, tokens: int, cost: Usd)
    requires Accepted(s.events) && IsOpen(BookOf(s.events), id) && tokens > 0 && cost >= 0.0
    ensures var t := Step(s, DoSettle(id, tokens, Some(cost)));
            Accepted(t.events) && t.events == s.events + [Settle(id, cost)]
            && Accounted(BookOf(t.events)) == Accounted(BookOf(s.events)) - BookOf(s.events).entries[id].usd + cost
  {
    var a := DoSettle(id, tokens, Some(cost));
    StepAppends(s, a);
    ApplyTotals(BookOf(s.events), Line(s, a).value);
  }

  /** A provider that bills a thousand dollars for its first answer breaks the cap. */
  lemma OverchargeBreaksCap()
    ensures exists s, actions, t :: Fresh(s) && Accepted(s.events) && Reaches(s, actions, t)
              && Accepted(t.events) && Accounted(BookOf(t.events)) > t.events[0].usd
  {
    hide Total;
    var s := State([Budget(SPEND_CAP, MODEL)], SPEND_CAP);
    assert Enter([], SPEND_CAP) == Ok((s.events, s.budget));
    FreshInv(s);
    assert BookOf(s.events) == EMPTY;
    hide Accepted, Replay, Enter;
    var a := DoReserve("a", "openrouter");
    var b := DoSettle("a", 1, Some(1_000_000_000_000.0));
    var u := Step(s, a);
    StepAppends(s, a);
    AppendReserve(s.events, "a", "openrouter");
    ApplyTotals(BookOf(s.events), Line(s, a).value);
    assert u.events == s.events + [Reserve("a", Bound("openrouter"), "openrouter")];
    ChargeIsAccounted(u, "a", 1, 1_000_000_000_000.0);
    TwoSteps(s, a, u, b, Step(u, b));
  }

  /** Reopening shows the same journal totals; only the budget can differ, and only downward. */
  lemma ReopenSameTotals(s: State, requested: Usd)
    requires Inv(s) && ValidBudget(requested)
    ensures Step(s, Reopen(requested)) == State(s.events, Reals.Min(requested, s.events[0].usd))
  {
    assert s.events[..|s.events|] == s.events;
    ReopenAfterCrash(s.events, |s.events|, requested);
  }
}
