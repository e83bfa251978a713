/**
 The stricter ledger of the robustness stage: a fixed carry of historical
 spending counts against its cap, one reservation is open at most, and 550
 attempts are the limit.
 */
module CumulativeLedger {
  import opened Options
  import opened Journal
  import opened SpendLedger

  const LIMIT: Usd := 50_000_000.0
  const MAX_ATTEMPTS: nat := 550

  /** The historical ledger's known and still unresolved spending. */
  datatype Carry = Carry(priced: Usd, unresolved: Usd)

  ghost predicate SomethingOpen(b: Book) {
    exists id :: IsOpen(b, id)
  }

  /** History plus this stage. */
  function GrandTotal(b: Book, carry: Carry): Usd
    requires WellFormed(b)
  {
    (Total(b, Settled) + carry.priced) + (Total(b, Open) + carry.unresolved)
  }

  ghost function Refusal(events: seq<Event>, budget: Usd, carry: Carry, provider: string): Option<Error>
    requires Accepted(events)
  {
    var b := BookOf(events);
    if provider != "openrouter" then Some(Stop(UnexpectedProvider))
    else if SomethingOpen(b) then Some(Stop(UnresolvedPreviousAttempt))
    else if |b.order| >= MAX_ATTEMPTS then Some(Stop(RequestCapReached))
    else if GrandTotal(b, carry) + Bound(provider) > budget then Some(Stop(BudgetExhausted))
    else None
  }

  /** Which refusal an openrouter reservation meets, and when it meets none. */
  lemma RefusedBecause(events: seq<Event>, budget: Usd, carry: Carry)
    requires Accepted(events)
    ensures var b, refusal := BookOf(events), Refusal(events, budget, carry, "openrouter");
            var fits := Total(b, Settled) + Total(b, Open) + carry.priced + carry.unresolved + 11_010_048.0 <= budget;
            && (refusal == Some(Stop(UnresolvedPreviousAttempt)) <==> SomethingOpen(b))
            && (refusal == Some(Stop(RequestCapReached)) <==> !SomethingOpen(b) && |b.order| >= 550)
            && (refusal == Some(Stop(BudgetExhausted)) <==> !SomethingOpen(b) && |b.order| < 550 && !fits)
            && (refusal.None? <==> !SomethingOpen(b) && |b.order| < 550 && fits)
            && (refusal.Some? ==> refusal.value.Stop?)
  {
  }

  ghost function CumulativeStep(events: seq<Event>, budget: Usd, carry: Carry, id: Id, provider: string): seq<Event>
    requires Accepted(events)
  {
    if Refusal(events, budget, carry, provider).Some? then events
    else events + [Reserve(id, Bound(provider), provider)]
  }

  lemma CumulativeKeepsAccepted(events: seq<Event>, budget: Usd, carry: Carry, id: Id, provider: string)
    requires Accepted(events) && id !in BookOf(events).entries
    ensures Accepted(CumulativeStep(events, budget, carry, id, provider))
  {
    if Refusal(events, budget, carry, provider).None? {
      AppendAccepted(events, Reserve(id, Bound(provider), provider));
    }
  }

  class Stage {
    const base: Ledger
    const carry: Carry

    constructor (base: Ledger, carry: Carry)
      requires base.Valid() && base.budget <= LIMIT
      ensures this.base == base && this.carry == carry
    {
      this.base, this.carry := base, carry;
    }

    ghost predicate Valid()
      reads base, base.file
    {
      base.Valid() && base.budget <= LIMIT
    }

    method Reserve(id: Id, provider: string) returns (r: Result<Id>)
      requires Valid() && id !in BookOf(base.events).entries
      modifies base`events, base.file
      ensures Valid() && base.events == CumulativeStep(old(base.events), base.budget, carry, id, provider)
      ensures match Refusal(old(base.events), base.budget, carry, provider)
              case Some(e) => r == Err(e)
              case None => r == Ok(id)
    {
      CumulativeKeepsAccepted(base.events, base.budget, carry, id, provider);
      if provider != "openrouter" {
        return Err(Stop(UnexpectedProvider));
      }
      var s, book := base.Summarize();
      if exists x :: x in book.entries && book.entries[x].status == Open {
        var x :| x in book.entries && book.entries[x].status == Open;
        assert IsOpen(book, x);
        return Err(Stop(UnresolvedPreviousAttempt));
      }
      if s.attempts >= MAX_ATTEMPTS {
        return Err(Stop(RequestCapReached));
      }
      if (s.priced + carry.priced) + (s.unresolved + carry.unresolved) + Bound(provider) > base.budget {
        return Err(Stop(BudgetExhausted));
      }
      base.Append(Event.Reserve(id, Bound(provider), provider));
      return Ok(id);
    }
  }

  /** Calls on the stage's ledger; a reopening always asks for the same limit. */
  datatype Action =
    | DoReserve(id: Id, provider: string)
    | DoSettle(id: Id, tokens: int, cost: Option<Usd>)
    | DoVoid(id: Id)
    | Reopen

  datatype State = State(events: seq<Event>, budget: Usd)

  ghost predicate Possible(s: State, a: Action)
    requires Accepted(s.events)
  {
    a.DoReserve? ==> a.id !in BookOf(s.events).entries
  }

  ghost function Step(s: State, carry: Carry, a: Action): State
    requires Accepted(s.events)
  {
    match a
    case DoReserve(id, provider) => s.(events := CumulativeStep(s.events, s.budget, carry, id, provider))
    case DoSettle(id, tokens, cost) => s.(events := SettleStep(s.events, id, tokens, cost))
    case DoVoid(id) => s.(events := VoidStep(s.events, id))
    case Reopen =>
      match Enter(s.events, LIMIT)
      case Ok((lines, inForce)) => State(lines, inForce)
      case Err(_) => s
  }

  ghost predicate Reaches(s: State, carry: Carry, actions: seq<Action>, t: State)
    requires Accepted(s.events)
    decreases |actions|
  {
    if actions == [] then s == t
    else Possible(s, actions[0]) && Accepted(Step(s, carry, actions[0]).events)
         && Reaches(Step(s, carry, actions[0]), carry, actions[1..], t)
  }

  ghost predicate OneOpen(b: Book) {
    forall x, y :: IsOpen(b, x) && IsOpen(b, y) ==> x == y
  }

  ghost predicate Inv(s: State) {
    && Accepted(s.events)
    && 0.0 < s.budget <= 50_000_000.0
    && OneOpen(BookOf(s.events))
    && |BookOf(s.events).order| <= 550
  }

  ghost function Line(s: State, carry: Carry, a: Action): Option<Event>
    requires Accepted(s.events)
  {
    match a
    case DoReserve(id, provider) =>
      if Refusal(s.events, s.budget, carry, provider).Some? then None
      else Some(Event.Reserve(id, Bound(provider), provider))
    case DoSettle(id, tokens, cost) =>
      if SettleRefusal(s.events, id, tokens, cost).Some? then None else Some(Event.Settle(id, Cost(tokens, cost)))
    case DoVoid(id) =>
      if VoidRefusal(s.events, id).Some? then None else Some(Event.Void(id, 0.0))
    case Reopen => None
  }

  lemma StepAppends(s: State, carry: Carry, a: Action)
    requires Accepted(s.events) && Possible(s, a)
    ensures Accepted(Step(s, carry, a).events)
    ensures Line(s, carry, a).None? ==> Step(s, carry, a).events == s.events
    ensures Line(s, carry, a).Some? ==>
              Step(s, carry, a) == State(s.events + [Line(s, carry, a).value], s.budget)
    ensures Line(s, carry, a).Some? ==>
              Apply(BookOf(s.events), Line(s, carry, a).value) == Ok(BookOf(Step(s, carry, a).events))
  {
    if Line(s, carry, a).Some? {
      AppendAccepted(s.events, Line(s, carry, a).value);
    } else if a.Reopen? && Enter(s.events, LIMIT).Ok? {
      EnterAccepts(s.events, LIMIT);
    }
  }

  lemma StepKeepsInv(s: State, carry: Carry, a: Action)
    requires Inv(s) && Possible(s, a)
    ensures Inv(Step(s, carry, a))
  {
    hide Accepted, Apply, Replay, Total;
    StepAppends(s, carry, a);
    if Line(s, carry, a).Some? {
      var e := Line(s, carry, a).value;
      OpenAfter(BookOf(s.events), e);
      ApplyTotals(BookOf(s.events), e);
      assert e.Reserve? ==> !SomethingOpen(BookOf(s.events)) && |BookOf(s.events).order| < MAX_ATTEMPTS;
    } else if a.Reopen? && Enter(s.events, LIMIT).Ok? {
      EnterAccepts(s.events, LIMIT);
    }
  }

  /** In every reachable journal one reservation is open at most and attempts, voided ones too, stay within 550. */
  lemma {:induction false} RunKeepsInv(s: State, carry: Carry, actions: seq<Action>, t: State)
    requires Inv(s) && Reaches(s, carry, actions, t)
    ensures Inv(t)
    decreases |actions|
  {
    if actions != [] {
      StepKeepsInv(s, carry, actions[0]);
      RunKeepsInv(Step(s, carry, actions[0]), carry, actions[1..], t);
    }
  }

  /**
   Right after a granted reservation the stage's settled and open amounts and the historical
   ones, priced and unresolved, add up to 50,000,000 at most.
   */
  lemma ReserveWithinLimit(s: State, carry: Carry, a: Action)
    requires Inv(s) && Possible(s, a) && a.DoReserve? && Step(s, carry, a) != s
    ensures Inv(Step(s, carry, a))
    ensures var b := BookOf(Step(s, carry, a).events);
            Total(b, Settled) + Total(b, Open) + carry.priced + carry.unresolved <= s.budget <= 50_000_000.0
  {
    StepAppends(s, carry, a);
    StepKeepsInv(s, carry, a);
    ApplyTotals(BookOf(s.events), Line(s, carry, a).value);
  }

  /** The stage refuses an openrouter reservation exactly when granting it would break one of its limits. */
  lemma ReserveGrantedIff(s: State, carry: Carry, id: Id)
    requires Inv(s) && id !in BookOf(s.events).entries
    ensures var after := s.events + [Event.Reserve(id, 11_010_048.0, "openrouter")];
            Accepted(after)
            && var b := BookOf(after);
            Step(s, carry, DoReserve(id, "openrouter")).events == after <==>
              OneOpen(b) && |b.order| <= 550
              && Total(b, Settled) + Total(b, Open) + carry.priced + carry.unresolved <= s.budget
  {
    hide Accepted, Total;
    var b, e := BookOf(s.events), Event.Reserve(id, Bound("openrouter"), "openrouter");
    AppendAccepted(s.events, e);
    ApplyTotals(b, e);
    OpenAfter(b, e);
    var c := BookOf(s.events + [e]);
    if SomethingOpen(b) {
      var x :| IsOpen(b, x);
      assert IsOpen(c, x) && IsOpen(c, id) && x != id;
    }
    assert s.events != s.events + [e];
  }

  /** Nothing is open, and what stage and history have settled and left unresolved is past 50,000,000. */
  ghost predicate Exhausted(s: State, carry: Carry) {
    Inv(s) && !SomethingOpen(BookOf(s.events))
    && Total(BookOf(s.events), Settled) + Total(BookOf(s.events), Open) + carry.priced + carry.unresolved > 50_000_000.0
  }

  lemma ExhaustedStays(s: State, carry: Carry, a: Action)
    requires Exhausted(s, carry) && Possible(s, a)
    ensures Exhausted(Step(s, carry, a), carry) && Step(s, carry, a).events == s.events
  {
    StepAppends(s, carry, a);
    StepKeepsInv(s, carry, a);
    if a.DoSettle? || a.DoVoid? {
      assert !IsOpen(BookOf(s.events), a.id);
    }
    assert Line(s, carry, a).None?;
  }

  lemma {:induction false} ExhaustedForever(s: State, carry: Carry, actions: seq<Action>, t: State)
    requires Exhausted(s, carry) && Reaches(s, carry, actions, t)
    ensures t.events == s.events
    decreases |actions|
  {
    if actions != [] {
      ExhaustedStays(s, carry, actions[0]);
      ExhaustedForever(Step(s, carry, actions[0]), carry, actions[1..], t);
    }
  }

  /** A settlement that takes the total past the limit is the journal's last line, whatever follows. */
  lemma OverspendIsLast(s: State, carry: Carry, a: Action, actions: seq<Action>, t: State)
    requires Inv(s) && a.DoSettle? && Step(s, carry, a) != s && Accepted(Step(s, carry, a).events)
    requires var b := BookOf(Step(s, carry, a).events);
             Total(b, Settled) + Total(b, Open) + carry.priced + carry.unresolved > 50_000_000.0
    requires Reaches(Step(s, carry, a), carry, actions, t)
    ensures t.events == Step(s, carry, a).events
  {
    StepAppends(s, carry, a);
    StepKeepsInv(s, carry, a);
    var c := BookOf(Step(s, carry, a).events);
    assert forall id :: IsOpen(c, id) ==> IsOpen(BookOf(s.events), id) && id != a.id;
    assert IsOpen(BookOf(s.events), a.id);
    ExhaustedForever(Step(s, carry, a), carry, actions, t);
  }

  /** Without reservations to settle or void, an open one blocks the journal across restarts. */
  lemma {:induction false} OpenBlocks(s: State, carry: Carry, actions: seq<Action>, t: State)
    requires Inv(s) && SomethingOpen(BookOf(s.events)) && Reaches(s, carry, actions, t)
    requires forall a :: a in actions ==> a.DoReserve? || a.Reopen?
    ensures t.events == s.events
    decreases |actions|
  {
    if actions != [] {
      StepAppends(s, carry, actions[0]);
      StepKeepsInv(s, carry, actions[0]);
      OpenBlocks(Step(s, carry, actions[0]), carry, actions[1..], t);
    }
  }
}
