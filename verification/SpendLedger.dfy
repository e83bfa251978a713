/**
 The single-writer ledger over a durable journal, and what every sequence of its
 calls, crashes and reopenings keeps.
 */
module SpendLedger {
  import opened Options
  import opened Journal
  import Reals

  predicate ValidBudget(usd: Usd) {
    0.0 < usd <= SPEND_CAP
  }

  /** Opening a journal: its lines afterwards and the budget in force. */
  function Enter(lines: seq<Event>, budget: Usd): Result<(seq<Event>, Usd)> {
    if !ValidBudget(budget) then Err(ValueError)
    else
      var lines' := if lines == [] then [Budget(budget, MODEL)] else lines;
      var header := lines'[0];
      if !header.Budget? || header.model != MODEL then Err(ValueError)
      else if !ValidBudget(header.usd) then Err(ValueError)
      else
        var r := Replay(lines'[1..]);
        if r.Err? then Err(r.error) else Ok((lines', Reals.Min(budget, header.usd)))
  }

  /** A journal the ledger has accepted. */
  ghost predicate Accepted(events: seq<Event>) {
    && |events| > 0 && events[0].Budget? && events[0].model == MODEL && ValidBudget(events[0].usd)
    && Replay(events[1..]).Ok?
    && WellFormed(Replay(events[1..]).value)
  }

  ghost function BookOf(events: seq<Event>): Book
    requires Accepted(events)
    ensures WellFormed(BookOf(events))
  {
    Replay(events[1..]).value
  }

  predicate BlockedBy(b: Book, provider: string) {
    exists id :: id in b.entries && b.entries[id].status == Open && b.entries[id].provider == provider
  }

  /** Why a reservation is refused, in the order the checks are made. */
  ghost function ReserveRefusal(events: seq<Event>, budget: Usd, provider: string): Option<Error>
    requires Accepted(events)
  {
    var b := BookOf(events);
    if BlockedBy(b, provider) then Some(Stop(UnresolvedPreviousAttempt))
    else if |b.order| >= REQUEST_CAP then Some(Stop(RequestCapReached))
    else if provider !in CONTEXT_CEILING then Some(KeyError)
    else if Accounted(b) + Bound(provider) > budget then Some(Stop(BudgetExhausted))
    else None
  }

  ghost function ReserveStep(events: seq<Event>, budget: Usd, id: Id, provider: string): seq<Event>
    requires Accepted(events)
  {
    if ReserveRefusal(events, budget, provider).Some? then events
    else events + [Reserve(id, Bound(provider), provider)]
  }

  /** List price unless the provider reports its own cost. */
  function Cost(tokens: int, cost: Option<Usd>): Usd {
    if cost.Some? then cost.value else tokens as real * PRICE
  }

  ghost function SettleRefusal(events: seq<Event>, id: Id, tokens: int, cost: Option<Usd>): Option<Error>
    requires Accepted(events)
  {
    var b := BookOf(events);
    if tokens <= 0 then Some(ValueError)
    else if id !in b.entries then Some(KeyError)
    else if b.entries[id].status != Open then Some(ValueError)
    else if cost.Some? && cost.value < 0.0 then Some(ValueError)
    else None
  }

  ghost function SettleStep(events: seq<Event>, id: Id, tokens: int, cost: Option<Usd>): seq<Event>
    requires Accepted(events)
  {
    if SettleRefusal(events, id, tokens, cost).Some? then events
    else events + [Settle(id, Cost(tokens, cost))]
  }

  ghost function VoidRefusal(events: seq<Event>, id: Id): Option<Error>
    requires Accepted(events)
  {
    var b := BookOf(events);
    if id !in b.entries then Some(KeyError)
    else if b.entries[id].status != Open then Some(ValueError)
    else None
  }

  ghost function VoidStep(events: seq<Event>, id: Id): seq<Event>
    requires Accepted(events)
  {
    if VoidRefusal(events, id).Some? then events else events + [Void(id, 0.0)]
  }

  /** Which refusal a reservation meets, and when it meets none. */
  lemma ReserveRefusedBecause(events: seq<Event>, budget: Usd, provider: string)
    requires Accepted(events)
    ensures var b, refusal := BookOf(events), ReserveRefusal(events, budget, provider);
            var blocked := exists id :: IsOpen(b, id) && b.entries[id].provider == provider;
            var known := provider == "typesafe" || provider == "openrouter";
            var price := if provider == "typesafe" then 2_752_512.0 else 11_010_048.0;
            var over := Total(b, Settled) + Total(b, Open) + price > budget;
            && (refusal == Some(Stop(UnresolvedPreviousAttempt)) <==> blocked)
            && (refusal == Some(Stop(RequestCapReached)) <==> !blocked && |b.order| >= 300)
            && (refusal == Some(KeyError) <==> !blocked && |b.order| < 300 && !known)
            && (refusal == Some(Stop(BudgetExhausted)) <==> !blocked && |b.order| < 300 && known && over)
            && (refusal.None? <==> !blocked && |b.order| < 300 && known && !over)
  {
    hide Total, Accepted;
  }

  /** A settlement closes an open attempt at the reported cost, or at 42 a token, and is otherwise refused. */
  lemma SettleInPlain(events: seq<Event>, id: Id, tokens: int, cost: Option<Usd>)
    requires Accepted(events)
    ensures var amount := if cost.Some? then cost.value else 42.0 * tokens as real;
            var b := BookOf(events);
            var granted := tokens > 0 && IsOpen(b, id) && (cost.Some? ==> amount >= 0.0);
            && SettleStep(events, id, tokens, cost) == (if granted then events + [Settle(id, amount)] else events)
            && (SettleRefusal(events, id, tokens, cost).None? <==> granted)
            && (SettleRefusal(events, id, tokens, cost) == Some(KeyError) <==> tokens > 0 && id !in b.entries)
            && (SettleRefusal(events, id, tokens, cost) == Some(ValueError) <==>
                  !granted && (tokens > 0 ==> id in b.entries))
  {
    hide Accepted;
  }

  /** A void closes an open attempt at nothing, and is otherwise refused. */
  lemma VoidInPlain(events: seq<Event>, id: Id)
    requires Accepted(events)
    ensures VoidStep(events, id) == (if IsOpen(BookOf(events), id) then events + [Void(id, 0.0)] else events)
    ensures VoidRefusal(events, id).None? <==> IsOpen(BookOf(events), id)
    ensures VoidRefusal(events, id) == Some(KeyError) <==> id !in BookOf(events).entries
    ensures VoidRefusal(events, id) == Some(ValueError) <==>
      id in BookOf(events).entries && !IsOpen(BookOf(events), id)
  {
    hide Accepted;
  }

  /** Every line the ledger itself appends is one the replay takes. */
  lemma AppendAccepted(events: seq<Event>, e: Event)
    requires Accepted(events) && Apply(BookOf(events), e).Ok?
    ensures Accepted(events + [e]) && BookOf(events + [e]) == Apply(BookOf(events), e).value
  {
    assert (events + [e])[1..] == events[1..] + [e];
    ReplayAppend(events[1..], e);
    ApplyWellFormed(BookOf(events), e);
  }

  lemma AppendReserve(events: seq<Event>, id: Id, provider: string)
    requires Accepted(events) && id !in BookOf(events).entries && provider in CONTEXT_CEILING
    ensures var after := events + [Reserve(id, Bound(provider), provider)];
            Accepted(after)
            && BookOf(after).entries.Keys == BookOf(events).entries.Keys + {id}
            && forall x :: IsOpen(BookOf(after), x) <==> x == id || IsOpen(BookOf(events), x)
  {
    hide Accepted, Replay, WellFormed;
    var e := Reserve(id, Bound(provider), provider);
    AppendAccepted(events, e);
    OpenAfter(BookOf(events), e);
  }

  lemma AppendClose(events: seq<Event>, e: Event)
    requires Accepted(events) && (e.Settle? || (e.Void? && e.usd == 0.0)) && e.usd >= 0.0
    requires IsOpen(BookOf(events), e.id)
    ensures Accepted(events + [e])
    ensures BookOf(events + [e]).entries.Keys == BookOf(events).entries.Keys
    ensures forall x :: IsOpen(BookOf(events + [e]), x) <==> x != e.id && IsOpen(BookOf(events), x)
  {
    hide Accepted, Replay, WellFormed;
    AppendAccepted(events, e);
    OpenAfter(BookOf(events), e);
  }

  lemma ReserveKeepsAccepted(events: seq<Event>, budget: Usd, id: Id, provider: string)
    requires Accepted(events) && id !in BookOf(events).entries
    ensures Accepted(ReserveStep(events, budget, id, provider))
  {
    if ReserveRefusal(events, budget, provider).None? {
      AppendAccepted(events, Reserve(id, Bound(provider), provider));
    }
  }

  lemma SettleKeepsAccepted(events: seq<Event>, id: Id, tokens: int, cost: Option<Usd>)
    requires Accepted(events)
    ensures Accepted(SettleStep(events, id, tokens, cost))
  {
    if SettleRefusal(events, id, tokens, cost).None? {
      AppendAccepted(events, Settle(id, Cost(tokens, cost)));
    }
  }

  lemma VoidKeepsAccepted(events: seq<Event>, id: Id)
    requires Accepted(events)
    ensures Accepted(VoidStep(events, id))
  {
    if VoidRefusal(events, id).None? {
      AppendAccepted(events, Void(id, 0.0));
    }
  }

  /** Entering an accepted journal, or any cut of it a crash left, succeeds and writes nothing. */
  lemma ReopenAfterCrash(events: seq<Event>, k: nat, budget: Usd)
    requires Accepted(events) && 0 < k <= |events| && ValidBudget(budget)
    ensures Enter(events[..k], budget) == Ok((events[..k], Reals.Min(budget, events[0].usd)))
    ensures Accepted(events[..k])
  {
    assert events[..k][1..] == events[1..][..k - 1];
    ReplayPrefix(events[1..], k - 1);
    ReplayWellFormed(events[..k][1..]);
  }

  /** Which journals open, and with what budget. */
  lemma EnterInPlain(lines: seq<Event>, budget: Usd)
    ensures Enter(lines, budget).Ok? <==>
      0.0 < budget <= 700_000_000.0
      && (lines != [] ==>
            lines[0].Budget? && lines[0].model == "jev-1.14.0" && 0.0 < lines[0].usd <= 700_000_000.0
            && Replay(lines[1..]).Ok?)
    ensures Enter(lines, budget).Ok? ==>
      var recorded := if lines == [] then budget else lines[0].usd;
      Enter(lines, budget).value ==
        (if lines == [] then [Budget(budget, "jev-1.14.0")] else lines, if budget <= recorded then budget else recorded)
    ensures Enter(lines, budget) == Err(ValueError) ||
      (lines != [] && Replay(lines[1..]).Err? && Enter(lines, budget) == Err(Replay(lines[1..]).error))
      || Enter(lines, budget).Ok?
  {
    if lines == [] { assert [Budget(budget, MODEL)][1..] == []; }
  }

  /** Whatever `Enter` lets through is an accepted journal under both budgets. */
  lemma EnterAccepts(lines: seq<Event>, budget: Usd)
    requires Enter(lines, budget).Ok?
    ensures var (after, inForce) := Enter(lines, budget).value;
            Accepted(after) && inForce <= budget && inForce <= after[0].usd && 0.0 < inForce
            && (lines != [] ==> after == lines)
  {
    ReplayWellFormed(Enter(lines, budget).value.0[1..]);
  }

  /** The journal file: its lines outlive the process. */
  class JournalFile {
    var lines: seq<Event>

    constructor (lines: seq<Event>)
      ensures this.lines == lines
    {
      this.lines := lines;
    }
  }

  datatype Summary = Summary(budget: Usd, priced: Usd, unresolved: Usd, accounted: Usd, attempts: nat)

  class Ledger {
    const file: JournalFile
    var events: seq<Event>
    var budget: Usd

    ghost predicate Valid()
      reads this, file
    {
      Accepted(events) && file.lines == events && 0.0 < budget <= events[0].usd
    }

    /** `__init__` followed by `__enter__`; on an error the journal is as it was. */
    static method Open(file: JournalFile, budget: Usd) returns (r: Result<Ledger>)
      modifies file
      ensures match Enter(old(file.lines), budget)
              case Ok((lines, inForce)) =>
                r.Ok? && fresh(r.value) && r.value.file == file && r.value.Valid()
                && file.lines == lines && r.value.budget == inForce
              case Err(e) => r == Err(e) && file.lines == old(file.lines)
    {
      if !ValidBudget(budget) {
        return Err(ValueError);
      }
      var ledger := new Ledger(file, budget);
      if ledger.events == [] {
        ledger.Append(Budget(budget, MODEL));
      }
      var header := ledger.events[0];
      if !header.Budget? || header.model != MODEL {
        return Err(ValueError);
      }
      if !ValidBudget(header.usd) {
        return Err(ValueError);
      }
      ledger.budget := Reals.Min(budget, header.usd);
      var book := ledger.Reservations();
      if book.Err? {
        return Err(book.error);
      }
      EnterAccepts(old(file.lines), budget);
      return Ok(ledger);
    }

    constructor (file: JournalFile, budget: Usd)
      ensures this.file == file && events == file.lines && this.budget == budget
    {
      this.file := file;
      this.events := file.lines;
      this.budget := budget;
    }

    /** File and memory gain the line alike, so a line the replay takes leaves a ledger that can go on. */
    method Append(e: Event)
      modifies this`events, file
      ensures file.lines == old(file.lines) + [e] && events == old(events) + [e]
      ensures old(Valid()) && Apply(old(BookOf(events)), e).Ok? ==>
        Valid() && BookOf(events) == Apply(old(BookOf(events)), e).value
    {
      if Valid() && Apply(BookOf(events), e).Ok? {
        AppendAccepted(events, e);
      }
      file.lines := file.lines + [e];
      events := events + [e];
    }

    /** Replays the journal line by line, as every call below does first. */
    method Reservations() returns (r: Result<Book>)
      requires events != []
      ensures r == Replay(events[1..])
    {
      var book := EMPTY;
      var i := 1;
      assert events[1..i] == [];
      while i < |events|
        invariant 1 <= i <= |events|
        invariant Replay(events[1..i]) == Ok(book)
      {
        assert events[1..i + 1][..i - 1] == events[1..i];
        var next := Apply(book, events[i]);
        if next.Err? {
          assert events[1..][..i] == events[1..i + 1];
          ReplayFails(events[1..], i);
          return next;
        }
        book := next.value;
        i := i + 1;
      }
      assert events[1..i] == events[1..];
      return Ok(book);
    }

    method Summarize() returns (s: Summary, book: Book)
      requires Valid()
      ensures book == BookOf(events)
      ensures s == Summary(budget, Total(book, Settled), Total(book, Status.Open), Accounted(book), |book.order|)
    {
      var r := Reservations();
      book := r.value;
      var known := Total(book, Settled);
      var unknown := Total(book, Status.Open);
      s := Summary(budget, known, unknown, known + unknown, |book.order|);
    }

    method Reserve(id: Id, provider: string) returns (r: Result<Id>)
      requires Valid() && id !in BookOf(events).entries
      modifies this`events, file
      ensures Valid() && events == ReserveStep(old(events), budget, id, provider)
      ensures match ReserveRefusal(old(events), budget, provider)
              case Some(e) => r == Err(e)
              case None => r == Ok(id)
    {
      ReserveKeepsAccepted(events, budget, id, provider);
      var s, book := Summarize();
      if BlockedBy(book, provider) {
        return Err(Stop(UnresolvedPreviousAttempt));
      }
      if s.attempts >= REQUEST_CAP {
        return Err(Stop(RequestCapReached));
      }
      if provider !in CONTEXT_CEILING {
        return Err(KeyError);
      }
      if s.accounted + Bound(provider) > budget {
        return Err(Stop(BudgetExhausted));
      }
      Append(Event.Reserve(id, Bound(provider), provider));
      return Ok(id);
    }

    method Settle(id: Id, tokens: int, cost: Option<Usd>) returns (r: Result<()>)
      requires Valid()
      modifies this`events, file
      ensures Valid() && events == SettleStep(old(events), id, tokens, cost)
      ensures match SettleRefusal(old(events), id, tokens, cost)
              case Some(e) => r == Err(e)
              case None => r == Ok(())
    {
      SettleKeepsAccepted(events, id, tokens, cost);
      if tokens <= 0 {
        return Err(ValueError);
      }
      var s, book := Summarize();
      if id !in book.entries {
        return Err(KeyError);
      }
      if book.entries[id].status != Status.Open {
        return Err(ValueError);
      }
      if cost.Some? && cost.value < 0.0 {
        return Err(ValueError);
      }
      Append(Event.Settle(id, Cost(tokens, cost)));
      return Ok(());
    }

    method Void(id: Id) returns (r: Result<()>)
      requires Valid()
      modifies this`events, file
      ensures Valid() && events == VoidStep(old(events), id)
      ensures match VoidRefusal(old(events), id)
              case Some(e) => r == Err(e)
              case None => r == Ok(())
    {
      VoidKeepsAccepted(events, id);
      var s, book := Summarize();
      if id !in book.entries {
        return Err(KeyError);
      }
      if book.entries[id].status != Status.Open {
        return Err(ValueError);
      }
      Append(Event.Void(id, 0.0));
      return Ok(());
    }
  }
}
