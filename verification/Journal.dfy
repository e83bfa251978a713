/**
 The append-only spend journal: its events, and the replay that rebuilds every
 attempt from them. Amounts are nano-USD, so a token costs 42.
 */
module Journal {
  type Id = string
  type Usd = real

  datatype StopCode =
    | UnexpectedProvider | UnresolvedPreviousAttempt | RequestCapReached | BudgetExhausted
    | Http(status: nat) | TransportErrorUnknownUsage | InvalidProviderResponse
    | ProviderContextBoundExceeded | ProviderCostBoundExceeded

  datatype Error = KeyError | ValueError | Stop(code: StopCode)

  datatype Result<+T> = Ok(value: T) | Err(error: Error)

  const PRICE: Usd := 42.0
  const SPEND_CAP: Usd := 700_000_000.0
  const REQUEST_CAP: nat := 300
  const MODEL: string := "jev-1.14.0"

  const CONTEXT_CEILING: map<string, nat> := map["typesafe" := 65_536, "openrouter" := 262_144]

  /** The price of a full context, reserved before each request. */
  function Bound(provider: string): (r: Usd)
    requires provider in CONTEXT_CEILING
    ensures r == if provider == "typesafe" then 2_752_512.0 else 11_010_048.0
  {
    CONTEXT_CEILING[provider] as real * PRICE
  }

  /** A journal line. `Other` is any line of an unknown kind. */
  datatype Event =
    | Budget(usd: Usd, model: string)
    | Reserve(id: Id, usd: Usd, provider: string)
    | Settle(id: Id, usd: Usd)
    | Void(id: Id, usd: Usd)
    | Other(id: Id, usd: Usd)

  datatype Status = Open | Settled | Voided

  datatype Entry = Entry(status: Status, usd: Usd, provider: string)

  /** An insertion-ordered dictionary of attempts. */
  datatype Book = Book(order: seq<Id>, entries: map<Id, Entry>)

  const EMPTY := Book([], map[])

  ghost predicate WellFormed(b: Book) {
    && (forall i, j :: 0 <= i < j < |b.order| ==> b.order[i] != b.order[j])
    && (forall id :: id in b.order <==> id in b.entries)
    && (forall id :: id in b.entries ==> b.entries[id].usd >= 0.0)
  }

  function Apply(b: Book, e: Event): Result<Book> {
    if e.Budget? then Err(KeyError)
    else if e.usd < 0.0 then Err(ValueError)
    else match e
      case Reserve(id, usd, provider) =>
        if provider !in CONTEXT_CEILING then Err(KeyError)
        else if id in b.entries || usd != Bound(provider) then Err(ValueError)
        else Ok(Book(b.order + [id], b.entries[id := Entry(Open, usd, provider)]))
      case Settle(id, usd) =>
        if id !in b.entries then Err(KeyError)
        else if b.entries[id].status != Open then Err(ValueError)
        else Ok(b.(entries := b.entries[id := Entry(Settled, usd, b.entries[id].provider)]))
      case Void(id, usd) =>
        if id !in b.entries then Err(KeyError)
        else if b.entries[id].status != Open || usd != 0.0 then Err(ValueError)
        else Ok(b.(entries := b.entries[id := Entry(Voided, usd, b.entries[id].provider)]))
      case Other(_, _) => Err(ValueError)
  }

  /** Which lines the replay takes, and which error stops it at the others. */
  lemma LineTakenIff(b: Book, e: Event)
    ensures Apply(b, e).Ok? <==>
      !e.Budget? && e.usd >= 0.0
      && ((e.Reserve? && e.id !in b.entries
           && ((e.provider == "typesafe" && e.usd == 2_752_512.0)
               || (e.provider == "openrouter" && e.usd == 11_010_048.0)))
          || (e.Settle? && e.id in b.entries && b.entries[e.id].status == Open)
          || (e.Void? && e.id in b.entries && b.entries[e.id].status == Open && e.usd == 0.0))
    ensures Apply(b, e) == Err(KeyError) <==>
      e.Budget? || (e.usd >= 0.0
                    && ((e.Reserve? && e.provider != "typesafe" && e.provider != "openrouter")
                        || ((e.Settle? || e.Void?) && e.id !in b.entries)))
    ensures Apply(b, e).Err? ==> Apply(b, e).error == KeyError || Apply(b, e).error == ValueError
  {
  }

  /** The replay of the events after the header. */
  function Replay(events: seq<Event>): Result<Book> {
    if events == [] then Ok(EMPTY)
    else
      var r := Replay(events[..|events| - 1]);
      if r.Err? then r else Apply(r.value, events[|events| - 1])
  }

  function Amount(e: Entry, s: Status): Usd {
    if e.status == s then e.usd else 0.0
  }

  function Sum(order: seq<Id>, entries: map<Id, Entry>, s: Status): Usd
    requires forall id :: id in order ==> id in entries
  {
    if order == [] then 0.0
    else Amount(entries[order[0]], s) + Sum(order[1..], entries, s)
  }

  function Total(b: Book, s: Status): Usd
    requires WellFormed(b)
  {
    Sum(b.order, b.entries, s)
  }

  function Accounted(b: Book): Usd
    requires WellFormed(b)
  {
    Total(b, Settled) + Total(b, Open)
  }

  ghost predicate IsOpen(b: Book, id: Id) {
    id in b.entries && b.entries[id].status == Open
  }

  function CountStatus(order: seq<Id>, entries: map<Id, Entry>, s: Status): nat
    requires forall id :: id in order ==> id in entries
  {
    if order == [] then 0
    else (if entries[order[0]].status == s then 1 else 0) + CountStatus(order[1..], entries, s)
  }

  lemma {:induction false} SumSameOn(order: seq<Id>, a: map<Id, Entry>, b: map<Id, Entry>, s: Status)
    requires forall id :: id in order ==> id in a && id in b && a[id] == b[id]
    ensures Sum(order, a, s) == Sum(order, b, s)
    ensures CountStatus(order, a, s) == CountStatus(order, b, s)
  {
    if order != [] { SumSameOn(order[1..], a, b, s); }
  }

  lemma {:induction false} SumUpdate(order: seq<Id>, entries: map<Id, Entry>, id: Id, e: Entry, s: Status)
    requires forall x :: x in order ==> x in entries
    requires forall i, j :: 0 <= i < j < |order| ==> order[i] != order[j]
    requires id in order
    ensures Sum(order, entries[id := e], s) == Sum(order, entries, s) - Amount(entries[id], s) + Amount(e, s)
    ensures CountStatus(order, entries[id := e], s) ==
            CountStatus(order, entries, s)
            - (if entries[id].status == s then 1 else 0) + (if e.status == s then 1 else 0)
  {
    if order[0] == id {
      SumSameOn(order[1..], entries, entries[id := e], s);
    } else {
      SumUpdate(order[1..], entries, id, e, s);
    }
  }

  lemma {:induction false} SumAppend(order: seq<Id>, entries: map<Id, Entry>, id: Id, s: Status)
    requires forall x :: x in order + [id] ==> x in entries
    ensures Sum(order + [id], entries, s) == Sum(order, entries, s) + Amount(entries[id], s)
    ensures CountStatus(order + [id], entries, s) ==
            CountStatus(order, entries, s) + (if entries[id].status == s then 1 else 0)
  {
    var all := order + [id];
    if order != [] {
      assert all[1..] == order[1..] + [id];
      SumAppend(order[1..], entries, id, s);
    }
  }

  lemma {:induction false} SumNonNegative(order: seq<Id>, entries: map<Id, Entry>, s: Status)
    requires forall id :: id in order ==> id in entries && entries[id].usd >= 0.0
    ensures Sum(order, entries, s) >= 0.0
  {
    if order != [] { SumNonNegative(order[1..], entries, s); }
  }

  lemma ApplyWellFormed(b: Book, e: Event)
    requires WellFormed(b) && Apply(b, e).Ok?
    ensures WellFormed(Apply(b, e).value)
  {
    var c := Apply(b, e).value;
    forall id ensures id in c.order <==> id in c.entries {
      if e.Reserve? { assert id in c.order <==> id in b.order || id == e.id; }
    }
  }

  lemma {:induction false} ReplayWellFormed(events: seq<Event>)
    requires Replay(events).Ok?
    ensures WellFormed(Replay(events).value)
  {
    if events != [] {
      ReplayWellFormed(events[..|events| - 1]);
      ApplyWellFormed(Replay(events[..|events| - 1]).value, events[|events| - 1]);
    }
  }

  lemma ReplayAppend(events: seq<Event>, e: Event)
    requires Replay(events).Ok?
    ensures Replay(events + [e]) == Apply(Replay(events).value, e)
  {
    assert (events + [e])[..|events|] == events;
  }

  /** Any cut of an acceptable journal, the only trace a crash can leave, is acceptable. */
  lemma {:induction false} ReplayPrefix(events: seq<Event>, k: nat)
    requires Replay(events).Ok? && k <= |events|
    ensures Replay(events[..k]).Ok?
  {
    if k < |events| {
      var front := events[..|events| - 1];
      ReplayPrefix(front, k);
      assert front[..k] == events[..k];
    } else {
      assert events[..k] == events;
    }
  }

  lemma {:induction false} ReplayFails(events: seq<Event>, k: nat)
    requires k <= |events| && Replay(events[..k]).Err?
    ensures Replay(events) == Replay(events[..k])
  {
    if k < |events| {
      var front := events[..|events| - 1];
      assert front[..k] == events[..k];
      ReplayFails(front, k);
    } else {
      assert events[..k] == events;
    }
  }

  /** What one more event does to the totals a full replay would recompute. */
  lemma ApplyTotals(b: Book, e: Event)
    requires WellFormed(b) && Apply(b, e).Ok?
    ensures WellFormed(Apply(b, e).value)
    ensures var c := Apply(b, e).value;
      match e
      case Reserve(id, usd, provider) =>
        Total(c, Open) == Total(b, Open) + usd && Total(c, Settled) == Total(b, Settled)
        && |c.order| == |b.order| + 1
      case Settle(id, usd) =>
        Total(c, Open) == Total(b, Open) - b.entries[id].usd && Total(c, Settled) == Total(b, Settled) + usd
        && |c.order| == |b.order|
      case Void(id, usd) =>
        Total(c, Open) == Total(b, Open) - b.entries[id].usd && Total(c, Settled) == Total(b, Settled)
        && |c.order| == |b.order|
      case _ => false
  {
    ApplyWellFormed(b, e);
    var c := Apply(b, e).value;
    if e.Reserve? {
      forall s ensures Total(c, s) == Total(b, s) + Amount(c.entries[e.id], s) {
        SumAppend(b.order, c.entries, e.id, s);
        SumSameOn(b.order, b.entries, c.entries, s);
      }
    } else {
      SumUpdate(b.order, b.entries, e.id, c.entries[e.id], Open);
      SumUpdate(b.order, b.entries, e.id, c.entries[e.id], Settled);
    }
  }

  /** Only a reserve line opens an attempt, and its own; the others close theirs. */
  lemma OpenAfter(b: Book, e: Event)
    requires Apply(b, e).Ok?
    ensures forall x :: IsOpen(Apply(b, e).value, x) <==>
              (e.Reserve? && x == e.id) || (IsOpen(b, x) && x != e.id)
    ensures forall x :: IsOpen(b, x) && x != e.id ==>
              Apply(b, e).value.entries[x] == b.entries[x]
    ensures e.Reserve? ==> Apply(b, e).value.entries[e.id].provider == e.provider
    ensures !e.Reserve? ==> !e.Budget? && IsOpen(b, e.id)
  {
  }

  /** An open attempt holds exactly the full-context price of its provider, a voided one nothing. */
  ghost predicate OpenAtBound(b: Book) {
    forall id :: id in b.entries ==>
      && (b.entries[id].status == Open ==>
            b.entries[id].provider in CONTEXT_CEILING && b.entries[id].usd == Bound(b.entries[id].provider))
      && (b.entries[id].status == Voided ==> b.entries[id].usd == 0.0)
  }

  lemma {:induction false} ReplayOpenAtBound(events: seq<Event>)
    requires Replay(events).Ok?
    ensures OpenAtBound(Replay(events).value)
  {
    if events != [] {
      ReplayOpenAtBound(events[..|events| - 1]);
    }
  }

  function CountReserves(events: seq<Event>): nat {
    if events == [] then 0
    else CountReserves(events[..|events| - 1]) + if events[|events| - 1].Reserve? then 1 else 0
  }

  lemma {:induction false} CountAll(order: seq<Id>, entries: map<Id, Entry>)
    requires forall id :: id in order ==> id in entries
    ensures |order| == CountStatus(order, entries, Open) + CountStatus(order, entries, Settled)
                       + CountStatus(order, entries, Voided)
  {
    if order != [] { CountAll(order[1..], entries); }
  }

  /** Every reserve line is one attempt, and each attempt is open, settled or void, once. */
  lemma {:induction false} AttemptsCountedOnce(events: seq<Event>)
    requires Replay(events).Ok?
    ensures WellFormed(Replay(events).value)
    ensures var Book(order, entries) := Replay(events).value;
            |order| == CountReserves(events) ==
            CountStatus(order, entries, Open) + CountStatus(order, entries, Settled)
            + CountStatus(order, entries, Voided)
  {
    ReplayWellFormed(events);
    CountAll(Replay(events).value.order, Replay(events).value.entries);
    if events != [] {
      var front := events[..|events| - 1];
      ReplayWellFormed(front);
      AttemptsCountedOnce(front);
      ApplyTotals(Replay(front).value, events[|events| - 1]);
    }
  }

  function CountSettles(events: seq<Event>): nat {
    if events == [] then 0
    else CountSettles(events[..|events| - 1]) + if events[|events| - 1].Settle? then 1 else 0
  }

  lemma {:induction false} CountSettlesAppend(a: seq<Event>, b: seq<Event>)
    ensures CountSettles(a + b) == CountSettles(a) + CountSettles(b)
  {
    if b == [] {
      assert a + b == a;
    } else {
      assert (a + b)[..|a + b| - 1] == a + b[..|b| - 1];
      CountSettlesAppend(a, b[..|b| - 1]);
    }
  }

  /** Every settle line is one settled attempt, for good. */
  lemma {:induction false} SettlesCountedOnce(events: seq<Event>)
    requires Replay(events).Ok?
    ensures WellFormed(Replay(events).value)
    ensures CountStatus(Replay(events).value.order, Replay(events).value.entries, Settled) == CountSettles(events)
  {
    ReplayWellFormed(events);
    if events != [] {
      var front, e := events[..|events| - 1], events[|events| - 1];
      ReplayWellFormed(front);
      SettlesCountedOnce(front);
      var b, c := Replay(front).value, Replay(events).value;
      if e.Reserve? {
        SumAppend(b.order, c.entries, e.id, Settled);
        SumSameOn(b.order, b.entries, c.entries, Settled);
      } else {
        SumUpdate(b.order, b.entries, e.id, c.entries[e.id], Settled);
      }
    }
  }
}
