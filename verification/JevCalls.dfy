/** One paid request, and the retry loop that voids attempts the provider rejected. */
module JevCalls {
  import opened Options
  import opened Journal
  import Routing
  import opened SpendLedger
  import opened CumulativeLedger

  const OPENROUTER: string := "openrouter"
  /** One more attempt than there are back-off waits. */
  const LAST_ATTEMPT: nat := 8

  /** What comes back from the wire; `None` marks a part that fails its validation. */
  datatype Reply =
    | TransportError
    | Rejected(status: nat)
    | Answer(tokens: Option<int>, cost: Option<Usd>, decision: Option<Routing.Decision>)
  {
    /** The usage and cost can be settled. */
    predicate Billable() {
      Answer? && tokens.Some? && tokens.value > 0 && cost.Some? && cost.value >= 0.0
    }
  }

  /** The rejection codes that are known to come before any inference. */
  predicate Transient(status: nat) {
    status == 403 || status == 429 || 500 <= status < 600
  }

  predicate TransientStop(r: Result<Routing.Decision>) {
    r.Err? && r.error.Stop? && r.error.code.Http? && Transient(r.error.code.status)
  }

  /** The lines one request leaves in the journal. */
  ghost function CallLines(events: seq<Event>, budget: Usd, carry: Carry, id: Id, reply: Reply): seq<Event>
    requires Accepted(events)
  {
    if Refusal(events, budget, carry, OPENROUTER).Some? then []
    else [Reserve(id, Bound(OPENROUTER), OPENROUTER)]
         + if reply.Billable() then [Settle(id, reply.cost.value)] else []
  }

  /** Its result, given the grand total `after` the settlement. */
  function ReplyResult(reply: Reply, after: Usd, budget: Usd): Result<Routing.Decision> {
    match reply
    case TransportError => Err(Stop(TransportErrorUnknownUsage))
    case Rejected(status) => Err(Stop(Http(status)))
    case Answer(tokens, _, decision) =>
      if !reply.Billable() then Err(Stop(InvalidProviderResponse))
      else if tokens.value > CONTEXT_CEILING[OPENROUTER] then Err(Stop(ProviderContextBoundExceeded))
      else if after > budget then Err(Stop(ProviderCostBoundExceeded))
      else if decision.None? then Err(Stop(InvalidProviderResponse))
      else Ok(decision.value)
  }

  lemma CallLinesAccepted(events: seq<Event>, budget: Usd, carry: Carry, id: Id, reply: Reply)
    requires Accepted(events) && id !in BookOf(events).entries
    ensures Accepted(events + CallLines(events, budget, carry, id, reply))
    ensures Refusal(events, budget, carry, OPENROUTER).None? ==>
              forall x :: IsOpen(BookOf(events + CallLines(events, budget, carry, id, reply)), x)
                          <==> x == id && !reply.Billable()
    ensures forall x :: x in BookOf(events + CallLines(events, budget, carry, id, reply)).entries ==>
              x == id || x in BookOf(events).entries
  {
    hide Accepted, Apply, WellFormed;
    var after := events + CallLines(events, budget, carry, id, reply);
    if Refusal(events, budget, carry, OPENROUTER).None? {
      assert forall x :: !IsOpen(BookOf(events), x);
      var reserve := Reserve(id, Bound(OPENROUTER), OPENROUTER);
      AppendReserve(events, id, OPENROUTER);
      if reply.Billable() {
        var settle := Settle(id, reply.cost.value);
        AppendClose(events + [reserve], settle);
        assert after == events + [reserve] + [settle];
      } else {
        assert after == events + [reserve];
      }
    } else {
      assert after == events;
    }
  }

  lemma CallLinesAre(events: seq<Event>, budget: Usd, carry: Carry, id: Id, reply: Reply)
    requires Accepted(events)
    ensures var reserve := Event.Reserve(id, Bound(OPENROUTER), OPENROUTER);
            events + CallLines(events, budget, carry, id, reply) ==
              if Refusal(events, budget, carry, OPENROUTER).Some? then events
              else if reply.Billable() then events + [reserve] + [Event.Settle(id, reply.cost.value)]
              else events + [reserve]
  {
    hide Accepted, Refusal;
    assert events + [] == events;
  }

  lemma UnsettledResult(reply: Reply, budget: Usd)
    ensures reply.TransportError? ==>
              forall t :: ReplyResult(reply, t, budget) == Err(Stop(TransportErrorUnknownUsage))
    ensures reply.Rejected? ==> forall t :: ReplyResult(reply, t, budget) == Err(Stop(Http(reply.status)))
  {
  }

  /** An answer that arrived: settled first if it can be, and only then judged. */
  method SettleAnswer(stage: Stage, id: Id, reply: Reply) returns (r: Result<Routing.Decision>)
    requires stage.Valid() && IsOpen(BookOf(stage.base.events), id) && reply.Answer?
    modifies stage.base`events, stage.base.file
    ensures stage.Valid()
    ensures stage.base.events ==
            old(stage.base.events) + if reply.Billable() then [Event.Settle(id, reply.cost.value)] else []
    ensures r == ReplyResult(reply, GrandTotal(BookOf(stage.base.events), stage.carry), stage.base.budget)
  {
    assert stage.base.events + [] == stage.base.events;
    if reply.tokens.None? || reply.tokens.value <= 0 || reply.cost.None? {
      return Err(Stop(InvalidProviderResponse));
    }
    var settled := stage.base.Settle(id, reply.tokens.value, reply.cost);
    if settled.Err? {
      return Err(Stop(InvalidProviderResponse));
    }
    if reply.tokens.value > CONTEXT_CEILING[OPENROUTER] {
      return Err(Stop(ProviderContextBoundExceeded));
    }
    var s, book := stage.base.Summarize();
    if (s.priced + stage.carry.priced) + (s.unresolved + stage.carry.unresolved) > stage.base.budget {
      return Err(Stop(ProviderCostBoundExceeded));
    }
    if reply.decision.None? {
      return Err(Stop(InvalidProviderResponse));
    }
    return Ok(reply.decision.value);
  }

  method CallJev(stage: Stage, id: Id, reply: Reply) returns (r: Result<Routing.Decision>)
    requires stage.Valid() && id !in BookOf(stage.base.events).entries
    modifies stage.base`events, stage.base.file
    ensures stage.Valid()
    ensures stage.base.events ==
            old(stage.base.events) + CallLines(old(stage.base.events), stage.base.budget, stage.carry, id, reply)
    ensures match Refusal(old(stage.base.events), stage.base.budget, stage.carry, OPENROUTER)
            case Some(e) => r == Err(e)
            case None => r == ReplyResult(reply, GrandTotal(BookOf(stage.base.events), stage.carry), stage.base.budget)
  {
    hide Accepted, Refusal, GrandTotal, IsOpen, ReplyResult, CallLines;
    ghost var before := stage.base.events;
    CallLinesAre(before, stage.base.budget, stage.carry, id, reply);
    var reserved := stage.Reserve(id, OPENROUTER);
    if reserved.Err? {
      return Err(reserved.error);
    }
    UnsettledResult(reply, stage.base.budget);
    AppendReserve(before, id, OPENROUTER);
    match reply {
      case TransportError =>
        return Err(Stop(TransportErrorUnknownUsage));
      case Rejected(status) =>
        return Err(Stop(Http(status)));
      case Answer(_, _, _) =>
        r := SettleAnswer(stage, id, reply);
    }
  }

  /** The lines of `n` attempts that were each rejected and then voided. */
  function Retired(ids: seq<Id>, n: nat): seq<Event>
    requires n <= |ids|
  {
    if n == 0 then []
    else Retired(ids, n - 1) + [Reserve(ids[n - 1], Bound(OPENROUTER), OPENROUTER), Void(ids[n - 1], 0.0)]
  }

  /** Fresh identifiers for the attempts of one call. */
  ghost predicate FreshIds(events: seq<Event>, ids: seq<Id>)
    requires Accepted(events)
  {
    && |ids| == LAST_ATTEMPT
    && (forall i, j :: 0 <= i < j < LAST_ATTEMPT ==> ids[i] != ids[j])
    && (forall i :: 0 <= i < LAST_ATTEMPT ==> ids[i] !in BookOf(events).entries)
  }

  /** Attempt `i` got its reservation. */
  ghost predicate Granted(events: seq<Event>, ids: seq<Id>, i: nat, budget: Usd, carry: Carry) {
    i <= |ids| && Accepted(events + Retired(ids, i))
    && Refusal(events + Retired(ids, i), budget, carry, OPENROUTER).None?
  }

  ghost predicate RetiredSo(events: seq<Event>, ids: seq<Id>, n: nat, budget: Usd, carry: Carry)
    requires Accepted(events) && n <= |ids|
  {
    var before := events + Retired(ids, n);
    && Accepted(before)
    && (forall x :: x in BookOf(before).entries ==>
          x in BookOf(events).entries || exists i :: 0 <= i < n && x == ids[i])
    && (n > 0 ==> !SomethingOpen(BookOf(before)))
    && (forall i :: 0 <= i < n ==> Granted(events, ids, i, budget, carry))
  }

  /** The journal in the middle of attempt `n`, after its request and before any void. */
  ghost function Called(events: seq<Event>, ids: seq<Id>, n: nat, budget: Usd, carry: Carry, reply: Reply): seq<Event>
    requires Accepted(events) && n < |ids| && RetiredSo(events, ids, n, budget, carry)
  {
    var before := events + Retired(ids, n);
    before + CallLines(before, budget, carry, ids[n], reply)
  }

  /** Voiding the one attempt just rejected. */
  lemma RetireOne(events: seq<Event>, ids: seq<Id>, n: nat, budget: Usd, carry: Carry, status: nat)
    requires Accepted(events) && n < |ids| && RetiredSo(events, ids, n, budget, carry)
    requires ids[n] !in BookOf(events + Retired(ids, n)).entries
    requires Refusal(events + Retired(ids, n), budget, carry, OPENROUTER).None?
    ensures RetiredSo(events, ids, n + 1, budget, carry)
    ensures var called := Called(events, ids, n, budget, carry, Rejected(status));
            Accepted(called) && VoidStep(called, ids[n]) == events + Retired(ids, n + 1)
  {
    hide Accepted, Apply, WellFormed, Refusal, IsOpen;
    var before := events + Retired(ids, n);
    CallLinesAccepted(before, budget, carry, ids[n], Rejected(status));
    var called := Called(events, ids, n, budget, carry, Rejected(status));
    var void := Void(ids[n], 0.0);
    AppendClose(called, void);
    assert called + [void] == events + Retired(ids, n + 1);
    VoidOpen(called, ids[n]);
    forall x | x in BookOf(called).entries
      ensures x in BookOf(events).entries || exists i :: 0 <= i < n + 1 && x == ids[i]
    {
      if x == ids[n] { assert 0 <= n < n + 1; }
    }
  }

  lemma VoidOpen(events: seq<Event>, id: Id)
    requires Accepted(events) && IsOpen(BookOf(events), id)
    ensures VoidStep(events, id) == events + [Void(id, 0.0)]
  {
  }

  /** The identifiers still open, in the order they were reserved. */
  function Dangling(order: seq<Id>, entries: map<Id, Entry>): seq<Id>
    requires forall id :: id in order ==> id in entries
  {
    if order == [] then []
    else (if entries[order[0]].status == Open then [order[0]] else []) + Dangling(order[1..], entries)
  }

  lemma {:induction false} DanglingNone(order: seq<Id>, entries: map<Id, Entry>)
    requires forall id :: id in order ==> id in entries && entries[id].status != Open
    ensures Dangling(order, entries) == []
  {
    if order != [] { DanglingNone(order[1..], entries); }
  }

  lemma {:induction false} DanglingOne(order: seq<Id>, entries: map<Id, Entry>, id: Id)
    requires forall x :: x in order ==> x in entries && (entries[x].status == Open <==> x == id)
    requires forall i, j :: 0 <= i < j < |order| ==> order[i] != order[j]
    requires id in order
    ensures Dangling(order, entries) == [id]
  {
    if order[0] == id {
      DanglingNone(order[1..], entries);
    } else {
      DanglingOne(order[1..], entries, id);
    }
  }

  /** Retires every dangling reservation; after a granted request there is exactly one. */
  method VoidDangling(stage: Stage, ghost id: Id)
    requires stage.Valid()
    requires forall x :: IsOpen(BookOf(stage.base.events), x) <==> x == id
    modifies stage.base`events, stage.base.file
    ensures stage.Valid() && stage.base.events == VoidStep(old(stage.base.events), id)
  {
    var s, book := stage.base.Summarize();
    var dangling := Dangling(book.order, book.entries);
    assert IsOpen(book, id);
    assert forall x :: x in book.order ==> (IsOpen(book, x) <==> x == id);
    DanglingOne(book.order, book.entries, id);
    var k := 0;
    while k < |dangling|
      invariant 0 <= k <= |dangling| && stage.Valid()
      invariant stage.base.events == if k == 0 then old(stage.base.events) else VoidStep(old(stage.base.events), id)
    {
      var _ := stage.base.Void(dangling[k]);
      k := k + 1;
    }
  }

  /** What a whole call leaves behind: `end` is the journal, `n` the attempts made. */
  ghost predicate RetryOutcome(
      start: seq<Event>, end: seq<Event>, budget: Usd, carry: Carry,
      ids: seq<Id>, replies: seq<Reply>, r: Result<Routing.Decision>, n: nat)
    requires Accepted(start) && |ids| == LAST_ATTEMPT == |replies|
  {
    && 1 <= n <= LAST_ATTEMPT
    && (forall i :: 0 <= i < n - 1 ==> replies[i].Rejected? && Transient(replies[i].status))
    && RetiredSo(start, ids, n - 1, budget, carry)
    && var before := start + Retired(ids, n - 1);
       var called := Called(start, ids, n - 1, budget, carry, replies[n - 1]);
    && Accepted(called)
    && match Refusal(before, budget, carry, OPENROUTER)
       case Some(e) => r == Err(e) && end == before
       case None =>
         && r == ReplyResult(replies[n - 1], GrandTotal(BookOf(called), carry), budget)
         && if TransientStop(r)
            then n == LAST_ATTEMPT && RetiredSo(start, ids, n, budget, carry) && end == start + Retired(ids, n)
            else end == called
  }

  lemma RefusalIsNoRejection(before: seq<Event>, budget: Usd, carry: Carry, r: Result<Routing.Decision>, reply: Reply)
    requires Accepted(before) && TransientStop(r)
    requires Refusal(before, budget, carry, OPENROUTER).Some? ==>
      r.error == Refusal(before, budget, carry, OPENROUTER).value
    requires Refusal(before, budget, carry, OPENROUTER).None? ==> exists after :: r == ReplyResult(reply, after, budget)
    ensures Refusal(before, budget, carry, OPENROUTER).None?
    ensures reply == Rejected(r.error.code.status)
  {
  }

  lemma NoneRetired(start: seq<Event>, ids: seq<Id>, budget: Usd, carry: Carry)
    requires Accepted(start)
    ensures start + Retired(ids, 0) == start && RetiredSo(start, ids, 0, budget, carry)
  {
    assert start + [] == start;
  }

  lemma NextIsFresh(start: seq<Event>, ids: seq<Id>, n: nat, budget: Usd, carry: Carry)
    requires Accepted(start) && FreshIds(start, ids) && n < LAST_ATTEMPT && RetiredSo(start, ids, n, budget, carry)
    ensures Accepted(start + Retired(ids, n)) && ids[n] !in BookOf(start + Retired(ids, n)).entries
  {
  }

  /** What one pass of the loop does: the request, and its void if it was rejected before inference. */
  ghost predicate AttemptOutcome(
      before: seq<Event>, end: seq<Event>, budget: Usd, carry: Carry, id: Id, reply: Reply, r: Result<Routing.Decision>)
    requires Accepted(before)
  {
    var called := before + CallLines(before, budget, carry, id, reply);
    && Accepted(called)
    && match Refusal(before, budget, carry, OPENROUTER)
       case Some(e) => r == Err(e) && end == before
       case None =>
         && r == ReplyResult(reply, GrandTotal(BookOf(called), carry), budget)
         && end == if TransientStop(r) then VoidStep(called, id) else called
  }

  method Attempt(stage: Stage, id: Id, reply: Reply) returns (r: Result<Routing.Decision>)
    requires stage.Valid() && id !in BookOf(stage.base.events).entries
    modifies stage.base`events, stage.base.file
    ensures stage.Valid()
    ensures AttemptOutcome(old(stage.base.events), stage.base.events, stage.base.budget, stage.carry, id, reply, r)
  {
    ghost var before := stage.base.events;
    CallLinesAccepted(before, stage.base.budget, stage.carry, id, reply);
    assert before + [] == before;
    hide Accepted, Refusal;
    r := CallJev(stage, id, reply);
    if TransientStop(r) {
      RefusalIsNoRejection(before, stage.base.budget, stage.carry, r, reply);
      VoidDangling(stage, id);
    }
  }

  /** How an attempt ends a call, or leads on to the next one. */
  lemma AfterAttempt(
      start: seq<Event>, end: seq<Event>, budget: Usd, carry: Carry,
      ids: seq<Id>, replies: seq<Reply>, r: Result<Routing.Decision>, n: nat)
    requires Accepted(start) && FreshIds(start, ids) && n < LAST_ATTEMPT == |replies|
    requires RetiredSo(start, ids, n, budget, carry)
    requires forall i :: 0 <= i < n ==> replies[i].Rejected? && Transient(replies[i].status)
    requires AttemptOutcome(start + Retired(ids, n), end, budget, carry, ids[n], replies[n], r)
    ensures !TransientStop(r) || n + 1 == LAST_ATTEMPT ==>
              RetryOutcome(start, end, budget, carry, ids, replies, r, n + 1)
    ensures TransientStop(r) ==>
              RetiredSo(start, ids, n + 1, budget, carry) && end == start + Retired(ids, n + 1)
              && replies[n].Rejected? && Transient(replies[n].status)
  {
    NextIsFresh(start, ids, n, budget, carry);
    if TransientStop(r) {
      RefusalIsNoRejection(start + Retired(ids, n), budget, carry, r, replies[n]);
      RetireOne(start, ids, n, budget, carry, r.error.code.status);
    }
    hide RetiredSo, Accepted, ReplyResult, Retired, CallLines;
  }

  /**
   Calls until an answer, a stop that is not a transient rejection, or the eighth
   rejection. The journal afterwards holds the retired attempts and then at most
   the last call's own lines.
   */
  method CallWithRetry(stage: Stage, ids: seq<Id>, replies: seq<Reply>)
    returns (r: Result<Routing.Decision>, attempts: nat)
    requires stage.Valid() && FreshIds(stage.base.events, ids) && |ids| == |replies| == LAST_ATTEMPT
    modifies stage.base`events, stage.base.file
    ensures stage.Valid()
    ensures RetryOutcome(
      old(stage.base.events), stage.base.events, stage.base.budget, stage.carry, ids, replies, r, attempts)
  {
    hide Accepted, Retired, RetiredSo, RetryOutcome, AttemptOutcome, FreshIds;
    ghost var start := stage.base.events;
    attempts := 0;
    NoneRetired(start, ids, stage.base.budget, stage.carry);
    while true
      invariant 0 <= attempts < LAST_ATTEMPT == |ids|
      invariant stage.Valid() && RetiredSo(start, ids, attempts, stage.base.budget, stage.carry)
      invariant stage.base.events == start + Retired(ids, attempts)
      invariant forall i :: 0 <= i < attempts ==> replies[i].Rejected? && Transient(replies[i].status)
      decreases LAST_ATTEMPT - attempts
    {
      var n := attempts;
      attempts := attempts + 1;
      NextIsFresh(start, ids, n, stage.base.budget, stage.carry);
      r := Attempt(stage, ids[n], replies[n]);
      AfterAttempt(start, stage.base.events, stage.base.budget, stage.carry, ids, replies, r, n);
      if !TransientStop(r) {
        return;
      }
      if attempts > LAST_ATTEMPT - 1 {
        return;
      }
    }
  }

  /** The provider turned the request down before any inference. */
  predicate TurnedDown(reply: Reply) {
    reply.Rejected? && Transient(reply.status)
  }

  lemma ResultTellsReply(reply: Reply, after: Usd, budget: Usd)
    ensures var r := ReplyResult(reply, after, budget);
            && (TransientStop(r) <==> TurnedDown(reply))
            && (r.Ok? ==> reply.Billable())
            && (r == Err(Stop(TransportErrorUnknownUsage)) <==> reply.TransportError?)
  {
  }

  lemma RefusalTells(events: seq<Event>, budget: Usd, carry: Carry)
    requires Accepted(events) && Refusal(events, budget, carry, OPENROUTER).Some?
    ensures var r: Result<Routing.Decision> := Err(Refusal(events, budget, carry, OPENROUTER).value);
            !TransientStop(r) && r != Err(Stop(TransportErrorUnknownUsage))
  {
    hide Accepted, GrandTotal, Bound;
  }

  /** What is open when a call is over, whatever it came to. */
  lemma OpenAtEnd(
      start: seq<Event>, end: seq<Event>, budget: Usd, carry: Carry,
      ids: seq<Id>, replies: seq<Reply>, r: Result<Routing.Decision>, n: nat)
    requires Accepted(start) && FreshIds(start, ids) && |ids| == LAST_ATTEMPT == |replies|
    requires RetryOutcome(start, end, budget, carry, ids, replies, r, n)
    ensures Accepted(end)
    ensures Granted(start, ids, n - 1, budget, carry) ==>
              forall x :: IsOpen(BookOf(end), x) <==>
                x == ids[n - 1] && !replies[n - 1].Billable() && !TurnedDown(replies[n - 1])
    ensures !Granted(start, ids, n - 1, budget, carry) ==>
              if n == 1 then end == start else !SomethingOpen(BookOf(end))
    ensures r.Ok? ==> Granted(start, ids, n - 1, budget, carry) && replies[n - 1].Billable()
    ensures TransientStop(r) ==> Granted(start, ids, n - 1, budget, carry) && TurnedDown(replies[n - 1])
    ensures r == Err(Stop(TransportErrorUnknownUsage)) ==>
              Granted(start, ids, n - 1, budget, carry) && replies[n - 1].TransportError?
  {
    hide Accepted, CallLines, FreshIds, IsOpen, Refusal, ReplyResult, GrandTotal, Transient;
    var before := start + Retired(ids, n - 1);
    NoneRetired(start, ids, budget, carry);
    NextIsFresh(start, ids, n - 1, budget, carry);
    CallLinesAccepted(before, budget, carry, ids[n - 1], replies[n - 1]);
    if Refusal(before, budget, carry, OPENROUTER).Some? {
      RefusalTells(before, budget, carry);
    } else {
      var called := Called(start, ids, n - 1, budget, carry, replies[n - 1]);
      ResultTellsReply(replies[n - 1], GrandTotal(BookOf(called), carry), budget);
    }
  }

  /** On a normal return, and after the last transient rejection, no reservation is open. */
  lemma RetryLeavesNothingOpen(
      start: seq<Event>, end: seq<Event>, budget: Usd, carry: Carry,
      ids: seq<Id>, replies: seq<Reply>, r: Result<Routing.Decision>, n: nat)
    requires Accepted(start) && FreshIds(start, ids) && |ids| == LAST_ATTEMPT == |replies|
    requires RetryOutcome(start, end, budget, carry, ids, replies, r, n)
    requires r.Ok? || TransientStop(r)
    ensures Accepted(end) && !SomethingOpen(BookOf(end))
  {
    hide Accepted, RetryOutcome, FreshIds, Granted, IsOpen, TransientStop;
    OpenAtEnd(start, end, budget, carry, ids, replies, r, n);
  }

  /**
   A decision is only ever returned when it has been paid for: after the retired attempts its
   reservation and its settlement, at the provider's cost, are the journal's last lines, and
   history and stage are still within the budget.
   */
  lemma DecisionIsPaidFor(
      start: seq<Event>, end: seq<Event>, budget: Usd, carry: Carry,
      ids: seq<Id>, replies: seq<Reply>, d: Routing.Decision, n: nat)
    requires Accepted(start) && FreshIds(start, ids) && |ids| == LAST_ATTEMPT == |replies|
    requires RetryOutcome(start, end, budget, carry, ids, replies, Ok(d), n)
    ensures 1 <= n <= LAST_ATTEMPT
    ensures var reply := replies[n - 1];
            reply.Billable() && reply.decision == Some(d) && reply.tokens.value <= 262_144
            && end == start + Retired(ids, n - 1)
                      + [Event.Reserve(ids[n - 1], Bound(OPENROUTER), OPENROUTER),
                         Event.Settle(ids[n - 1], reply.cost.value)]
    ensures Accepted(end)
    ensures Total(BookOf(end), Settled) + Total(BookOf(end), Status.Open) + carry.priced + carry.unresolved <= budget
  {
    hide Accepted, Retired, FreshIds, Granted, IsOpen, Total, Refusal, RetiredSo;
    assert RetiredSo(start, ids, n - 1, budget, carry);
    NextIsFresh(start, ids, n - 1, budget, carry);
    CallLinesAccepted(start + Retired(ids, n - 1), budget, carry, ids[n - 1], replies[n - 1]);
  }

  lemma ResultInPlain(reply: Reply, after: Usd, budget: Usd)
    ensures var r := ReplyResult(reply, after, budget);
            var billed := reply.Answer? && reply.tokens.Some? && reply.tokens.value > 0
                          && reply.cost.Some? && reply.cost.value >= 0.0;
            && (reply.Billable() <==> billed)
            && (r == Err(Stop(TransportErrorUnknownUsage)) <==> reply.TransportError?)
            && (forall status :: r == Err(Stop(Http(status))) <==> reply == Rejected(status))
            && (r == Err(Stop(ProviderContextBoundExceeded)) <==> billed && reply.tokens.value > 262_144)
            && (r == Err(Stop(ProviderCostBoundExceeded)) <==>
                  billed && reply.tokens.value <= 262_144 && after > budget)
            && (r == Err(Stop(InvalidProviderResponse)) <==>
                  reply.Answer? && (billed ==>
                    reply.tokens.value <= 262_144 && after <= budget && reply.decision.None?))
            && (forall d :: r == Ok(d) <==>
                  billed && reply.tokens.value <= 262_144 && after <= budget && reply.decision == Some(d))
  {
  }

  /** The last attempt: its journal before and after, and its result by what was granted and replied. */
  lemma LastAttempt(
      start: seq<Event>, end: seq<Event>, budget: Usd, carry: Carry,
      ids: seq<Id>, replies: seq<Reply>, r: Result<Routing.Decision>, n: nat)
    requires Accepted(start) && FreshIds(start, ids) && |ids| == LAST_ATTEMPT == |replies|
    requires RetryOutcome(start, end, budget, carry, ids, replies, r, n)
    ensures 1 <= n <= 8 && Accepted(start + Retired(ids, n - 1)) && Accepted(end)
    ensures match Refusal(start + Retired(ids, n - 1), budget, carry, OPENROUTER)
            case Some(e) => r == Err(e)
            case None => r == ReplyResult(replies[n - 1], GrandTotal(BookOf(end), carry), budget)
    ensures n < 8 ==> !TransientStop(r)
  {
    hide Accepted, CallLines, FreshIds, IsOpen, ReplyResult, Total, SomethingOpen, Retired, Transient, GrandTotal;
    var before := start + Retired(ids, n - 1);
    NextIsFresh(start, ids, n - 1, budget, carry);
    CallLinesAccepted(before, budget, carry, ids[n - 1], replies[n - 1]);
    if Refusal(before, budget, carry, OPENROUTER).None? {
      var called := Called(start, ids, n - 1, budget, carry, replies[n - 1]);
      ResultTellsReply(replies[n - 1], GrandTotal(BookOf(called), carry), budget);
      UnsettledResult(replies[n - 1], budget);
    } else {
      RefusalTells(before, budget, carry);
    }
  }

  /**
   When a call returns a decision, for every journal and all replies: exactly when the last attempt
   was granted, its answer is billed for at most 262,144 tokens, history and stage are then within
   the budget, and the answer holds a decision, which is the one returned. Only attempts turned down
   with 403, 429 or 5xx are repeated, and these always, up to the eighth.
   */
  lemma CallReturnsIff(
      start: seq<Event>, end: seq<Event>, budget: Usd, carry: Carry,
      ids: seq<Id>, replies: seq<Reply>, r: Result<Routing.Decision>, n: nat)
    requires Accepted(start) && FreshIds(start, ids) && |ids| == LAST_ATTEMPT == |replies|
    requires RetryOutcome(start, end, budget, carry, ids, replies, r, n)
    ensures 1 <= n <= 8 && Accepted(start + Retired(ids, n - 1)) && Accepted(end)
    ensures forall i :: 0 <= i < n - 1 ==>
      replies[i].Rejected?
      && (replies[i].status == 403 || replies[i].status == 429 || 500 <= replies[i].status <= 599)
    ensures var reply, b, c := replies[n - 1], BookOf(start + Retired(ids, n - 1)), BookOf(end);
            var asked := Total(b, Settled) + Total(b, Status.Open) + carry.priced + carry.unresolved + 11_010_048.0;
            var spent := Total(c, Settled) + Total(c, Status.Open) + carry.priced + carry.unresolved;
            var granted := !SomethingOpen(b) && |b.order| < 550 && asked <= budget;
            && (forall d :: r == Ok(d) <==>
                  granted && reply.Answer? && reply.decision == Some(d) && spent <= budget
                  && reply.tokens.Some? && 0 < reply.tokens.value <= 262_144
                  && reply.cost.Some? && reply.cost.value >= 0.0)
            && (n < 8 && granted && reply.Rejected? ==>
                  reply.status != 403 && reply.status != 429 && !(500 <= reply.status <= 599))
  {
    LastAttempt(start, end, budget, carry, ids, replies, r, n);
    hide Accepted, FreshIds, ReplyResult, Total, SomethingOpen, Retired, Refusal, CallLines, RetiredSo;
    assert forall i :: 0 <= i < n - 1 ==> replies[i].Rejected? && Transient(replies[i].status);
    hide RetryOutcome;
    RefusedBecause(start + Retired(ids, n - 1), budget, carry);
    if Refusal(start + Retired(ids, n - 1), budget, carry, OPENROUTER).None? {
      ResultInPlain(replies[n - 1], GrandTotal(BookOf(end), carry), budget);
    }
  }

  /** When it stops instead, and with which code. */
  lemma CallStopsIff(
      start: seq<Event>, end: seq<Event>, budget: Usd, carry: Carry,
      ids: seq<Id>, replies: seq<Reply>, r: Result<Routing.Decision>, n: nat)
    requires Accepted(start) && FreshIds(start, ids) && |ids| == LAST_ATTEMPT == |replies|
    requires RetryOutcome(start, end, budget, carry, ids, replies, r, n)
    ensures 1 <= n <= 8 && Accepted(start + Retired(ids, n - 1)) && Accepted(end)
    ensures var reply, b, c := replies[n - 1], BookOf(start + Retired(ids, n - 1)), BookOf(end);
            var asked := Total(b, Settled) + Total(b, Status.Open) + carry.priced + carry.unresolved + 11_010_048.0;
            var spent := Total(c, Settled) + Total(c, Status.Open) + carry.priced + carry.unresolved;
            var granted := !SomethingOpen(b) && |b.order| < 550 && asked <= budget;
            var billed := reply.Answer? && reply.tokens.Some? && reply.tokens.value > 0
                          && reply.cost.Some? && reply.cost.value >= 0.0;
            && (r == Err(Stop(UnresolvedPreviousAttempt)) <==> SomethingOpen(b))
            && (r == Err(Stop(RequestCapReached)) <==> !SomethingOpen(b) && |b.order| >= 550)
            && (r == Err(Stop(BudgetExhausted)) <==> !SomethingOpen(b) && |b.order| < 550 && asked > budget)
            && (r == Err(Stop(TransportErrorUnknownUsage)) <==> granted && reply.TransportError?)
            && (forall status :: r == Err(Stop(Http(status))) <==> granted && reply == Rejected(status))
            && (r == Err(Stop(ProviderContextBoundExceeded)) <==> granted && billed && reply.tokens.value > 262_144)
            && (r == Err(Stop(ProviderCostBoundExceeded)) <==>
                  granted && billed && reply.tokens.value <= 262_144 && spent > budget)
            && (r == Err(Stop(InvalidProviderResponse)) <==>
                  granted && reply.Answer? && (billed ==>
                    reply.tokens.value <= 262_144 && spent <= budget && reply.decision.None?))
  {
    LastAttempt(start, end, budget, carry, ids, replies, r, n);
    hide Accepted, FreshIds, ReplyResult, Total, SomethingOpen, Retired, Refusal, CallLines, RetryOutcome;
    RefusedBecause(start + Retired(ids, n - 1), budget, carry);
    if Refusal(start + Retired(ids, n - 1), budget, carry, OPENROUTER).None? {
      ResultInPlain(replies[n - 1], GrandTotal(BookOf(end), carry), budget);
    }
  }

  /** An unknown outcome leaves exactly its own reservation open, and nothing voids it. */
  lemma TransportErrorStaysOpen(
      start: seq<Event>, end: seq<Event>, budget: Usd, carry: Carry,
      ids: seq<Id>, replies: seq<Reply>, n: nat)
    requires Accepted(start) && FreshIds(start, ids) && |ids| == LAST_ATTEMPT == |replies|
    requires RetryOutcome(start, end, budget, carry, ids, replies, Err(Stop(TransportErrorUnknownUsage)), n)
    ensures Accepted(end) && 1 <= n <= LAST_ATTEMPT && forall x :: IsOpen(BookOf(end), x) <==> x == ids[n - 1]
  {
    assert 1 <= n <= LAST_ATTEMPT;
    hide Accepted, RetryOutcome, FreshIds, Granted, IsOpen;
    OpenAtEnd(start, end, budget, carry, ids, replies, Err(Stop(TransportErrorUnknownUsage)), n);
  }

  /**
   Exactly which calls leave a reservation open: those whose last attempt was granted and whose
   last reply is neither billable nor a rejection known to precede inference.
   */
  lemma OpenAfterCallIff(
      start: seq<Event>, end: seq<Event>, budget: Usd, carry: Carry,
      ids: seq<Id>, replies: seq<Reply>, r: Result<Routing.Decision>, n: nat)
    requires Accepted(start) && !SomethingOpen(BookOf(start))
    requires FreshIds(start, ids) && |ids| == LAST_ATTEMPT == |replies|
    requires RetryOutcome(start, end, budget, carry, ids, replies, r, n)
    ensures Accepted(end) && 1 <= n <= LAST_ATTEMPT
    ensures SomethingOpen(BookOf(end)) <==>
      Granted(start, ids, n - 1, budget, carry) && !replies[n - 1].Billable() && !TurnedDown(replies[n - 1])
  {
    assert 1 <= n <= LAST_ATTEMPT;
    hide Accepted, RetryOutcome, FreshIds, Granted, IsOpen, TurnedDown;
    OpenAtEnd(start, end, budget, carry, ids, replies, r, n);
    if Granted(start, ids, n - 1, budget, carry) && !replies[n - 1].Billable() && !TurnedDown(replies[n - 1]) {
      assert IsOpen(BookOf(end), ids[n - 1]);
    }
  }

  /** While anything is open, every later call, in this process or the next, stops at once and writes nothing. */
  lemma OpenReservationStopsCalls(
      start: seq<Event>, end: seq<Event>, budget: Usd, carry: Carry,
      ids: seq<Id>, replies: seq<Reply>, r: Result<Routing.Decision>, n: nat)
    requires Accepted(start) && SomethingOpen(BookOf(start)) && |ids| == LAST_ATTEMPT == |replies|
    requires RetryOutcome(start, end, budget, carry, ids, replies, r, n)
    ensures r == Err(Stop(UnresolvedPreviousAttempt)) && end == start && n == 1
  {
    NoneRetired(start, ids, budget, carry);
    assert n > 1 ==> Granted(start, ids, 0, budget, carry);
  }
}
