/** The most runs of one tenant that were ever active together, found by sweeping their ends. */
module Fairness {
  import opened Orders

  datatype Run = Run(tenant: string, started: real, finished: real)

  datatype Event = Event(time: real, change: int)

  /** By time, and at one time an end before a start. */
  predicate EventLe(a: Event, b: Event) {
    a.time < b.time || (a.time == b.time && a.change <= b.change)
  }

  predicate ActiveAt(run: Run, t: real) {
    run.started <= t < run.finished
  }

  /** How many of the runs were active at an instant. */
  function Active(runs: seq<Run>, t: real): nat {
    if runs == [] then 0 else (if ActiveAt(runs[0], t) then 1 else 0) + Active(runs[1..], t)
  }

  function Starts(runs: seq<Run>): seq<Event> {
    if runs == [] then [] else [Event(runs[0].started, 1)] + Starts(runs[1..])
  }

  function Finishes(runs: seq<Run>): seq<Event> {
    if runs == [] then [] else [Event(runs[0].finished, -1)] + Finishes(runs[1..])
  }

  function Sum(events: seq<Event>): int {
    if events == [] then 0 else Sum(events[..|events| - 1]) + events[|events| - 1].change
  }

  /** What the events up to and including an instant add up to. */
  function Total(events: seq<Event>, t: real): int {
    if events == [] then 0
    else (if events[0].time <= t then events[0].change else 0) + Total(events[1..], t)
  }

  lemma {:induction false} TotalAppend(a: seq<Event>, b: seq<Event>, t: real)
    ensures Total(a + b, t) == Total(a, t) + Total(b, t)
  {
    if a == [] {
      assert a + b == b;
    } else {
      assert (a + b)[1..] == a[1..] + b;
      TotalAppend(a[1..], b, t);
    }
  }

  lemma {:induction false} TotalInsert(e: Event, s: seq<Event>, t: real)
    ensures Total(Insert(EventLe, e, s), t) == Total([e], t) + Total(s, t)
  {
    if s == [] || EventLe(e, s[0]) {
      TotalAppend([e], s, t);
    } else {
      TotalInsert(e, s[1..], t);
      TotalAppend([s[0]], Insert(EventLe, e, s[1..]), t);
      TotalAppend([s[0]], s[1..], t);
      assert s == [s[0]] + s[1..];
    }
  }

  lemma {:induction false} TotalSort(s: seq<Event>, t: real)
    ensures Total(Sort(EventLe, s), t) == Total(s, t)
  {
    if s != [] {
      TotalSort(s[1..], t);
      TotalInsert(s[0], Sort(EventLe, s[1..]), t);
      TotalAppend([s[0]], s[1..], t);
      assert s == [s[0]] + s[1..];
    }
  }

  ghost predicate Forward(runs: seq<Run>) {
    forall r :: r in runs ==> r.started <= r.finished
  }

  lemma {:induction false} TotalCountsActive(runs: seq<Run>, t: real)
    requires Forward(runs)
    ensures Total(Starts(runs), t) + Total(Finishes(runs), t) == Active(runs, t)
  {
    if runs != [] {
      assert runs[0].started <= runs[0].finished;
      TotalCountsActive(runs[1..], t);
      TotalAppend([Event(runs[0].started, 1)], Starts(runs[1..]), t);
      TotalAppend([Event(runs[0].finished, -1)], Finishes(runs[1..]), t);
    }
  }

  function Timeline(runs: seq<Run>): seq<Event> {
    Sort(EventLe, Starts(runs) + Finishes(runs))
  }

  lemma TimelineCountsActive(runs: seq<Run>, t: real)
    requires Forward(runs)
    ensures Total(Timeline(runs), t) == Active(runs, t)
  {
    TotalSort(Starts(runs) + Finishes(runs), t);
    TotalAppend(Starts(runs), Finishes(runs), t);
    TotalCountsActive(runs, t);
  }

  lemma {:induction false} UnitChanges(runs: seq<Run>)
    ensures forall e :: e in Starts(runs) ==> e.change == 1
    ensures forall e :: e in Finishes(runs) ==> e.change == -1
  {
    if runs != [] { UnitChanges(runs[1..]); }
  }

  lemma TimelineIsSorted(runs: seq<Run>)
    ensures Sorted(EventLe, Timeline(runs))
    ensures forall e :: e in Timeline(runs) ==> e.change == 1 || e.change == -1
  {
    var events := Starts(runs) + Finishes(runs);
    SortSorts(EventLe, events);
    UnitChanges(runs);
    forall e | e in Timeline(runs) ensures e in events {
      assert e in multiset(Timeline(runs));
    }
  }

  /** Events that are all over count in full, events still to come do not count. */
  lemma {:induction false} TotalPast(s: seq<Event>, t: real)
    requires forall e :: e in s ==> e.time <= t
    ensures Total(s, t) == Sum(s)
  {
    if s != [] {
      var n := |s| - 1;
      assert s == s[..n] + [s[n]];
      TotalPast(s[..n], t);
      TotalAppend(s[..n], [s[n]], t);
    }
  }

  lemma {:induction false} TotalFuture(s: seq<Event>, t: real)
    requires forall e :: e in s ==> e.time > t || e.change >= 0
    ensures Total(s, t) >= 0
    ensures (forall e :: e in s ==> e.time > t) ==> Total(s, t) == 0
  {
    if s != [] { TotalFuture(s[1..], t); }
  }

  /** Every instant sees some prefix of the timeline. */
  lemma InstantIsPrefix(s: seq<Event>, t: real) returns (k: nat)
    requires Sorted(EventLe, s)
    ensures k <= |s| && Total(s, t) == Sum(s[..k])
  {
    k := 0;
    while k < |s| && s[k].time <= t
      invariant k <= |s|
      invariant forall e :: e in s[..k] ==> e.time <= t
    {
      assert s[..k + 1] == s[..k] + [s[k]];
      k := k + 1;
    }
    SplitAtInstant(s, k, t);
  }

  lemma SplitAtInstant(s: seq<Event>, k: nat, t: real)
    requires Sorted(EventLe, s) && k <= |s| && (k < |s| ==> s[k].time > t)
    requires forall e :: e in s[..k] ==> e.time <= t
    ensures Total(s, t) == Sum(s[..k])
  {
    assert s == s[..k] + s[k..];
    forall e | e in s[k..] ensures e.time > t {
      var j :| k <= j < |s| && s[j] == e;
      assert k == j || EventLe(s[k], s[j]);
    }
    TotalAppend(s[..k], s[k..], t);
    TotalPast(s[..k], t);
    TotalFuture(s[k..], t);
  }

  /** At the time of a start, at least the prefix up to it is active: no end at that time comes later. */
  lemma PrefixBelowInstant(s: seq<Event>, k: nat)
    requires Sorted(EventLe, s) && k < |s| && s[k].change == 1
    ensures Sum(s[..k + 1]) <= Total(s, s[k].time)
  {
    var t := s[k].time;
    assert s == s[..k + 1] + s[k + 1..];
    forall e | e in s[..k + 1] ensures e.time <= t {
      var j :| 0 <= j < k + 1 && s[j] == e;
      assert j == k || EventLe(s[j], s[k]);
    }
    forall e | e in s[k + 1..] ensures e.time > t || e.change >= 0 {
      var j :| k + 1 <= j < |s| && s[j] == e;
      assert EventLe(s[k], s[j]);
    }
    TotalAppend(s[..k + 1], s[k + 1..], t);
    TotalPast(s[..k + 1], t);
    TotalFuture(s[k + 1..], t);
  }

  /** The greatest number of runs active at one instant. */
  ghost predicate IsPeak(runs: seq<Run>, peak: int) {
    && (forall t :: Active(runs, t) <= peak)
    && (exists t :: Active(runs, t) == peak)
  }

  lemma StartIsReached(runs: seq<Run>, i: nat)
    requires Forward(runs) && i < |Timeline(runs)|
    ensures Timeline(runs)[i].change == 1 || Timeline(runs)[i].change == -1
    ensures Sum(Timeline(runs)[..i + 1]) == Sum(Timeline(runs)[..i]) + Timeline(runs)[i].change
    ensures Timeline(runs)[i].change == 1 ==> Sum(Timeline(runs)[..i + 1]) <= Active(runs, Timeline(runs)[i].time)
  {
    hide Timeline, Total, Active, EventLe, Sorted;
    var events := Timeline(runs);
    TimelineIsSorted(runs);
    assert events[i] in events && events[..i + 1][..i] == events[..i];
    if events[i].change == 1 {
      PrefixBelowInstant(events, i);
      TimelineCountsActive(runs, events[i].time);
    }
  }

  lemma InstantWasSummed(runs: seq<Run>, t: real)
    requires Forward(runs)
    ensures exists k :: 0 <= k <= |Timeline(runs)| && Active(runs, t) == Sum(Timeline(runs)[..k])
  {
    TimelineIsSorted(runs);
    TimelineCountsActive(runs, t);
    var k := InstantIsPrefix(Timeline(runs), t);
  }

  /** The sweep: the running sum over the timeline, and its greatest value. */
  method Peak(runs: seq<Run>) returns (maximum: int)
    requires Forward(runs)
    ensures IsPeak(runs, maximum)
  {
    hide Timeline, Active, Sum, Forward;
    var events := Timeline(runs);
    var active := 0;
    maximum := 0;
    assert active == Sum(events[..0]) by { EmptySum(); }
    assert Active(runs, 0.0) >= maximum;
    for i := 0 to |events|
      invariant active == Sum(events[..i])
      invariant forall k :: 0 <= k <= i ==> Sum(events[..k]) <= maximum
      invariant exists t :: Active(runs, t) >= maximum
    {
      StartIsReached(runs, i);
      active := active + events[i].change;
      assert active > maximum ==> Active(runs, events[i].time) >= active;
      maximum := if active > maximum then active else maximum;
    }
    forall t ensures Active(runs, t) <= maximum {
      InstantWasSummed(runs, t);
    }
  }

  lemma EmptySum()
    ensures forall events :: events == [] ==> Sum(events) == 0
  {
  }

  /** What `fairness` reports for one tenant: the peak of that tenant's own runs. */
  method MaxConcurrency(rows: seq<Run>, tenant: string) returns (maximum: int)
    requires Forward(rows)
    ensures IsPeak(Filter((r: Run) => r.tenant == tenant, rows), maximum)
    ensures maximum <= 1 <==> NeverTogether(Filter((r: Run) => r.tenant == tenant, rows))
  {
    var selected := Filter((r: Run) => r.tenant == tenant, rows);
    FilterWithin((r: Run) => r.tenant == tenant, rows);
    maximum := Peak(selected);
    OneAtATimeIff(selected, maximum);
  }

  lemma {:induction false} FilterWithin<T>(p: T -> bool, s: seq<T>)
    ensures forall x :: x in Filter(p, s) <==> x in s && p(x)
  {
    if s != [] { FilterWithin(p, s[1..]); }
  }

  predicate Together(a: Run, b: Run) {
    a.started < a.finished && b.started < b.finished && a.started < b.finished && b.started < a.finished
  }

  ghost predicate NeverTogether(runs: seq<Run>) {
    forall i, j :: 0 <= i < j < |runs| ==> !Together(runs[i], runs[j])
  }

  lemma {:induction false} SomeActive(runs: seq<Run>, t: real)
    ensures Active(runs, t) > 0 <==> exists i :: 0 <= i < |runs| && ActiveAt(runs[i], t)
  {
    if runs != [] {
      SomeActive(runs[1..], t);
      if Active(runs[1..], t) > 0 {
        var i :| 0 <= i < |runs| - 1 && ActiveAt(runs[1..][i], t);
        assert ActiveAt(runs[i + 1], t);
      }
      assert forall i :: 0 < i < |runs| ==> runs[i] == runs[1..][i - 1];
    }
  }

  lemma {:induction false} TwoActive(runs: seq<Run>, t: real)
    ensures Active(runs, t) > 1 <==> exists i, j :: 0 <= i < j < |runs| && ActiveAt(runs[i], t) && ActiveAt(runs[j], t)
  {
    if runs != [] {
      var rest := runs[1..];
      TwoActive(rest, t);
      SomeActive(rest, t);
      assert forall i :: 0 < i < |runs| ==> runs[i] == rest[i - 1];
      if Active(rest, t) > 1 {
        var i, j :| 0 <= i < j < |rest| && ActiveAt(rest[i], t) && ActiveAt(rest[j], t);
        assert ActiveAt(runs[i + 1], t) && ActiveAt(runs[j + 1], t);
      } else if Active(runs, t) > 1 {
        var j :| 0 <= j < |rest| && ActiveAt(rest[j], t);
        assert ActiveAt(runs[0], t) && ActiveAt(runs[j + 1], t);
      }
    }
  }

  /** The reported peak is at most one exactly when no two of the runs overlapped. */
  lemma OneAtATimeIff(runs: seq<Run>, peak: int)
    requires IsPeak(runs, peak)
    ensures peak <= 1 <==> NeverTogether(runs)
  {
    if !NeverTogether(runs) {
      var i, j :| 0 <= i < j < |runs| && Together(runs[i], runs[j]);
      var t := if runs[i].started < runs[j].started then runs[j].started else runs[i].started;
      assert ActiveAt(runs[i], t) && ActiveAt(runs[j], t);
      TwoActive(runs, t);
    }
    var t :| Active(runs, t) == peak;
    TwoActive(runs, t);
    if peak > 1 {
      var i, j :| 0 <= i < j < |runs| && ActiveAt(runs[i], t) && ActiveAt(runs[j], t);
      assert Together(runs[i], runs[j]);
    }
  }
}
