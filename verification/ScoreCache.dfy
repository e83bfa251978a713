/**
 The resumable score cache: a memory-mapped partial file, a progress file, and
 their promotion to the published cache. One action is one effect; a crash may come
 before any of them and keeps an arbitrary part of the writes not yet flushed.

 The runs here are of one job at a time: `SharedCache` lets several jobs use the files.
 */
module ScoreCache {
  import opened Options
  import Orders

  type Score = real

  /** What the identity file and the progress file record of a job. */
  type Identity = nat

  /**
   What is being scored: `truth` is `predict` on every pair in order, `chunk` the
   batch, and `saves` says after which positions progress is recorded.
   */
  datatype Job = Job(id: Identity, truth: seq<Score>, chunk: nat, saves: nat -> bool)

  ghost predicate ValidJob(j: Job) {
    j.chunk > 0
  }

  /** Every 512 pairs, each recorded. */
  function RerankerJob(id: Identity, truth: seq<Score>): Job {
    Job(id, truth, 512, stop => true)
  }

  /** Every 256 passages, recorded at multiples of 2048 and at the end. */
  function EmbeddingJob(id: Identity, truth: seq<Score>): Job {
    Job(id, truth, 256, stop => stop % 2048 == 0 || stop == |truth|)
  }

  /** A progress file: the job that wrote it, and how far it had come. */
  datatype Progress = Progress(owner: Identity, completed: nat)

  datatype Disk = Disk(
    cache: Option<seq<Score>>, identity: Option<Identity>, partial: Option<seq<Score>>, progress: Option<Progress>)

  datatype Process =
    | Dead
    | ClearPartial
    | ClearProgress
    | MakeFresh
    | Running(pos: nat, mem: seq<Score>)
    | Written(stop: nat, mem: seq<Score>)
    | Flushed(stop: nat, mem: seq<Score>)
    | Finishing(mem: seq<Score>)
    | Replaced
    | Tidying

  datatype State = State(disk: Disk, process: Process)

  datatype Action = Start | Go | Crash(kept: seq<bool>)

  const EMPTY_DISK := Disk(None, None, None, None)

  function Zeros(n: nat): (z: seq<Score>)
    ensures |z| == n && forall i :: 0 <= i < n ==> z[i] == 0.0
  {
    seq(n, _ => 0.0)
  }

  /** The cache a caller is handed without any computation. */
  predicate Verified(j: Job, d: Disk) {
    d.cache.Some? && d.identity == Some(j.id) && |d.cache.value| == |j.truth|
  }

  predicate Resumable(j: Job, d: Disk) {
    d.partial.Some? && d.progress.Some? && d.progress.value.owner == j.id && |d.partial.value| == |j.truth|
  }

  predicate Mapped(p: Process) {
    p.Running? || p.Written? || p.Flushed? || p.Finishing?
  }

  predicate Enabled(j: Job, s: State, a: Action) {
    match a
    case Start => s.process.Dead? && !Verified(j, s.disk)
    case Go =>
      !s.process.Dead? && (Mapped(s.process) ==> s.disk.partial.Some? && |s.process.mem| == |j.truth|)
    case Crash(kept) =>
      !s.process.Dead?
      && (Mapped(s.process) ==>
            s.disk.partial.Some? && |s.process.mem| == |s.disk.partial.value| == |kept|)
  }

  /** What reached the file: per entry, either the mapped value or the one flushed before. */
  function Mix(flushed: seq<Score>, mem: seq<Score>, kept: seq<bool>): (r: seq<Score>)
    requires |flushed| == |mem| == |kept|
    ensures |r| == |mem| && forall i :: 0 <= i < |mem| ==> r[i] == if kept[i] then mem[i] else flushed[i]
  {
    seq(|mem|, i requires 0 <= i < |mem| => if kept[i] then mem[i] else flushed[i])
  }

  /** Scores `[pos, stop)` written into the map. */
  function Fill(j: Job, mem: seq<Score>, pos: nat, stop: nat): (r: seq<Score>)
    requires |mem| == |j.truth| && pos <= stop <= |mem|
    ensures |r| == |mem|
    ensures forall i :: 0 <= i < |mem| ==> r[i] == if pos <= i < stop then j.truth[i] else mem[i]
  {
    mem[..pos] + j.truth[pos..stop] + mem[stop..]
  }

  function Next(j: Job, s: State, a: Action): State
    requires Enabled(j, s, a)
  {
    var d := s.disk;
    match a
    case Start =>
      if d.partial.Some? && d.progress.Some? then
        if Resumable(j, d) then s.(process := Running(d.progress.value.completed, d.partial.value))
        else s.(process := ClearPartial)
      else s.(process := MakeFresh)
    case Crash(kept) =>
      if Mapped(s.process) then
        State(d.(partial := Some(Mix(d.partial.value, s.process.mem, kept))), Dead)
      else s.(process := Dead)
    case Go =>
      match s.process
      case Dead => s
      case ClearPartial => State(d.(partial := None), ClearProgress)
      case ClearProgress => State(d.(progress := None), MakeFresh)
      case MakeFresh => State(d.(partial := Some(Zeros(|j.truth|))), Running(0, Zeros(|j.truth|)))
      case Running(pos, mem) =>
        if pos < |j.truth| then
          var stop := Orders.Min(pos + j.chunk, |j.truth|);
          s.(process := Written(stop, Fill(j, mem, pos, stop)))
        else State(d.(partial := Some(mem)), Finishing(mem))
      case Written(stop, mem) =>
        if j.saves(stop) then State(d.(partial := Some(mem)), Flushed(stop, mem))
        else s.(process := Running(stop, mem))
      case Flushed(stop, mem) => State(d.(progress := Some(Progress(j.id, stop))), Running(stop, mem))
      case Finishing(mem) => State(d.(cache := d.partial, partial := None), Replaced)
      case Replaced => State(d.(identity := Some(j.id)), Tidying)
      case Tidying => State(d.(progress := None), Dead)
  }

  /** A crash after the promotion and before the identity file: the window nothing repairs. */
  predicate InWindow(j: Job, s: State, a: Action) {
    a.Crash? && s.process.Replaced?
  }

  ghost predicate Reaches(j: Job, s: State, actions: seq<Action>, t: State)
    decreases |actions|
  {
    if actions == [] then s == t
    else Enabled(j, s, actions[0]) && !InWindow(j, s, actions[0])
         && Reaches(j, Next(j, s, actions[0]), actions[1..], t)
  }

  /** The values a resuming process would start from. */
  function Base(j: Job, d: Disk): (b: seq<Score>)
    ensures |b| == |j.truth|
  {
    if d.partial.Some? && |d.partial.value| == |j.truth| then d.partial.value else Zeros(|j.truth|)
  }

  ghost predicate RightBelow(j: Job, values: seq<Score>, n: nat) {
    |values| == |j.truth| && forall i :: 0 <= i < Orders.Min(n, |values|) ==> values[i] == j.truth[i]
  }

  /** What the files must satisfy between processes. */
  ghost predicate Trustworthy(j: Job, d: Disk) {
    if Verified(j, d) then d.cache.value == j.truth
    else d.progress.Some? && d.progress.value.owner == j.id ==> RightBelow(j, Base(j, d), d.progress.value.completed)
  }

  ghost predicate Inv(j: Job, s: State) {
    var d, p := s.disk, s.process;
    var claimed := if d.progress.Some? && d.progress.value.owner == j.id then d.progress.value.completed else 0;
    match p
    case Dead => Trustworthy(j, d)
    case ClearPartial => !Verified(j, d) && Trustworthy(j, d) && !Resumable(j, d)
    case ClearProgress => !Verified(j, d) && Trustworthy(j, d) && d.partial.None?
    case MakeFresh => !Verified(j, d) && Trustworthy(j, d) && RightBelow(j, Zeros(|j.truth|), claimed)
    case Running(pos, mem) => Mapping(j, d, mem, pos, claimed)
    case Written(stop, mem) => Mapping(j, d, mem, stop, claimed)
    case Flushed(stop, mem) => Mapping(j, d, mem, stop, claimed) && d.partial.value == mem
    case Finishing(mem) => Mapping(j, d, mem, |j.truth|, claimed) && d.partial.value == mem
    case Replaced => d.cache == Some(j.truth) && d.partial.None?
    case Tidying => d.cache == Some(j.truth) && d.identity == Some(j.id)
  }

  ghost predicate Mapping(j: Job, d: Disk, mem: seq<Score>, pos: nat, claimed: nat) {
    && !Verified(j, d)
    && d.partial.Some?
    && RightBelow(j, d.partial.value, claimed)
    && RightBelow(j, mem, claimed) && RightBelow(j, mem, pos)
  }

  lemma StartKeepsInv(j: Job, s: State)
    requires ValidJob(j) && Inv(j, s) && Enabled(j, s, Start)
    ensures Inv(j, Next(j, s, Start))
  {
  }

  lemma CrashKeepsInv(j: Job, s: State, a: Action)
    requires ValidJob(j) && Inv(j, s) && a.Crash? && Enabled(j, s, a) && !InWindow(j, s, a)
    ensures Inv(j, Next(j, s, a))
  {
    hide Fill, Zeros;
  }

  /** A chunk written over a right prefix makes a longer one. */
  lemma WriteKeepsInv(j: Job, s: State)
    requires ValidJob(j) && Inv(j, s) && s.process.Running? && s.process.pos < |j.truth| && Enabled(j, s, Go)
    ensures Inv(j, Next(j, s, Go))
  {
    hide Mix;
  }

  /** The map is complete when the last chunk has been passed, and then it is promoted. */
  lemma FinishKeepsInv(j: Job, s: State)
    requires ValidJob(j) && Inv(j, s) && Enabled(j, s, Go)
    requires s.process.Finishing? || (s.process.Running? && s.process.pos >= |j.truth|)
    ensures Inv(j, Next(j, s, Go))
  {
    hide Mix, Fill;
    assert s.process.mem == j.truth;
  }

  lemma GoKeepsInv(j: Job, s: State)
    requires ValidJob(j) && Inv(j, s) && Enabled(j, s, Go)
    ensures Inv(j, Next(j, s, Go))
  {
    hide Mix, Fill;
    if s.process.Running? && s.process.pos < |j.truth| {
      WriteKeepsInv(j, s);
    } else if s.process.Finishing? || s.process.Running? {
      FinishKeepsInv(j, s);
    }
  }

  lemma StepKeepsInv(j: Job, s: State, a: Action)
    requires ValidJob(j) && Inv(j, s) && Enabled(j, s, a) && !InWindow(j, s, a)
    ensures Inv(j, Next(j, s, a))
  {
    hide Inv, Enabled, Next;
    match a
    case Start => StartKeepsInv(j, s);
    case Go => GoKeepsInv(j, s);
    case Crash(_) => CrashKeepsInv(j, s, a);
  }

  /**
   After any number of crashes outside the window, the cache a caller is handed is
   `predict` on every pair, in order.
   */
  lemma {:induction false} PublishedIsRight(j: Job, s: State, actions: seq<Action>, t: State)
    requires ValidJob(j) && Inv(j, s) && Reaches(j, s, actions, t)
    ensures Inv(j, t) && (Verified(j, t.disk) ==> t.disk.cache.value == j.truth)
    decreases |actions|
  {
    if actions != [] {
      StepKeepsInv(j, s, actions[0]);
      PublishedIsRight(j, Next(j, s, actions[0]), actions[1..], t);
    }
  }

  lemma FreshDirectoryIsRight(j: Job, actions: seq<Action>, t: State)
    requires ValidJob(j) && Reaches(j, State(EMPTY_DISK, Dead), actions, t) && Verified(j, t.disk)
    ensures t.disk.cache.value == j.truth
  {
    PublishedIsRight(j, State(EMPTY_DISK, Dead), actions, t);
  }

  /** The job would be handed this cache, and it is wrong. */
  predicate HandsOutWrong(j: Job, d: Disk) {
    Verified(j, d) && d.cache.value != j.truth
  }

  ghost predicate PublishesWrong(j: Job, d: Disk) {
    exists actions, t :: Reaches(j, State(d, Dead), actions, t) && HandsOutWrong(j, t.disk)
  }

  /** Left alone, a process that is already mapping publishes what it holds below its position. */
  lemma {:induction false} RunsToPublication(j: Job, s: State) returns (actions: seq<Action>, t: State)
    requires ValidJob(j) && s.process.Running? && s.disk.partial.Some? && |s.process.mem| == |j.truth|
    ensures Reaches(j, s, actions, t) && t.process.Tidying? && Verified(j, t.disk)
    ensures forall i :: 0 <= i < Orders.Min(s.process.pos, |j.truth|) ==> t.disk.cache.value[i] == s.process.mem[i]
    decreases |j.truth| - s.process.pos
  {
    var u := Next(j, s, Go);
    if s.process.pos < |j.truth| {
      var v := Next(j, u, Go);
      var w := if v.process.Flushed? then Next(j, v, Go) else v;
      actions, t := RunsToPublication(j, w);
      if v.process.Flushed? { actions := Then(j, v, Go, w, actions, t); }
      actions := Then(j, u, Go, v, actions, t);
    } else {
      var v := Next(j, u, Go);
      t := Next(j, v, Go);
      actions := Then(j, v, Go, t, [], t);
      actions := Then(j, u, Go, v, actions, t);
    }
    actions := Then(j, s, Go, u, actions, t);
  }

  lemma Then(j: Job, s: State, a: Action, u: State, rest: seq<Action>, t: State) returns (actions: seq<Action>)
    requires Enabled(j, s, a) && !InWindow(j, s, a) && u == Next(j, s, a) && Reaches(j, u, rest, t)
    ensures Reaches(j, s, actions, t)
  {
    actions := [a] + rest;
    assert actions[1..] == rest;
  }

  lemma Precede(j: Job, s: State, a: Action, u: State)
    requires Enabled(j, s, a) && !InWindow(j, s, a) && u == Next(j, s, a)
    requires exists rest, t :: Reaches(j, u, rest, t) && HandsOutWrong(j, t.disk)
    ensures exists rest, t :: Reaches(j, s, rest, t) && HandsOutWrong(j, t.disk)
  {
    var rest, t :| Reaches(j, u, rest, t) && HandsOutWrong(j, t.disk);
    var actions := Then(j, s, a, u, rest, t);
  }

  /** Resuming over a wrong entry publishes it. */
  lemma ResumePublishesWrong(j: Job, d: Disk)
    requires ValidJob(j) && !Verified(j, d) && Resumable(j, d)
    requires !RightBelow(j, d.partial.value, d.progress.value.completed)
    ensures PublishesWrong(j, d)
  {
    var s := State(d, Dead);
    var u := Next(j, s, Start);
    var i :| 0 <= i < Orders.Min(d.progress.value.completed, |j.truth|) && d.partial.value[i] != j.truth[i];
    var rest, t := RunsToPublication(j, u);
    assert t.disk.cache.value[i] != j.truth[i];
    Precede(j, s, Start, u);
  }

  /** A stale progress file with nothing under it: a fresh map, one crash, and zeros are resumed over. */
  lemma StalePublishesWrong(j: Job, d: Disk)
    requires ValidJob(j) && !Verified(j, d) && d.partial.None?
    requires d.progress.Some? && d.progress.value.owner == j.id
    requires !RightBelow(j, Zeros(|j.truth|), d.progress.value.completed)
    ensures PublishesWrong(j, d)
  {
    var s := State(d, Dead);
    var u := Next(j, s, Start);
    var v := Next(j, u, Go);
    var kept := seq(|j.truth|, _ => true);
    var w := Next(j, v, Crash(kept));
    assert w.disk.partial.value == Zeros(|j.truth|);
    ResumePublishesWrong(j, w.disk);
    assert w == State(w.disk, Dead);
    Precede(j, v, Crash(kept), w);
    Precede(j, u, Go, v);
    Precede(j, s, Start, u);
  }

  lemma UntrustworthyPublishesWrong(j: Job, d: Disk)
    requires ValidJob(j) && !Trustworthy(j, d)
    ensures PublishesWrong(j, d)
  {
    var s := State(d, Dead);
    if Verified(j, d) {
      assert Reaches(j, s, [], s);
    } else if Resumable(j, d) {
      ResumePublishesWrong(j, d);
    } else if d.partial.None? {
      StalePublishesWrong(j, d);
    } else {
      var u := Next(j, s, Start);
      var v := Next(j, u, Go);
      var w := Next(j, v, Crash([]));
      StalePublishesWrong(j, w.disk);
      assert w == State(w.disk, Dead);
      Precede(j, v, Crash([]), w);
      Precede(j, u, Go, v);
      Precede(j, s, Start, u);
    }
  }

  /** Exactly the trustworthy files never lead the job to a wrong published cache by crashes outside the window. */
  lemma TrustworthyIff(j: Job, d: Disk)
    requires ValidJob(j)
    ensures Trustworthy(j, d) <==> !PublishesWrong(j, d)
  {
    if Trustworthy(j, d) {
      if PublishesWrong(j, d) {
        var actions, t :| Reaches(j, State(d, Dead), actions, t) && HandsOutWrong(j, t.disk);
        PublishedIsRight(j, State(d, Dead), actions, t);
      }
    } else {
      UntrustworthyPublishesWrong(j, d);
    }
  }

  /**
   To later runs of the same job a crash inside the window is harmless exactly when an older
   identity file is the job's already, or the progress file claims nothing that zeros would get wrong.
   */
  lemma WindowCrash(j: Job, s: State)
    requires ValidJob(j) && Inv(j, s) && s.process.Replaced?
    ensures PublishesWrong(j, s.disk) <==>
      s.disk.identity != Some(j.id) && s.disk.progress.Some? && s.disk.progress.value.owner == j.id
      && exists i :: 0 <= i < Orders.Min(s.disk.progress.value.completed, |j.truth|) && j.truth[i] != 0.0
  {
    TrustworthyIff(j, s.disk);
  }

  /** The window is reachable: one pair, scored once, published, and a crash before the identity file. */
  lemma WindowLosesScores()
    ensures var j := RerankerJob(0, [1.0]);
      exists actions, s :: Reaches(j, State(EMPTY_DISK, Dead), actions, s) && s.process.Replaced?
        && PublishesWrong(j, s.disk)
  {
    var j := RerankerJob(0, [1.0]);
    var s0 := State(EMPTY_DISK, Dead);
    var s1 := Next(j, s0, Start);
    var s2 := Next(j, s1, Go);
    var s3 := Next(j, s2, Go);
    var s4 := Next(j, s3, Go);
    var s5 := Next(j, s4, Go);
    var s6 := Next(j, s5, Go);
    var s7 := Next(j, s6, Go);
    assert s7.process.Replaced? && s7.disk.progress == Some(Progress(0, 1));
    var r := Then(j, s6, Go, s7, [], s7);
    r := Then(j, s5, Go, s6, r, s7);
    r := Then(j, s4, Go, s5, r, s7);
    r := Then(j, s3, Go, s4, r, s7);
    r := Then(j, s2, Go, s3, r, s7);
    r := Then(j, s1, Go, s2, r, s7);
    r := Then(j, s0, Start, s1, r, s7);
    PublishedIsRight(j, s0, r, s7);
    assert j.truth[0] != 0.0;
    WindowCrash(j, s7);
  }

  /** Runs in which a crash may come anywhere, the window included. */
  ghost predicate AnyReaches(j: Job, s: State, actions: seq<Action>, t: State)
    decreases |actions|
  {
    if actions == [] then s == t
    else Enabled(j, s, actions[0]) && AnyReaches(j, Next(j, s, actions[0]), actions[1..], t)
  }

  ghost predicate EverWrong(j: Job, d: Disk) {
    exists actions, t :: AnyReaches(j, State(d, Dead), actions, t) && HandsOutWrong(j, t.disk)
  }

  /** Zeros are what `predict` gives on every pair. */
  predicate AllZero(j: Job) {
    forall i :: 0 <= i < |j.truth| ==> j.truth[i] == 0.0
  }

  /** The last chunk is recorded, as it is for both caches. */
  ghost predicate RecordsEnd(j: Job) {
    ValidJob(j) && j.saves(|j.truth|)
  }

  lemma BothCachesRecordEnd(id: Identity, truth: seq<Score>)
    ensures RecordsEnd(RerankerJob(id, truth)) && RecordsEnd(EmbeddingJob(id, truth))
  {
  }

  lemma {:induction false} ReachesIsAny(j: Job, s: State, actions: seq<Action>, t: State)
    requires Reaches(j, s, actions, t)
    ensures AnyReaches(j, s, actions, t)
    decreases |actions|
  {
    hide Enabled, Next, InWindow;
    if actions != [] { ReachesIsAny(j, Next(j, s, actions[0]), actions[1..], t); }
  }

  lemma {:induction false} AnyThen(j: Job, s: State, a: seq<Action>, u: State, b: seq<Action>, t: State)
    requires AnyReaches(j, s, a, u) && AnyReaches(j, u, b, t)
    ensures AnyReaches(j, s, a + b, t)
    decreases |a|
  {
    hide Enabled, Next;
    if a == [] {
      assert [] + b == b;
    } else {
      AnyThen(j, Next(j, s, a[0]), a[1..], u, b, t);
      assert (a + b)[1..] == a[1..] + b;
    }
  }

  /** What makes even the window harmless. */
  predicate Shielded(j: Job, d: Disk) {
    d.identity == Some(j.id) || AllZero(j)
  }

  lemma AnyStepKeeps(j: Job, s: State, a: Action)
    requires ValidJob(j) && Inv(j, s) && Shielded(j, s.disk) && Enabled(j, s, a)
    ensures Inv(j, Next(j, s, a)) && Shielded(j, Next(j, s, a).disk)
  {
    StepKeepsShield(j, s, a);
    if InWindow(j, s, a) {
      hide Fill, Mix;
    } else {
      hide Inv, Enabled, Next;
      StepKeepsInv(j, s, a);
    }
  }

  lemma StepKeepsShield(j: Job, s: State, a: Action)
    requires Shielded(j, s.disk) && Enabled(j, s, a)
    ensures Shielded(j, Next(j, s, a).disk)
  {
    hide Fill, Mix, AllZero;
  }

  lemma {:induction false} ShieldedRun(j: Job, s: State, actions: seq<Action>, t: State)
    requires ValidJob(j) && Inv(j, s) && Shielded(j, s.disk) && AnyReaches(j, s, actions, t)
    ensures Inv(j, t) && Shielded(j, t.disk)
    decreases |actions|
  {
    hide Inv, Enabled, Next, Shielded;
    if actions != [] {
      AnyStepKeeps(j, s, actions[0]);
      ShieldedRun(j, Next(j, s, actions[0]), actions[1..], t);
    }
  }

  lemma SafeFiles(j: Job, d: Disk)
    requires ValidJob(j) && Trustworthy(j, d) && (Verified(j, d) || Shielded(j, d))
    ensures !EverWrong(j, d)
  {
    forall actions, t | AnyReaches(j, State(d, Dead), actions, t) && Verified(j, t.disk)
      ensures t.disk.cache.value == j.truth
    {
      if !Verified(j, d) {
        ShieldedRun(j, State(d, Dead), actions, t);
      }
    }
  }

  /** A mapping process that has recorded, or will record, its last chunk. */
  predicate WillRecord(j: Job, s: State) {
    && s.process.Running? && s.disk.partial.Some? && |s.process.mem| == |j.truth|
    && (s.process.pos >= |j.truth| ==> ClaimsAll(j, s.disk))
  }

  predicate ClaimsAll(j: Job, d: Disk) {
    d.progress.Some? && d.progress.value.owner == j.id && d.progress.value.completed >= |j.truth|
  }

  /** Left alone, it comes to the window with every entry claimed. */
  lemma {:induction false} RunsToWindow(j: Job, s: State) returns (actions: seq<Action>, t: State)
    requires RecordsEnd(j) && WillRecord(j, s)
    ensures Reaches(j, s, actions, t) && t.process.Replaced? && t.disk.partial.None? && ClaimsAll(j, t.disk)
    ensures t.disk.identity == s.disk.identity
    decreases |j.truth| - s.process.pos
  {
    hide Fill;
    var u := Next(j, s, Go);
    if s.process.pos < |j.truth| {
      var v := Next(j, u, Go);
      var w := if v.process.Flushed? then Next(j, v, Go) else v;
      actions, t := RunsToWindow(j, w);
      if v.process.Flushed? { actions := Then(j, v, Go, w, actions, t); }
      actions := Then(j, u, Go, v, actions, t);
    } else {
      t := Next(j, u, Go);
      actions := Then(j, u, Go, t, [], t);
    }
    actions := Then(j, s, Go, u, actions, t);
  }

  lemma RunsToMap(j: Job, d: Disk) returns (actions: seq<Action>, t: State)
    requires ValidJob(j) && !Verified(j, d)
    ensures Reaches(j, State(d, Dead), actions, t) && t.disk.identity == d.identity
    ensures t.process.Running? && t.disk.partial.Some? && |t.process.mem| == |j.truth|
    ensures j.truth != [] ==> WillRecord(j, t)
  {
    var s := State(d, Dead);
    var u := Next(j, s, Start);
    if u.process.Running? {
      t := u;
      actions := [];
    } else if u.process.MakeFresh? {
      t := Next(j, u, Go);
      actions := Then(j, u, Go, t, [], t);
    } else {
      var v := Next(j, u, Go);
      var w := Next(j, v, Go);
      t := Next(j, w, Go);
      actions := Then(j, w, Go, t, [], t);
      actions := Then(j, v, Go, w, actions, t);
      actions := Then(j, u, Go, v, actions, t);
    }
    actions := Then(j, s, Start, u, actions, t);
  }

  /** Unshielded files lead into the window, and a crash there leads on to a wrong cache. */
  lemma UnshieldedGoesWrong(j: Job, d: Disk)
    requires RecordsEnd(j) && Trustworthy(j, d) && !Verified(j, d) && !Shielded(j, d)
    ensures EverWrong(j, d)
  {
    hide Enabled, Next, WillRecord;
    var s := State(d, Dead);
    var a, u := RunsToMap(j, d);
    var b, v := RunsToWindow(j, u);
    ReachesIsAny(j, s, a, u);
    ReachesIsAny(j, u, b, v);
    AnyThen(j, s, a, u, b, v);
    Killed(j, v);
    AfterWindow(j, v.disk);
    var c, t :| Reaches(j, State(v.disk, Dead), c, t) && HandsOutWrong(j, t.disk);
    ReachesIsAny(j, State(v.disk, Dead), c, t);
    AnyThen(j, v, [Crash([])], State(v.disk, Dead), c, t);
    AnyThen(j, s, a + b, v, [Crash([])] + c, t);
  }

  lemma Killed(j: Job, s: State)
    requires !s.process.Dead? && !Mapped(s.process)
    ensures AnyReaches(j, s, [Crash([])], State(s.disk, Dead))
  {
    var t := Next(j, s, Crash([]));
    assert AnyReaches(j, t, [], t) && [Crash([])][1..] == [];
  }

  lemma AfterWindow(j: Job, d: Disk)
    requires ValidJob(j) && !Shielded(j, d) && d.partial.None? && ClaimsAll(j, d)
    ensures PublishesWrong(j, d)
  {
    var i :| 0 <= i < |j.truth| && j.truth[i] != 0.0;
    assert !Trustworthy(j, d) by { assert !RightBelow(j, Zeros(|j.truth|), d.progress.value.completed); }
    UntrustworthyPublishesWrong(j, d);
  }

  /**
   Over every run of the one job, a crash in the window included: a wrong cache is never handed
   out exactly when the files are trustworthy and either already verified, or beside the job's
   identity file, or the job scores zero throughout.
   */
  lemma NeverWrongIff(j: Job, d: Disk)
    requires RecordsEnd(j)
    ensures !EverWrong(j, d) <==> Trustworthy(j, d) && (Verified(j, d) || d.identity == Some(j.id) || AllZero(j))
  {
    if !Trustworthy(j, d) {
      UntrustworthyPublishesWrong(j, d);
      var c, t :| Reaches(j, State(d, Dead), c, t) && HandsOutWrong(j, t.disk);
      ReachesIsAny(j, State(d, Dead), c, t);
    } else if Verified(j, d) || Shielded(j, d) {
      SafeFiles(j, d);
    } else {
      UnshieldedGoesWrong(j, d);
    }
  }

  /** So from no files at all, one job alone can go wrong unless every score is zero. */
  lemma FreshDirectoryGoesWrongIff(id: Identity, truth: seq<Score>)
    ensures EverWrong(RerankerJob(id, truth), EMPTY_DISK) <==> exists i :: 0 <= i < |truth| && truth[i] != 0.0
    ensures EverWrong(EmbeddingJob(id, truth), EMPTY_DISK) <==> exists i :: 0 <= i < |truth| && truth[i] != 0.0
  {
    BothCachesRecordEnd(id, truth);
    NeverWrongIff(RerankerJob(id, truth), EMPTY_DISK);
    NeverWrongIff(EmbeddingJob(id, truth), EMPTY_DISK);
  }

  /** How many scores the progress file claims for the job. */
  function Claimed(j: Job, d: Disk): nat {
    if d.progress.Some? && d.progress.value.owner == j.id then d.progress.value.completed else 0
  }

  function Rest(pos: nat, step: nat): nat
    requires step > 0
  {
    pos % step
  }

  /** A position the chunk loop can have: a multiple of `step`, or the end. */
  predicate OnStep(j: Job, pos: nat, step: nat)
    requires step > 0
  {
    pos <= |j.truth| && (Rest(pos, step) == 0 || pos == |j.truth|)
  }

  /** The first pair whose score is not in the map yet. */
  function Position(p: Process): nat {
    match p
    case Running(pos, _) => pos
    case Written(stop, _) => stop
    case Flushed(stop, _) => stop
    case _ => 0
  }

  /** Recorded positions lie `every` apart, and the map is never further ahead than that. */
  ghost predicate Paced(j: Job, every: nat, s: State)
    requires every > 0
  {
    OnStep(j, Claimed(j, s.disk), every) && Position(s.process) <= Claimed(j, s.disk) + every
  }

  ghost predicate RerankerPace(j: Job, s: State) {
    && Paced(j, 512, s) && OnStep(j, Position(s.process), 512)
    && (s.process.Running? ==> s.process.pos <= Claimed(j, s.disk))
  }

  ghost predicate EmbeddingPace(j: Job, s: State) {
    var pos, claimed := Position(s.process), Claimed(j, s.disk);
    && Paced(j, 2048, s) && OnStep(j, pos, 256)
    && (s.process.Running? || (s.process.Written? && !j.saves(pos)) ==>
          pos <= claimed || (pos < |j.truth| && pos <= claimed + Rest(pos, 2048)))
    && (s.process.Flushed? ==> OnStep(j, pos, 2048))
  }

  lemma RerankerStep(id: Identity, truth: seq<Score>, s: State, a: Action)
    requires var j := RerankerJob(id, truth); RerankerPace(j, s) && Enabled(j, s, a)
    ensures var j := RerankerJob(id, truth); RerankerPace(j, Next(j, s, a))
  {
    hide Fill, Mix, Zeros, Rest;
    NextChunk(Position(s.process));
  }

  lemma NextChunk(pos: nat)
    ensures Rest(0, 512) == 0 && (Rest(pos, 512) == 0 ==> Rest(pos + 512, 512) == 0)
  {
  }

  lemma NextMultiple(pos: nat)
    ensures Rest(0, 256) == Rest(0, 2048) == 0 && Rest(pos, 2048) < 2048
    ensures pos % 2048 == Rest(pos, 2048) && (pos + 256) % 2048 == Rest(pos + 256, 2048)
    ensures Rest(pos, 2048) == 0 ==> Rest(pos, 256) == 0
    ensures Rest(pos, 256) == 0 ==>
      Rest(pos + 256, 256) == 0 && Rest(pos, 2048) <= 1792
      && (Rest(pos + 256, 2048) != 0 ==> Rest(pos + 256, 2048) == Rest(pos, 2048) + 256)
  {
    Remainder(0, 0);
    if pos % 2048 == 0 { Multiple(8 * (pos / 2048)); }
    if pos % 256 == 0 { NextOfMultiple(pos / 256); }
    hide Rest;
    assert pos == 256 * (pos / 256) + pos % 256;
  }

  lemma NextOfMultiple(m: nat)
    ensures Rest(256 * m + 256, 256) == 0 && Rest(256 * m, 2048) <= 1792
    ensures Rest(256 * m + 256, 2048) != 0 ==> Rest(256 * m + 256, 2048) == Rest(256 * m, 2048) + 256
  {
    hide Rest;
    var q, i := m / 8, m % 8;
    assert 256 * m == 2048 * q + 256 * i;
    Multiple(m + 1);
    Remainder(q, 256 * i);
    if i < 7 { Remainder(q, 256 * i + 256); } else { Remainder(q + 1, 0); }
  }

  lemma Multiple(k: nat)
    ensures Rest(256 * k, 256) == 0
  {
  }

  lemma Remainder(q: nat, r: nat)
    requires r < 2048
    ensures Rest(2048 * q + r, 2048) == r
  {
  }

  lemma EmbeddingStep(id: Identity, truth: seq<Score>, s: State, a: Action)
    requires var j := EmbeddingJob(id, truth); EmbeddingPace(j, s) && Enabled(j, s, a)
    ensures var j := EmbeddingJob(id, truth); EmbeddingPace(j, Next(j, s, a))
  {
    hide Fill, Mix, Zeros, Rest;
    NextMultiple(Position(s.process));
    NextMultiple(Claimed(EmbeddingJob(id, truth), s.disk));
  }

  lemma {:induction false} PaceRun(id: Identity, truth: seq<Score>, s: State, actions: seq<Action>, t: State)
    ensures var j := RerankerJob(id, truth); RerankerPace(j, s) && AnyReaches(j, s, actions, t) ==> RerankerPace(j, t)
    ensures var j := EmbeddingJob(id, truth);
            EmbeddingPace(j, s) && AnyReaches(j, s, actions, t) ==> EmbeddingPace(j, t)
    decreases |actions|
  {
    hide RerankerPace, EmbeddingPace, Enabled, Next;
    if actions != [] {
      var j, k := RerankerJob(id, truth), EmbeddingJob(id, truth);
      if RerankerPace(j, s) && AnyReaches(j, s, actions, t) {
        RerankerStep(id, truth, s, actions[0]);
        PaceRun(id, truth, Next(j, s, actions[0]), actions[1..], t);
      }
      if EmbeddingPace(k, s) && AnyReaches(k, s, actions, t) {
        EmbeddingStep(id, truth, s, actions[0]);
        PaceRun(id, truth, Next(k, s, actions[0]), actions[1..], t);
      }
    }
  }

  /**
   Over every run of one job from no files, killed anywhere: the pair scores are recorded at multiples of 512
   and at the end, and a crash costs 512 scores at most; the embeddings at multiples of 2048, and 2048 at most.
   */
  lemma CrashCostsAtMost(id: Identity, truth: seq<Score>, actions: seq<Action>, t: State)
    ensures var j := RerankerJob(id, truth);
            AnyReaches(j, State(EMPTY_DISK, Dead), actions, t) ==> Paced(j, 512, t)
    ensures var j := EmbeddingJob(id, truth);
            AnyReaches(j, State(EMPTY_DISK, Dead), actions, t) ==> Paced(j, 2048, t)
  {
    hide AnyReaches;
    PaceRun(id, truth, State(EMPTY_DISK, Dead), actions, t);
  }

  /** The four files of one cache. */
  class CacheFiles {
    var cache: Option<seq<Score>>
    var identity: Option<Identity>
    var partial: Option<seq<Score>>
    var progress: Option<Progress>

    ghost function View(): Disk
      reads this
    {
      Disk(cache, identity, partial, progress)
    }
  }

  lemma {:induction false} ReachesStep(j: Job, s: State, actions: seq<Action>, t: State, a: Action)
    requires Reaches(j, s, actions, t) && Enabled(j, t, a) && !InWindow(j, t, a)
    ensures Reaches(j, s, actions + [a], Next(j, t, a))
    decreases |actions|
  {
    hide Enabled, Next, InWindow;
    if actions == [] {
      assert [] + [a] == [a] && [a][1..] == [];
    } else {
      ReachesStep(j, Next(j, s, actions[0]), actions[1..], t, a);
      assert (actions + [a])[1..] == actions[1..] + [a];
    }
  }

  /** One chunk: written, and flushed and recorded where the job records it. */
  method ScoreChunk(j: Job, files: CacheFiles, pos: nat, held: seq<Score>, ghost s0: State, ghost before: seq<Action>)
    returns (stop: nat, mem: seq<Score>, ghost actions: seq<Action>)
    requires ValidJob(j) && pos < |j.truth| == |held| && files.partial.Some?
    requires Reaches(j, s0, before, State(files.View(), Running(pos, held)))
    modifies files
    ensures Reaches(j, s0, actions, State(files.View(), Running(stop, mem)))
    ensures pos < stop && |mem| == |j.truth| && files.partial.Some?
  {
    hide Reaches;
    stop := Orders.Min(pos + j.chunk, |j.truth|);
    ReachesStep(j, s0, before, State(files.View(), Running(pos, held)), Go);
    mem := Fill(j, held, pos, stop);
    ReachesStep(j, s0, before + [Go], State(files.View(), Written(stop, mem)), Go);
    actions := before + [Go] + [Go];
    if j.saves(stop) {
      files.partial := Some(mem);
      ReachesStep(j, s0, actions, State(files.View(), Flushed(stop, mem)), Go);
      files.progress := Some(Progress(j.id, stop));
      actions := actions + [Go];
    }
  }

  /** The last flush, the promotion, the identity file and the end of the progress file. */
  method Promote(j: Job, files: CacheFiles, pos: nat, mem: seq<Score>, ghost s0: State, ghost before: seq<Action>)
    returns (ghost actions: seq<Action>)
    requires pos >= |j.truth| == |mem| && files.partial.Some?
    requires Reaches(j, s0, before, State(files.View(), Running(pos, mem)))
    modifies files
    ensures Reaches(j, s0, actions, State(files.View(), Dead)) && Verified(j, files.View())
  {
    hide Reaches;
    ReachesStep(j, s0, before, State(files.View(), Running(pos, mem)), Go);
    files.partial := Some(mem);
    actions := before + [Go];
    ReachesStep(j, s0, actions, State(files.View(), Finishing(mem)), Go);
    files.cache, files.partial := files.partial, None;
    actions := actions + [Go];
    ReachesStep(j, s0, actions, State(files.View(), Replaced), Go);
    files.identity := Some(j.id);
    actions := actions + [Go];
    ReachesStep(j, s0, actions, State(files.View(), Tidying), Go);
    files.progress := None;
    actions := actions + [Go];
  }

  /**
   One uninterrupted call: the chunk loop, the promotion, and the values handed back.
   Every effect is an action of the relation above.
   */
  method Scores(j: Job, files: CacheFiles) returns (values: seq<Score>, ghost actions: seq<Action>)
    requires ValidJob(j)
    modifies files
    ensures Reaches(j, State(old(files.View()), Dead), actions, State(files.View(), Dead))
    ensures Verified(j, files.View()) && values == files.cache.value
    ensures Trustworthy(j, old(files.View())) ==> values == j.truth
  {
    hide Trustworthy, Inv, Fill;
    ghost var s0 := State(files.View(), Dead);
    actions := [];
    if Verified(j, Disk(files.cache, files.identity, files.partial, files.progress)) {
      PublishedIfTrustworthy(j, s0, actions, s0);
      return files.cache.value, [];
    }
    var completed, mem;
    completed, mem, actions := Prepare(j, files);
    while completed < |j.truth|
      invariant Reaches(j, s0, actions, State(files.View(), Running(completed, mem)))
      invariant |mem| == |j.truth| && files.partial.Some?
      decreases |j.truth| - completed
    {
      completed, mem, actions := ScoreChunk(j, files, completed, mem, s0, actions);
    }
    actions := Promote(j, files, completed, mem, s0, actions);
    PublishedIfTrustworthy(j, s0, actions, State(files.View(), Dead));
    return files.cache.value, actions;
  }

  lemma PublishedIfTrustworthy(j: Job, s: State, actions: seq<Action>, t: State)
    requires ValidJob(j) && s.process.Dead? && Reaches(j, s, actions, t) && Verified(j, t.disk)
    ensures Trustworthy(j, s.disk) ==> t.disk.cache.value == j.truth
  {
    if Trustworthy(j, s.disk) { PublishedIsRight(j, s, actions, t); }
  }

  /** Resume the mapped file, or start a fresh one. */
  method Prepare(j: Job, files: CacheFiles) returns (completed: nat, mem: seq<Score>, ghost actions: seq<Action>)
    requires ValidJob(j) && !Verified(j, files.View())
    modifies files
    ensures Reaches(j, State(old(files.View()), Dead), actions, State(files.View(), Running(completed, mem)))
    ensures |mem| == |j.truth| && files.partial.Some?
  {
    ghost var s0 := State(files.View(), Dead);
    ReachesStep(j, s0, [], s0, Start);
    actions := [Start];
    assert [] + [Start] == actions;
    if files.partial.Some? && files.progress.Some? {
      if files.progress.value.owner == j.id && |files.partial.value| == |j.truth| {
        return files.progress.value.completed, files.partial.value, actions;
      }
      ReachesStep(j, s0, actions, State(files.View(), ClearPartial), Go);
      files.partial := None;
      ReachesStep(j, s0, actions + [Go], State(files.View(), ClearProgress), Go);
      files.progress := None;
      actions := actions + [Go] + [Go];
    }
    ReachesStep(j, s0, actions, State(files.View(), MakeFresh), Go);
    mem := Zeros(|j.truth|);
    files.partial := Some(mem);
    return 0, mem, actions + [Go];
  }
}
