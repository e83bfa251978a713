/**
 Several jobs over the same four files, one process at a time. The window of the
 cross-encoder is part of a job's identity and not of the file names, so two settings
 share their files, and so do two lists of pairs.
 */
module SharedCache {
  import opened Options
  import opened ScoreCache
  import Orders

  /** Jobs that are told apart by their identities and record their last chunk. */
  ghost predicate Rivals(js: seq<Job>) {
    && (forall k :: 0 <= k < |js| ==> RecordsEnd(js[k]))
    && (forall k, m :: 0 <= k < m < |js| ==> js[k].id != js[m].id)
  }

  /** What processes of one job, killed or not, can make of the files. */
  ghost predicate Leaves(j: Job, d: Disk, e: Disk) {
    exists actions :: AnyReaches(j, State(d, Dead), actions, State(e, Dead))
  }

  /** `turns` names the job of each process in turn. */
  ghost predicate Shares(js: seq<Job>, d: Disk, turns: seq<nat>, e: Disk)
    decreases |turns|
  {
    if turns == [] then d == e
    else turns[0] < |js| && exists f :: Leaves(js[turns[0]], d, f) && Shares(js, f, turns[1..], e)
  }

  /** Some job is handed a wrong cache after some interleaving. */
  ghost predicate SharedWrong(js: seq<Job>, d: Disk) {
    exists turns, e, k :: Shares(js, d, turns, e) && 0 <= k < |js| && HandsOutWrong(js[k], e)
  }

  /** A process works only on files that are not verified for its job, until it has promoted its own. */
  predicate Unverified(j: Job, s: State) {
    s.process.Dead? || s.process.Replaced? || s.process.Tidying? || !Verified(j, s.disk)
  }

  lemma {:induction false} WorksUnverified(j: Job, s: State, actions: seq<Action>, t: State)
    requires AnyReaches(j, s, actions, t) && Unverified(j, s)
    ensures Unverified(j, t)
    decreases |actions|
  {
    hide Fill, Mix, Zeros;
    if actions != [] {
      WorksUnverified(j, Next(j, s, actions[0]), actions[1..], t);
    }
  }

  /** A job that can go wrong on its own is seen to do so between processes. */
  lemma EverWrongLeaves(j: Job, d: Disk)
    requires EverWrong(j, d)
    ensures exists e :: Leaves(j, d, e) && HandsOutWrong(j, e)
  {
    var actions, t :| AnyReaches(j, State(d, Dead), actions, t) && HandsOutWrong(j, t.disk);
    WorksUnverified(j, State(d, Dead), actions, t);
    if t.process.Dead? {
      assert t == State(t.disk, Dead);
    } else {
      var end := State(t.disk, Dead);
      assert AnyReaches(j, end, [], end) && [Crash([])][1..] == [];
      AnyThen(j, State(d, Dead), actions, t, [Crash([])], end);
    }
    assert Leaves(j, d, t.disk);
  }

  lemma ThenWrong(js: seq<Job>, d: Disk, k: nat, f: Disk)
    requires k < |js| && Leaves(js[k], d, f) && SharedWrong(js, f)
    ensures SharedWrong(js, d)
  {
    hide Leaves, HandsOutWrong;
    var turns, e, m :| Shares(js, f, turns, e) && 0 <= m < |js| && HandsOutWrong(js[m], e);
    assert ([k] + turns)[1..] == turns;
    assert Shares(js, d, [k] + turns, e);
  }

  lemma OneJobWrong(js: seq<Job>, d: Disk, k: nat)
    requires k < |js| && EverWrong(js[k], d)
    ensures SharedWrong(js, d)
  {
    hide EverWrong, Leaves, HandsOutWrong;
    EverWrongLeaves(js[k], d);
    var e :| Leaves(js[k], d, e) && HandsOutWrong(js[k], e);
    assert Shares(js, e, [], e);
    ThenWrong(js, d, k, e);
  }

  /** Whatever the files hold, a job not verified by them can publish and put its own identity there. */
  lemma TakesOver(j: Job, d: Disk) returns (e: Disk)
    requires ValidJob(j) && !Verified(j, d)
    ensures Leaves(j, d, e) && e.identity == Some(j.id)
  {
    hide Reaches, AnyReaches, Next, Enabled;
    var a, u := RunsToMap(j, d);
    var b, v := RunsToPublication(j, u);
    e := v.disk;
    ReachesIsAny(j, State(d, Dead), a, u);
    ReachesIsAny(j, u, b, v);
    AnyThen(j, State(d, Dead), a, u, b, v);
    Killed(j, v);
    AnyThen(j, State(d, Dead), a + b, v, [Crash([])], State(e, Dead));
  }

  /** One job with a score that is not zero is enough. */
  lemma NonzeroGoesWrong(js: seq<Job>, d: Disk, k: nat, m: nat)
    requires Rivals(js) && k < |js| && m < |js| && k != m && !AllZero(js[k])
    ensures SharedWrong(js, d)
  {
    hide EverWrong, AllZero, Trustworthy, SharedWrong, Leaves;
    if d.identity == Some(js[k].id) {
      assert js[m].id != js[k].id;
      var e := TakesOver(js[m], d);
      NeverWrongIff(js[k], e);
      OneJobWrong(js, e, k);
      ThenWrong(js, d, m, e);
    } else {
      NeverWrongIff(js[k], d);
      OneJobWrong(js, d, k);
    }
  }

  predicate ZeroBelow(values: seq<Score>, n: nat) {
    forall i :: 0 <= i < Orders.Min(n, |values|) ==> values[i] == 0.0
  }

  /** While `b` runs and all scores are zero: what the files and the map hold for `k`. */
  ghost predicate ZeroInv(b: Job, k: Job, s: State) {
    var d := s.disk;
    && Trustworthy(k, d)
    && match s.process
       case Running(pos, mem) => ZeroMap(b, k, d, mem, pos)
       case Written(stop, mem) => ZeroMap(b, k, d, mem, stop)
       case Flushed(stop, mem) => ZeroMap(b, k, d, mem, stop) && d.partial.value == mem
       case Finishing(mem) => ZeroMap(b, k, d, mem, |b.truth|) && d.partial.value == mem
       case Replaced => d.cache.Some? && ZeroBelow(d.cache.value, |d.cache.value|) && d.partial.None?
       case Tidying => d.partial.None?
       case _ => true
  }

  predicate ZeroMap(b: Job, k: Job, d: Disk, mem: seq<Score>, pos: nat) {
    && d.partial.Some? && |mem| == |b.truth| && ZeroBelow(mem, pos)
    && (!Verified(k, d) && d.progress.Some? && d.progress.value.owner == k.id && |b.truth| == |k.truth| ==>
          ZeroBelow(mem, d.progress.value.completed))
  }

  lemma ZeroCrash(b: Job, k: Job, s: State, a: Action)
    requires AllZero(b) && AllZero(k) && ZeroInv(b, k, s) && a.Crash? && Enabled(b, s, a)
    ensures ZeroInv(b, k, Next(b, s, a))
  {
    hide Fill, Zeros;
  }

  /** A chunk of zeros over a map that is zero below its position. */
  lemma ZeroWrite(b: Job, k: Job, s: State)
    requires ValidJob(b) && AllZero(b) && AllZero(k) && ZeroInv(b, k, s) && Enabled(b, s, Go)
    requires s.process.Running? && s.process.pos < |b.truth|
    ensures ZeroInv(b, k, Next(b, s, Go))
  {
    hide Mix, Zeros, Trustworthy;
  }

  lemma ZeroGo(b: Job, k: Job, s: State)
    requires AllZero(b) && AllZero(k) && ZeroInv(b, k, s) && Enabled(b, s, Go)
    requires !(s.process.Running? && s.process.pos < |b.truth|)
    ensures ZeroInv(b, k, Next(b, s, Go))
  {
    hide Mix, Fill;
  }

  lemma ZeroStep(b: Job, k: Job, s: State, a: Action)
    requires ValidJob(b) && AllZero(b) && AllZero(k)
    requires ZeroInv(b, b, s) && ZeroInv(b, k, s) && Enabled(b, s, a)
    ensures ZeroInv(b, k, Next(b, s, a))
  {
    hide Mix, Fill;
    match a
    case Crash(_) =>
      hide Next, ZeroInv;
      ZeroCrash(b, k, s, a);
    case Go =>
      hide Next, AllZero;
      if s.process.Running? && s.process.pos < |b.truth| { ZeroWrite(b, k, s); } else { ZeroGo(b, k, s); }
    case Start =>
  }

  lemma {:induction false} ZeroRun(b: Job, k: Job, s: State, actions: seq<Action>, t: State)
    requires ValidJob(b) && AllZero(b) && AllZero(k)
    requires ZeroInv(b, b, s) && ZeroInv(b, k, s) && AnyReaches(b, s, actions, t)
    ensures ZeroInv(b, k, t)
    decreases |actions|
  {
    hide ZeroInv, Enabled, Next, AllZero;
    if actions != [] {
      ZeroStep(b, b, s, actions[0]);
      ZeroStep(b, k, s, actions[0]);
      ZeroRun(b, k, Next(b, s, actions[0]), actions[1..], t);
    }
  }

  ghost predicate AllTrust(js: seq<Job>, d: Disk) {
    forall k :: 0 <= k < |js| ==> Trustworthy(js[k], d)
  }

  predicate NoScores(js: seq<Job>) {
    forall k :: 0 <= k < |js| ==> AllZero(js[k])
  }

  lemma ZeroLeaves(js: seq<Job>, d: Disk, b: nat, e: Disk)
    requires Rivals(js) && NoScores(js) && AllTrust(js, d) && b < |js| && Leaves(js[b], d, e)
    ensures AllTrust(js, e)
  {
    hide Trustworthy, AllZero, AnyReaches;
    var actions :| AnyReaches(js[b], State(d, Dead), actions, State(e, Dead));
    forall k | 0 <= k < |js| ensures Trustworthy(js[k], e) {
      ZeroRun(js[b], js[k], State(d, Dead), actions, State(e, Dead));
    }
  }

  lemma {:induction false} ZeroShares(js: seq<Job>, d: Disk, turns: seq<nat>, e: Disk)
    requires Rivals(js) && NoScores(js) && AllTrust(js, d) && Shares(js, d, turns, e)
    ensures AllTrust(js, e)
    decreases |turns|
  {
    hide Rivals, NoScores, AllTrust, Leaves;
    if turns != [] {
      var f :| Leaves(js[turns[0]], d, f) && Shares(js, f, turns[1..], e);
      ZeroLeaves(js, d, turns[0], f);
      ZeroShares(js, f, turns[1..], e);
    }
  }

  /**
   Over every interleaving of two or more jobs and every crash: no job is ever handed a wrong
   cache exactly when all of them score zero throughout and the files are trustworthy for each.
   */
  lemma SharedNeverWrongIff(js: seq<Job>, d: Disk)
    requires Rivals(js) && |js| >= 2
    ensures !SharedWrong(js, d) <==> NoScores(js) && AllTrust(js, d)
  {
    hide Trustworthy, AllZero, EverWrong, Shares;
    if k :| 0 <= k < |js| && !AllZero(js[k]) {
      NonzeroGoesWrong(js, d, k, if k == 0 then 1 else 0);
    } else if k :| 0 <= k < |js| && !Trustworthy(js[k], d) {
      NeverWrongIff(js[k], d);
      OneJobWrong(js, d, k);
    } else if SharedWrong(js, d) {
      var turns, e, k :| Shares(js, d, turns, e) && 0 <= k < |js| && HandsOutWrong(js[k], e);
      ZeroShares(js, d, turns, e);
      TrustedIsRight(js[k], e);
    }
  }

  lemma TrustedIsRight(j: Job, d: Disk)
    requires Trustworthy(j, d)
    ensures !HandsOutWrong(j, d)
  {
  }

  /** The two places where a crash can harm another job: before the identity file, and between the two unlinks. */
  predicate Careless(s: State, a: Action) {
    a.Crash? && (s.process.Replaced? || s.process.ClearProgress?)
  }

  ghost predicate CarefulReaches(j: Job, s: State, actions: seq<Action>, t: State)
    decreases |actions|
  {
    if actions == [] then s == t
    else Enabled(j, s, actions[0]) && !Careless(s, actions[0])
         && CarefulReaches(j, Next(j, s, actions[0]), actions[1..], t)
  }

  ghost predicate CarefullyLeaves(j: Job, d: Disk, e: Disk) {
    exists actions :: CarefulReaches(j, State(d, Dead), actions, State(e, Dead))
  }

  ghost predicate CarefullyShares(js: seq<Job>, d: Disk, turns: seq<nat>, e: Disk)
    decreases |turns|
  {
    if turns == [] then d == e
    else turns[0] < |js|
         && exists f :: CarefullyLeaves(js[turns[0]], d, f) && CarefullyShares(js, f, turns[1..], e)
  }

  /** `k` has recorded progress and no cache to show for it. */
  predicate Owed(k: Job, d: Disk) {
    d.progress.Some? && d.progress.value.owner == k.id && !Verified(k, d)
  }

  predicate Owns(b: Job, d: Disk) {
    d.progress.Some? && d.progress.value.owner == b.id
  }

  /** Trustworthy, and recorded progress has its partial file or its cache beside it. */
  ghost predicate Sound(k: Job, d: Disk) {
    Trustworthy(k, d) && (Owed(k, d) ==> d.partial.Some?)
  }

  predicate CacheRight(k: Job, d: Disk) {
    Verified(k, d) ==> d.cache.value == k.truth
  }

  /** The running job's own part: what it maps is right, and it owns the progress file before it promotes. */
  ghost predicate OwnInv(b: Job, s: State) {
    var d := s.disk;
    && Inv(b, s)
    && match s.process
       case Dead => Sound(b, d)
       case ClearPartial => d.partial.Some?
       case ClearProgress => true
       case MakeFresh => !Owed(b, d)
       case Running(pos, mem) => pos >= |b.truth| ==> Owns(b, d)
       case Written(stop, mem) => stop >= |b.truth| ==> Owns(b, d) || b.saves(stop)
       case Flushed(stop, mem) => true
       case _ => s.process.Tidying? || Owns(b, d)
  }

  /** Another job's part while `b` runs: its cache is right, and it has no progress that `b`'s map could pass for. */
  ghost predicate OtherInv(b: Job, k: Job, s: State) {
    var d := s.disk;
    match s.process
    case Dead => Sound(k, d)
    case ClearPartial => Sound(k, d)
    case ClearProgress => CacheRight(k, d)
    case Replaced => true
    case Tidying => d.identity == Some(b.id) && !Owed(k, d)
    case _ => CacheRight(k, d) && !Owed(k, d)
  }

  lemma OwnStep(b: Job, s: State, a: Action)
    requires RecordsEnd(b) && b.truth != [] && OwnInv(b, s) && Enabled(b, s, a) && !Careless(s, a)
    ensures OwnInv(b, Next(b, s, a))
  {
    hide Fill, Mix;
    StepKeepsInv(b, s, a);
  }

  lemma OtherStep(b: Job, k: Job, s: State, a: Action)
    requires RecordsEnd(b) && b.id != k.id
    requires OwnInv(b, s) && OtherInv(b, k, s) && Enabled(b, s, a) && !Careless(s, a)
    ensures OtherInv(b, k, Next(b, s, a))
  {
    hide Fill, Mix;
  }

  lemma {:induction false} CarefulRun(b: Job, k: Job, s: State, actions: seq<Action>, t: State)
    requires RecordsEnd(b) && b.truth != [] && OwnInv(b, s) && CarefulReaches(b, s, actions, t)
    ensures OwnInv(b, t)
    ensures b.id != k.id && OtherInv(b, k, s) ==> OtherInv(b, k, t)
    decreases |actions|
  {
    hide OwnInv, OtherInv, Enabled, Next, Careless, RecordsEnd;
    if actions != [] {
      OwnStep(b, s, actions[0]);
      if b.id != k.id && OtherInv(b, k, s) { OtherStep(b, k, s, actions[0]); }
      CarefulRun(b, k, Next(b, s, actions[0]), actions[1..], t);
    }
  }

  ghost predicate AllSound(js: seq<Job>, d: Disk) {
    forall k :: 0 <= k < |js| ==> js[k].truth != [] && Sound(js[k], d)
  }

  lemma CarefulLeaves(js: seq<Job>, d: Disk, b: nat, e: Disk)
    requires Rivals(js) && AllSound(js, d) && b < |js| && CarefullyLeaves(js[b], d, e)
    ensures AllSound(js, e)
  {
    hide Sound, CarefulReaches;
    var actions :| CarefulReaches(js[b], State(d, Dead), actions, State(e, Dead));
    forall k | 0 <= k < |js| ensures Sound(js[k], e) {
      SoundInv(js[b], d);
      CarefulRun(js[b], js[k], State(d, Dead), actions, State(e, Dead));
    }
  }

  lemma SoundInv(b: Job, d: Disk)
    requires Sound(b, d)
    ensures OwnInv(b, State(d, Dead))
  {
  }

  /**
   Over every interleaving in which no crash falls in either of the two places, files that are
   sound for every job stay so, and every job is handed its own scores.
   */
  lemma {:induction false} CarefulSharingIsRight(js: seq<Job>, d: Disk, turns: seq<nat>, e: Disk)
    requires Rivals(js) && AllSound(js, d) && CarefullyShares(js, d, turns, e)
    ensures AllSound(js, e)
    ensures forall k :: 0 <= k < |js| && Verified(js[k], e) ==> e.cache.value == js[k].truth
    decreases |turns|
  {
    hide Rivals, CarefullyLeaves;
    if turns != [] {
      var f :| CarefullyLeaves(js[turns[0]], d, f) && CarefullyShares(js, f, turns[1..], e);
      CarefulLeaves(js, d, turns[0], f);
      CarefulSharingIsRight(js, f, turns[1..], e);
    }
  }

  lemma SharedFreshDirectoryIsRight(js: seq<Job>, turns: seq<nat>, e: Disk)
    requires Rivals(js) && CarefullyShares(js, EMPTY_DISK, turns, e)
    requires forall k :: 0 <= k < |js| ==> js[k].truth != []
    ensures forall k :: 0 <= k < |js| && Verified(js[k], e) ==> e.cache.value == js[k].truth
  {
    CarefulSharingIsRight(js, EMPTY_DISK, turns, e);
  }

  /**
   What a crash before the identity file does to another job: it is harmful exactly when the
   identity file is that job's and the promoted scores, as many as its own, are not its own.
   */
  lemma WindowHarmsOther(b: Job, a: Job, s: State)
    requires ValidJob(a) && a.id != b.id && Inv(b, s) && s.process.Replaced? && Owns(b, s.disk)
    ensures PublishesWrong(a, s.disk) <==>
      s.disk.identity == Some(a.id) && |a.truth| == |b.truth| && a.truth != b.truth
  {
    TrustworthyIff(a, s.disk);
  }

  /** Files verified for one job, an ordinary run of the other, one crash: the wrong scores are handed out. */
  lemma VerifiedThenWrong(a: Job, b: Job, d: Disk)
    requires RecordsEnd(b) && a.id != b.id && |a.truth| == |b.truth| && a.truth != b.truth
    requires Verified(a, d) && Trustworthy(a, d) && Trustworthy(b, d)
    ensures exists e :: Leaves(b, d, e) && HandsOutWrong(a, e)
  {
    hide Reaches, AnyReaches, Next, Enabled, Trustworthy;
    var x, u := RunsToMap(b, d);
    var y, v := RunsToWindow(b, u);
    ReachesThen(b, State(d, Dead), x, u, y, v);
    PublishedIsRight(b, State(d, Dead), x + y, v);
    ReachesIsAny(b, State(d, Dead), x + y, v);
    Killed(b, v);
    AnyThen(b, State(d, Dead), x + y, v, [Crash([])], State(v.disk, Dead));
    assert Leaves(b, d, v.disk);
  }

  lemma {:induction false} ReachesThen(j: Job, s: State, x: seq<Action>, u: State, y: seq<Action>, t: State)
    requires Reaches(j, s, x, u) && Reaches(j, u, y, t)
    ensures Reaches(j, s, x + y, t)
    decreases |x|
  {
    hide Enabled, Next, InWindow;
    if x == [] {
      assert [] + y == y;
    } else {
      ReachesThen(j, Next(j, s, x[0]), x[1..], u, y, t);
      assert (x + y)[1..] == x[1..] + y;
    }
  }

  /**
   What a crash between the two unlinks of `b` does to the job whose progress is removed: it is
   harmful exactly when that progress claims an entry that zeros would get wrong.
   */
  lemma UnlinkHarmsOther(b: Job, a: Job, d: Disk)
    requires ValidJob(a) && a.id != b.id && Trustworthy(a, d) && Owed(a, d) && d.partial.Some? && !Verified(b, d)
    ensures Leaves(b, d, d.(partial := None))
    ensures PublishesWrong(a, d.(partial := None)) <==>
      exists i :: 0 <= i < Orders.Min(d.progress.value.completed, |a.truth|) && a.truth[i] != 0.0
  {
    hide PublishesWrong, RightBelow;
    var s := State(d, Dead);
    var u := Next(b, s, Start);
    var v := Next(b, u, Go);
    Killed(b, v);
    var t := State(v.disk, Dead);
    assert AnyReaches(b, u, [Go, Crash([])], t) by { assert [Go, Crash([])][1..] == [Crash([])]; }
    assert AnyReaches(b, s, [Start, Go, Crash([])], t) by { assert [Start, Go, Crash([])][1..] == [Go, Crash([])]; }
    TrustworthyIff(a, t.disk);
    ZerosRight(a, d.progress.value.completed);
  }

  lemma ZerosRight(j: Job, n: nat)
    ensures RightBelow(j, Zeros(|j.truth|), n) <==> forall i :: 0 <= i < Orders.Min(n, |j.truth|) ==> j.truth[i] == 0.0
  {
  }
}
