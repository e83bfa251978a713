/** Scoring texts in batches, each answer naming its texts by their place in the batch. */
module TeiBatches {
  import opened Options

  const TEI_BATCH: nat := 16

  datatype Item = Item(index: int, score: real)

  /** One assignment to the flat list of scores. */
  datatype Write = Write(place: int, score: real)

  /** Where Python's `scores[place]` points in a list of `n`; `None` is an IndexError. */
  function Slot(n: nat, place: int): Option<nat> {
    if 0 <= place < n then Some(place)
    else if place < 0 <= n + place then Some(n + place)
    else None
  }

  /** Place `i` of the list is reached by the index `i` and by `i - n`, and by no other. */
  lemma SlotInPlain(n: nat, place: int, i: nat)
    ensures Slot(n, place) == Some(i) <==> i < n && (place == i || place == i - n)
  {
  }

  function BatchWrites(chunk: nat, batch: seq<Item>): seq<Write> {
    seq(|batch|, k requires 0 <= k < |batch| => Write(chunk * TEI_BATCH + batch[k].index, batch[k].score))
  }

  /** All assignments, batch after batch. */
  function Writes(answers: seq<seq<Item>>): seq<Write> {
    if answers == [] then []
    else
      var c := |answers| - 1;
      Writes(answers[..c]) + BatchWrites(c, answers[c])
  }

  predicate InRange(n: nat, writes: seq<Write>) {
    forall k :: 0 <= k < |writes| ==> Slot(n, writes[k].place).Some?
  }

  /** What slot `i`, holding `before`, holds after the assignments. */
  function After(n: nat, writes: seq<Write>, i: nat, before: real): real {
    if writes == [] then before
    else
      var last := writes[|writes| - 1];
      if Slot(n, last.place) == Some(i) then last.score else After(n, writes[..|writes| - 1], i, before)
  }

  lemma {:induction false} AfterAppend(n: nat, a: seq<Write>, b: seq<Write>, i: nat, before: real)
    ensures After(n, a + b, i, before) == After(n, b, i, After(n, a, i, before))
  {
    if b == [] {
      assert a + b == a;
    } else {
      var k := |b| - 1;
      assert (a + b)[..|a| + k] == a + b[..k];
      AfterAppend(n, a, b[..k], i, before);
    }
  }

  /** Writing one answer into place; `false` where an index is out of range. */
  method Scatter(chunk: nat, batch: seq<Item>, scores: array<real>) returns (ok: bool)
    modifies scores
    ensures ok <==> InRange(scores.Length, BatchWrites(chunk, batch))
    ensures ok ==> forall i :: 0 <= i < scores.Length ==>
      scores[i] == After(scores.Length, BatchWrites(chunk, batch), i, old(scores[i]))
  {
    ghost var writes := BatchWrites(chunk, batch);
    for k := 0 to |batch|
      invariant InRange(scores.Length, writes[..k])
      invariant forall i :: 0 <= i < scores.Length ==>
        scores[i] == After(scores.Length, writes[..k], i, old(scores[i]))
    {
      assert writes[..k + 1][..k] == writes[..k];
      var slot := Slot(scores.Length, chunk * TEI_BATCH + batch[k].index);
      if slot.None? {
        assert Slot(scores.Length, writes[k].place).None?;
        return false;
      }
      scores[slot.value] := batch[k].score;
    }
    assert writes[..|batch|] == writes;
    ok := true;
  }

  function Chunks(n: nat): nat {
    (n + TEI_BATCH - 1) / TEI_BATCH
  }

  /** Batches of sixteen texts, as many as it takes and no more. */
  lemma ChunksInPlain(n: nat)
    ensures 16 * Chunks(n) >= n && (n > 0 ==> 16 * (Chunks(n) - 1) < n) && (n == 0 ==> Chunks(n) == 0)
  {
  }

  /** One attempt: each answer in turn is written over what the list held. */
  method WriteAnswers(answers: seq<seq<Item>>, scores: array<real>) returns (ok: bool)
    modifies scores
    ensures ok <==> InRange(scores.Length, Writes(answers))
    ensures ok ==> forall i :: 0 <= i < scores.Length ==>
      scores[i] == After(scores.Length, Writes(answers), i, old(scores[i]))
  {
    hide BatchWrites, After, Slot;
    ghost var n, held := scores.Length, scores[..];
    NoWrites();
    for c := 0 to |answers|
      invariant InRange(n, Writes(answers[..c]))
      invariant forall i :: 0 <= i < n ==> scores[i] == After(n, Writes(answers[..c]), i, held[i])
    {
      assert answers[..c + 1][..c] == answers[..c];
      ghost var before, batch := Writes(answers[..c]), BatchWrites(c, answers[c]);
      assert Writes(answers[..c + 1]) == before + batch;
      ok := Scatter(c, answers[c], scores);
      forall i | 0 <= i < n { AfterAppend(n, before, batch, i, held[i]); }
      RangeAppend(n, before, batch);
      if !ok {
        OutOfRangeStays(n, answers, c + 1);
        return false;
      }
    }
    assert answers[..|answers|] == answers;
    ok := true;
  }

  /** What one attempt wrote, and whether an error that is retried cut it short. */
  datatype Attempt = Attempt(answers: seq<seq<Item>>, failed: bool)

  datatype Outcome = Scores(values: seq<real>) | IndexError | GaveUp

  const ATTEMPTS: nat := 4

  predicate Possible(n: nat, a: Attempt) {
    |a.answers| <= Chunks(n) && (!a.failed ==> |a.answers| == Chunks(n))
  }

  /** The attempts made: all that fail, and the first that does not. */
  function Tried(attempts: seq<Attempt>): (t: nat)
    ensures t <= |attempts|
    ensures forall k :: 0 <= k < t - 1 ==> attempts[k].failed
    ensures t < |attempts| ==> t > 0 && !attempts[t - 1].failed
  {
    if attempts == [] then 0 else if attempts[0].failed then 1 + Tried(attempts[1..]) else 1
  }

  /** All assignments of several attempts: the list is made once, before the first. */
  function AllWrites(attempts: seq<Attempt>): seq<Write> {
    if attempts == [] then []
    else
      var a := |attempts| - 1;
      AllWrites(attempts[..a]) + Writes(attempts[a].answers)
  }

  predicate Succeeds(attempts: seq<Attempt>) {
    exists a :: 0 <= a < |attempts| && !attempts[a].failed
  }

  /** Every slot holds the last score any attempt wrote to it, or zero. */
  method Rerank(texts: seq<string>, attempts: seq<Attempt>) returns (r: Outcome)
    requires |attempts| == 4 && forall a :: a in attempts ==> Possible(|texts|, a)
    ensures var writes := AllWrites(attempts[..Tried(attempts)]);
            && (r.IndexError? <==> !InRange(|texts|, writes))
            && (r.GaveUp? <==> InRange(|texts|, writes) && !Succeeds(attempts))
            && (r.Scores? ==>
                  |r.values| == |texts|
                  && forall i :: 0 <= i < |texts| ==> r.values[i] == After(|texts|, writes, i, 0.0))
  {
    hide After, InRange, Writes, AllWrites;
    var scores := new real[|texts|](_ => 0.0);
    NoWrites();
    assert attempts[..0] == [];
    for a := 0 to ATTEMPTS
      invariant forall k :: 0 <= k < a ==> attempts[k].failed
      invariant InRange(|texts|, AllWrites(attempts[..a]))
      invariant forall i :: 0 <= i < |texts| ==> scores[i] == After(|texts|, AllWrites(attempts[..a]), i, 0.0)
    {
      var ok := WriteAnswers(attempts[a].answers, scores);
      OneMoreAttempt(|texts|, attempts, a);
      if !ok {
        assert Tried(attempts) > a && attempts[..Tried(attempts)][..a + 1] == attempts[..a + 1];
        AttemptOutOfRange(|texts|, attempts[..Tried(attempts)], a + 1);
        return IndexError;
      }
      if !attempts[a].failed { return Scores(scores[..]); }
    }
    assert attempts[..ATTEMPTS] == attempts;
    r := GaveUp;
  }

  lemma OneMoreAttempt(n: nat, attempts: seq<Attempt>, a: nat)
    requires a < |attempts|
    ensures var before, writes := AllWrites(attempts[..a]), Writes(attempts[a].answers);
            && (InRange(n, AllWrites(attempts[..a + 1])) <==> InRange(n, before) && InRange(n, writes))
            && forall i :: 0 <= i < n ==>
                 After(n, AllWrites(attempts[..a + 1]), i, 0.0) == After(n, writes, i, After(n, before, i, 0.0))
  {
    hide After, InRange, Writes;
    var before, writes := AllWrites(attempts[..a]), Writes(attempts[a].answers);
    assert attempts[..a + 1][..a] == attempts[..a];
    assert AllWrites(attempts[..a + 1]) == before + writes;
    forall i | 0 <= i < n { AfterAppend(n, before, writes, i, 0.0); }
    RangeAppend(n, before, writes);
  }

  lemma {:induction false} AttemptOutOfRange(n: nat, attempts: seq<Attempt>, a: nat)
    requires a <= |attempts| && !InRange(n, AllWrites(attempts[..a]))
    ensures !InRange(n, AllWrites(attempts))
  {
    hide InRange, Writes;
    if a < |attempts| {
      var m := |attempts| - 1;
      assert attempts[..m][..a] == attempts[..a];
      AttemptOutOfRange(n, attempts[..m], a);
      RangeAppend(n, AllWrites(attempts[..m]), Writes(attempts[m].answers));
    } else {
      assert attempts[..a] == attempts;
    }
  }

  lemma NoWrites()
    ensures Writes([]) == [] && AllWrites([]) == []
    ensures forall n :: InRange(n, []) && forall i, before :: After(n, [], i, before) == before
  {
  }

  lemma RangeAppend(n: nat, a: seq<Write>, b: seq<Write>)
    ensures InRange(n, a + b) <==> InRange(n, a) && InRange(n, b)
  {
    hide Slot;
    if InRange(n, a + b) {
      assert forall k :: 0 <= k < |a| ==> (a + b)[k] == a[k];
      assert forall k :: 0 <= k < |b| ==> (a + b)[|a| + k] == b[k];
    }
  }

  lemma {:induction false} OutOfRangeStays(n: nat, answers: seq<seq<Item>>, c: nat)
    requires c <= |answers| && !InRange(n, Writes(answers[..c]))
    ensures !InRange(n, Writes(answers))
  {
    if c < |answers| {
      var m := |answers| - 1;
      assert answers[..m][..c] == answers[..c];
      OutOfRangeStays(n, answers[..m], c);
      RangeAppend(n, Writes(answers[..m]), BatchWrites(m, answers[m]));
    } else {
      assert answers[..c] == answers;
    }
  }

  /** The list is what the scorer makes of each text. */
  ghost predicate Right(texts: seq<string>, writes: seq<Write>, predict: string -> real) {
    forall i :: 0 <= i < |texts| ==> After(|texts|, writes, i, 0.0) == predict(texts[i])
  }

  predicate Named(n: nat, writes: seq<Write>, i: nat) {
    exists k :: 0 <= k < |writes| && Slot(n, writes[k].place) == Some(i)
  }

  /** Assignment `k` is the last to slot `i`. */
  predicate LastNaming(n: nat, writes: seq<Write>, i: nat, k: int) {
    0 <= k < |writes| && Slot(n, writes[k].place) == Some(i)
    && forall j :: k < j < |writes| ==> Slot(n, writes[j].place) != Some(i)
  }

  lemma {:induction false} LastWriteDecides(n: nat, writes: seq<Write>, i: nat, before: real)
    ensures Named(n, writes, i) ==>
      exists k :: LastNaming(n, writes, i, k) && After(n, writes, i, before) == writes[k].score
    ensures !Named(n, writes, i) ==> After(n, writes, i, before) == before
  {
    hide Slot;
    if writes != [] {
      var last := |writes| - 1;
      var front := writes[..last];
      LastWriteDecides(n, front, i, before);
      if Slot(n, writes[last].place) == Some(i) {
        assert LastNaming(n, writes, i, last);
      } else if Named(n, front, i) {
        var k :| LastNaming(n, front, i, k) && After(n, front, i, before) == front[k].score;
        assert Slot(n, writes[k].place) == Some(i);
        assert LastNaming(n, writes, i, k);
      }
    }
  }

  /** What the answers must say of text `i`: its last assignment carries its score, or it has none and scores zero. */
  predicate Answered(texts: seq<string>, writes: seq<Write>, i: nat, score: real) {
    if Named(|texts|, writes, i)
    then forall k :: 0 <= k < |writes| && LastNaming(|texts|, writes, i, k) ==> writes[k].score == score
    else score == 0.0
  }

  /** Whatever the answers hold, the list is right exactly when each text is answered so. */
  lemma RightIff(texts: seq<string>, writes: seq<Write>, predict: string -> real)
    ensures Right(texts, writes, predict) <==>
            forall i :: 0 <= i < |texts| ==> Answered(texts, writes, i, predict(texts[i]))
  {
    hide Named, After, Slot;
    forall i | 0 <= i < |texts|
      ensures After(|texts|, writes, i, 0.0) == predict(texts[i]) <==> Answered(texts, writes, i, predict(texts[i]))
    {
      LastWriteDecides(|texts|, writes, i, 0.0);
      if Named(|texts|, writes, i) {
        var k :| LastNaming(|texts|, writes, i, k) && After(|texts|, writes, i, 0.0) == writes[k].score;
        assert forall j :: LastNaming(|texts|, writes, i, j) ==> !(j < k) && !(k < j);
      }
    }
  }

  /** An answer keeps to its own batch and gives each text it names that text's score. */
  ghost predicate Honest(texts: seq<string>, answers: seq<seq<Item>>, predict: string -> real) {
    forall c, k :: 0 <= c < |answers| && 0 <= k < |answers[c]| ==> HonestItem(texts, c, answers[c][k], predict)
  }

  predicate HonestItem(texts: seq<string>, chunk: nat, item: Item, predict: string -> real) {
    0 <= item.index < TEI_BATCH && chunk * TEI_BATCH + item.index < |texts|
    && item.score == predict(texts[chunk * TEI_BATCH + item.index])
  }

  predicate HonestWrite(texts: seq<string>, w: Write, predict: string -> real) {
    0 <= w.place < |texts| && w.score == predict(texts[w.place])
  }

  predicate HonestWrites(texts: seq<string>, writes: seq<Write>, predict: string -> real) {
    forall k :: 0 <= k < |writes| ==> HonestWrite(texts, writes[k], predict)
  }

  lemma {:induction false} HonestAnswers(texts: seq<string>, answers: seq<seq<Item>>, predict: string -> real)
    requires Honest(texts, answers, predict)
    ensures HonestWrites(texts, Writes(answers), predict)
  {
    if answers != [] {
      var c := |answers| - 1;
      HonestAnswers(texts, answers[..c], predict);
      assert forall k :: 0 <= k < |answers[c]| ==> HonestItem(texts, c, answers[c][k], predict);
    }
  }

  lemma {:induction false} HonestAttempts(texts: seq<string>, attempts: seq<Attempt>, predict: string -> real)
    requires forall a :: a in attempts ==> Honest(texts, a.answers, predict)
    ensures HonestWrites(texts, AllWrites(attempts), predict)
  {
    hide Honest, HonestWrite, Writes;
    if attempts != [] {
      var a := |attempts| - 1;
      HonestAttempts(texts, attempts[..a], predict);
      HonestAnswers(texts, attempts[a].answers, predict);
    }
  }

  /** Some answer of some attempt names every place. */
  predicate AllNamed(texts: seq<string>, writes: seq<Write>) {
    forall i :: 0 <= i < |texts| ==> Named(|texts|, writes, i)
  }

  /**
   Nothing asks an answer to be complete: over any number of honest attempts and for a scorer that
   is never zero the list is right iff every text was named by one of them, the failed ones included.
   */
  lemma HonestRightIff(texts: seq<string>, attempts: seq<Attempt>, predict: string -> real)
    requires forall a :: a in attempts ==> Honest(texts, a.answers, predict)
    requires forall text :: text in texts ==> predict(text) != 0.0
    ensures InRange(|texts|, AllWrites(attempts))
    ensures Right(texts, AllWrites(attempts), predict) <==> AllNamed(texts, AllWrites(attempts))
  {
    hide AllWrites, Honest;
    var writes := AllWrites(attempts);
    HonestAttempts(texts, attempts, predict);
    RightIff(texts, writes, predict);
    hide Right, Named;
    assert forall k :: 0 <= k < |writes| ==>
      HonestWrite(texts, writes[k], predict) && Slot(|texts|, writes[k].place) == Some(writes[k].place);
    forall i | 0 <= i < |texts|
      ensures Answered(texts, writes, i, predict(texts[i])) <==> Named(|texts|, writes, i)
    {
      assert texts[i] in texts;
    }
  }

  /** One text and one honest answer that leaves it out: the list comes back with zero for it, and nothing raises. */
  lemma UnnamedKeepsZero(text: string, predict: string -> real)
    requires predict(text) != 0.0
    ensures var writes := AllWrites([Attempt([[]], false)]);
            Honest([text], [[]], predict) && Possible(1, Attempt([[]], false)) && InRange(1, writes)
            && After(1, writes, 0, 0.0) == 0.0 && !Right([text], writes, predict)
  {
    OneAttempt([[]]);
    assert Writes([[]]) == [];
    assert After(1, Writes([[]]), 0, 0.0) == 0.0 != predict([text][0]);
  }

  lemma OneAttempt(answers: seq<seq<Item>>)
    ensures AllWrites([Attempt(answers, false)]) == Writes(answers)
  {
    assert AllWrites([]) == [] && [Attempt(answers, false)][..0] == [];
  }

  /** Left out by the attempt that succeeds, a text keeps what a failed attempt wrote for it. */
  lemma FailedAttemptShowsThrough(score: real)
    ensures var attempts := [Attempt([[Item(0, score)]], true), Attempt([[]], false)];
            Tried(attempts) == 2 && After(1, AllWrites(attempts), 0, 0.0) == score
  {
    var first, second := Attempt([[Item(0, score)]], true), Attempt([[]], false);
    assert [first, second][..1] == [first] && [first][..0] == [] && AllWrites([]) == [];
    assert Writes([[]]) == [] && Writes([]) == [] && first.answers[..0] == [];
    assert [first, second][1..] == [second];
    assert Writes(first.answers) == BatchWrites(0, first.answers[0]) == [Write(0, score)];
    assert AllWrites([first]) == [Write(0, score)] == AllWrites([first, second]);
  }

  /** Seventeen texts and an index below its batch: the second answer overwrites the sixteenth text's score. */
  lemma StrayIndexOverwrites(score: real)
    ensures var answers := [[], [Item(-1, score)]];
            Possible(17, Attempt(answers, false)) && InRange(17, Writes(answers))
            && After(17, Writes(answers), 15, 0.0) == score
  {
    var answers := [[], [Item(-1, score)]];
    var item: seq<Item> := [Item(-1, score)];
    assert answers[..1] == [[]] && Writes(answers[..1]) == [];
    assert Writes(answers) == BatchWrites(1, item) == [Write(15, score)];
  }
}
