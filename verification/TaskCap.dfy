/**
 The cap on the active tasks of one user when calls overlap: each call counts the committed tasks
 of its user at some moment between its look-up and its insert, and nothing makes two calls on
 different lessons wait for each other.
 */
module TaskCap {
  import opened Common
  import opened TaskRows
  import opened TaskRuns
  import opened LessonTasks

  /** The transactions, and those that have counted and found room. */
  datatype Calls = Calls(db: Db, counted: set<TxId>)

  datatype Act = Does(move: Move) | Counts(tx: TxId)

  ghost predicate May(c: Calls, a: Act, maxActive: nat) {
    match a
    case Does(m) => Enabled(c.db, m) && (m.Insert? ==> m.tx in c.counted)
    case Counts(tx) =>
      InPhase(c.db, tx, Clear) && |TasksOf(c.db.queue.rows, c.db.txs[tx].request.createdBy)| < maxActive
  }

  ghost function After(c: Calls, a: Act, maxActive: nat): Calls
    requires May(c, a, maxActive)
  {
    match a
    case Does(m) => c.(db := Next(c.db, m))
    case Counts(tx) => c.(counted := c.counted + {tx})
  }

  /** The user's calls that have counted and are still to commit. */
  function InFlight(c: Calls, user: Uuid): set<TxId> {
    set tx | tx in c.counted && tx in c.db.txs && c.db.txs[tx].request.createdBy == user
             && (c.db.txs[tx].phase.Clear? || c.db.txs[tx].phase.Inserted?)
  }

  const NOBODY := Calls(EMPTY, {})

  ghost predicate IsHistory(cs: seq<Calls>, acts: seq<Act>, maxActive: nat) {
    && |cs| == |acts| + 1 && cs[0] == NOBODY
    && forall i :: 0 <= i < |acts| ==> May(cs[i], acts[i], maxActive) && cs[i + 1] == After(cs[i], acts[i], maxActive)
  }

  /** Never more than k calls of the user between count and commit. */
  predicate AtMostInFlight(cs: seq<Calls>, k: nat, user: Uuid) {
    forall i :: 0 <= i < |cs| ==> |InFlight(cs[i], user)| <= k
  }

  // ---- How far the cap can be missed ----

  /** Only calls past their look-up have counted, and only those insert. */
  ghost predicate Counted(c: Calls) {
    && (forall tx :: tx in c.counted ==> tx in c.db.txs)
    && (forall tx :: tx in c.counted ==>
          var p := c.db.txs[tx].phase; p.Clear? || p.Inserted? || p.Committed? || p.RolledBack?)
    && (forall tx :: tx in c.db.txs && c.db.txs[tx].phase.Inserted? ==> tx in c.counted)
  }

  lemma ActKeepsCounted(c: Calls, a: Act, maxActive: nat)
    requires Counted(c) && May(c, a, maxActive)
    ensures Counted(After(c, a, maxActive))
  {
  }

  lemma {:induction false} HistoryIsSound(cs: seq<Calls>, acts: seq<Act>, maxActive: nat, n: nat)
    requires IsHistory(cs, acts, maxActive) && n < |cs|
    ensures Inv(cs[n].db) && Counted(cs[n])
  {
    if n > 0 {
      HistoryIsSound(cs, acts, maxActive, n - 1);
      ActKeepsCounted(cs[n - 1], acts[n - 1], maxActive);
      if acts[n - 1].Does? { NextKeepsInv(cs[n - 1].db, acts[n - 1].move); }
    }
  }

  ghost predicate Bounded(c: Calls, maxActive: nat, k: nat, user: Uuid) {
    |TasksOf(c.db.queue.rows, user)| + |InFlight(c, user)| < maxActive + k
  }

  lemma CountKeepsBound(c: Calls, tx: TxId, maxActive: nat, k: nat, user: Uuid)
    requires May(c, Counts(tx), maxActive) && Bounded(c, maxActive, k, user)
    requires |InFlight(After(c, Counts(tx), maxActive), user)| <= k
    ensures Bounded(After(c, Counts(tx), maxActive), maxActive, k, user)
  {
    if c.db.txs[tx].request.createdBy != user {
      assert InFlight(After(c, Counts(tx), maxActive), user) == InFlight(c, user);
    }
  }

  lemma CommitIs(d: Db, tx: TxId)
    requires tx in d.txs && d.txs[tx].phase.Inserted?
    ensures var t := d.txs[tx];
            && Next(d, Commit(tx)).queue == Step(d.queue, Create(t.phase.id, t.request, t.phase.seqNo, t.at))
            && Next(d, Commit(tx)).txs == d.txs[tx := t.(phase := Committed(t.phase.id))]
            && Next(d, Commit(tx)).locks.Keys <= d.locks.Keys
  {
  }

  lemma CommitKeepsBound(c: Calls, tx: TxId, maxActive: nat, k: nat, user: Uuid)
    requires tx in c.db.txs && c.db.txs[tx].phase.Inserted? && tx in c.counted
    requires Valid(c.db.queue) && c.db.txs[tx].phase.id !in c.db.queue.born
    requires Bounded(c, maxActive, k, user)
    ensures Bounded(After(c, Does(Commit(tx)), maxActive), maxActive, k, user)
  {
    var t, n := c.db.txs[tx], After(c, Does(Commit(tx)), maxActive);
    CommitIs(c.db, tx);
    CreatingAddsOne(c.db.queue, t.phase.id, t.request, t.phase.seqNo, t.at, user);
    Landed(c, n, tx, t.phase.id, user);
  }

  /** A committed call is in flight no more. */
  lemma Landed(c: Calls, n: Calls, tx: TxId, id: Uuid, user: Uuid)
    requires tx in c.db.txs && c.db.txs[tx].phase.Inserted? && tx in c.counted && n.counted == c.counted
    requires n.db.txs == c.db.txs[tx := c.db.txs[tx].(phase := Committed(id))]
    ensures |InFlight(n, user)| == |InFlight(c, user)| - if c.db.txs[tx].request.createdBy == user then 1 else 0
  {
    if c.db.txs[tx].request.createdBy == user {
      assert InFlight(n, user) == InFlight(c, user) - {tx};
    } else {
      assert InFlight(n, user) == InFlight(c, user);
    }
  }

  /** Every other move leaves the user's tasks as they are, or fewer, and brings no call into flight. */
  lemma MoveKeepsBound(c: Calls, m: Move, maxActive: nat, k: nat, user: Uuid)
    requires Inv(c.db) && Counted(c) && May(c, Does(m), maxActive) && Bounded(c, maxActive, k, user)
    requires m.Commit? ==> c.db.txs[m.tx].phase.Found?
    ensures Bounded(After(c, Does(m), maxActive), maxActive, k, user)
  {
    var n := After(c, Does(m), maxActive);
    SubsetSize(InFlight(n, user), InFlight(c, user));
    if m.Queue? { OthersAddNone(c.db.queue, m.event, user); }
    SubsetSize(TasksOf(n.db.queue.rows, user), TasksOf(c.db.queue.rows, user));
  }

  lemma ActKeepsBound(c: Calls, a: Act, maxActive: nat, k: nat, user: Uuid)
    requires Inv(c.db) && Counted(c) && May(c, a, maxActive) && Bounded(c, maxActive, k, user)
    requires |InFlight(After(c, a, maxActive), user)| <= k
    ensures Bounded(After(c, a, maxActive), maxActive, k, user)
  {
    match a
    case Counts(tx) => CountKeepsBound(c, tx, maxActive, k, user);
    case Does(m) =>
      if m.Commit? && c.db.txs[m.tx].phase.Inserted? {
        CommitKeepsBound(c, m.tx, maxActive, k, user);
      } else {
        MoveKeepsBound(c, m, maxActive, k, user);
      }
  }

  lemma {:induction false} HistoryIsBounded(
    cs: seq<Calls>, acts: seq<Act>, maxActive: nat, k: nat, user: Uuid, n: nat)
    requires IsHistory(cs, acts, maxActive) && maxActive > 0 && AtMostInFlight(cs, k, user) && n < |cs|
    ensures Bounded(cs[n], maxActive, k, user)
  {
    if n == 0 {
      assert TasksOf(INITIAL.rows, user) == {} && InFlight(NOBODY, user) == {};
    } else {
      HistoryIsBounded(cs, acts, maxActive, k, user, n - 1);
      HistoryIsSound(cs, acts, maxActive, n - 1);
      assert cs[n] == After(cs[n - 1], acts[n - 1], maxActive);
      ActKeepsBound(cs[n - 1], acts[n - 1], maxActive, k, user);
    }
  }

  /** With at most k calls of a user in flight, the user never has more than maxActive - 1 + k active tasks. */
  lemma CapIsMissedByLess(cs: seq<Calls>, acts: seq<Act>, maxActive: nat, k: nat, user: Uuid, n: nat)
    requires IsHistory(cs, acts, maxActive) && maxActive > 0 && AtMostInFlight(cs, k, user) && n < |cs|
    ensures |TasksOf(cs[n].db.queue.rows, user)| <= maxActive - 1 + k
  {
    HistoryIsBounded(cs, acts, maxActive, k, user, n);
  }

  // ---- And that it can be missed by that much ----

  ghost predicate Reaches(c: Calls, maxActive: nat, k: nat, user: Uuid) {
    exists cs, acts :: IsHistory(cs, acts, maxActive) && AtMostInFlight(cs, k, user) && cs[|cs| - 1] == c
  }

  lemma ReachesNext(c: Calls, a: Act, maxActive: nat, k: nat, user: Uuid)
    requires Reaches(c, maxActive, k, user) && May(c, a, maxActive)
    requires |InFlight(After(c, a, maxActive), user)| <= k
    ensures Reaches(After(c, a, maxActive), maxActive, k, user)
  {
    var cs, acts :| IsHistory(cs, acts, maxActive) && AtMostInFlight(cs, k, user) && cs[|cs| - 1] == c;
    var cs2, acts2 := cs + [After(c, a, maxActive)], acts + [a];
    assert forall i :: 0 <= i < |cs| ==> cs2[i] == cs[i];
    assert forall i :: 0 <= i < |acts| ==> acts2[i] == acts[i];
    assert IsHistory(cs2, acts2, maxActive) && AtMostInFlight(cs2, k, user) && cs2[|cs2| - 1] == After(c, a, maxActive);
  }

  lemma ReachedIsSound(c: Calls, maxActive: nat, k: nat, user: Uuid)
    requires Reaches(c, maxActive, k, user)
    ensures Inv(c.db) && Counted(c)
  {
    var cs, acts :| IsHistory(cs, acts, maxActive) && AtMostInFlight(cs, k, user) && cs[|cs| - 1] == c;
    HistoryIsSound(cs, acts, maxActive, |cs| - 1);
  }

  /** Everything so far has a number below n; calls are committed, or have counted and not inserted. */
  ghost predicate Numbered(c: Calls, n: nat) {
    && (forall tx :: tx in c.db.txs ==>
          tx < n && (c.db.txs[tx].phase.Committed? || (c.db.txs[tx].phase.Clear? && tx in c.counted)))
    && (forall l :: l in c.db.locks ==> l < n)
    && (forall id :: id in c.db.queue.born ==> id < n)
    && (forall id :: id in c.db.queue.rows ==> c.db.queue.rows[id].lesson < n)
  }

  ghost predicate Standing(c: Calls, n: nat, tasks: nat, flying: nat, user: Uuid) {
    Numbered(c, n) && |TasksOf(c.db.queue.rows, user)| == tasks && |InFlight(c, user)| == flying
  }

  function Wanted(lesson: Uuid, user: Uuid): Request { Request(lesson, None, "", user, []) }

  /** With one more call of the user in some phase, holding its lesson or not yet. */
  function WithCall(c: Calls, n: nat, user: Uuid, phase: Phase): Calls {
    c.(db := c.db.(txs := c.db.txs[n := Tx(Wanted(n, user), c.db.queue.now, phase)]))
  }

  function Locking(c: Calls, n: nat): Calls { c.(db := c.db.(locks := c.db.locks[n := n])) }

  /** One more call, as far as its count. */
  function Started(c: Calls, n: nat, user: Uuid): Calls {
    Locking(WithCall(c, n, user, Clear), n).(counted := c.counted + {n})
  }

  lemma BeginStep(c: Calls, n: nat, maxActive: nat, user: Uuid)
    requires n !in c.db.txs
    ensures var a := Does(Begin(n, Wanted(n, user)));
            May(c, a, maxActive) && After(c, a, maxActive) == WithCall(c, n, user, Begun)
  {
  }

  lemma LockStep(c: Calls, n: nat, maxActive: nat, user: Uuid)
    requires n !in c.db.locks
    ensures var b, a := WithCall(c, n, user, Begun), Does(LockLesson(n));
            May(b, a, maxActive) && After(b, a, maxActive) == Locking(WithCall(c, n, user, Locked), n)
  {
    assert WithCall(c, n, user, Begun).db.txs[n].phase == Begun;
  }

  lemma LookUpStep(c: Calls, n: nat, maxActive: nat, user: Uuid)
    requires forall id :: id in c.db.queue.rows ==> c.db.queue.rows[id].lesson < n
    ensures var b, a := Locking(WithCall(c, n, user, Locked), n), Does(LookUp(n, None));
            May(b, a, maxActive) && After(b, a, maxActive) == Locking(WithCall(c, n, user, Clear), n)
  {
    assert Locking(WithCall(c, n, user, Locked), n).db.txs[n].phase == Locked;
  }

  lemma CountStep(c: Calls, n: nat, maxActive: nat, user: Uuid)
    requires |TasksOf(c.db.queue.rows, user)| < maxActive
    ensures var b, a := Locking(WithCall(c, n, user, Clear), n), Counts(n);
            May(b, a, maxActive) && After(b, a, maxActive) == Started(c, n, user)
  {
  }

  lemma TakingOff(c: Calls, n: nat, phase: Phase, user: Uuid)
    requires n !in c.counted && n !in c.db.txs
    ensures InFlight(WithCall(c, n, user, phase), user) == InFlight(c, user)
    ensures InFlight(Locking(WithCall(c, n, user, phase), n), user) == InFlight(c, user)
    ensures |InFlight(Started(c, n, user), user)| == |InFlight(c, user)| + 1
  {
    assert InFlight(Started(c, n, user), user) == InFlight(c, user) + {n};
  }

  lemma StartReaches(c: Calls, n: nat, maxActive: nat, k: nat, user: Uuid)
    requires Reaches(c, maxActive, k, user) && n !in c.db.txs && n !in c.counted && n !in c.db.locks
    requires forall id :: id in c.db.queue.rows ==> c.db.queue.rows[id].lesson < n
    requires |TasksOf(c.db.queue.rows, user)| < maxActive && |InFlight(c, user)| < k
    ensures Reaches(Started(c, n, user), maxActive, k, user)
  {
    TakingOff(c, n, Begun, user);
    TakingOff(c, n, Locked, user);
    TakingOff(c, n, Clear, user);
    BeginStep(c, n, maxActive, user);
    ReachesNext(c, Does(Begin(n, Wanted(n, user))), maxActive, k, user);
    LockStep(c, n, maxActive, user);
    ReachesNext(WithCall(c, n, user, Begun), Does(LockLesson(n)), maxActive, k, user);
    LookUpStep(c, n, maxActive, user);
    ReachesNext(Locking(WithCall(c, n, user, Locked), n), Does(LookUp(n, None)), maxActive, k, user);
    CountStep(c, n, maxActive, user);
    ReachesNext(Locking(WithCall(c, n, user, Clear), n), Counts(n), maxActive, k, user);
  }

  lemma StartStep(c: Calls, n: nat, tasks: nat, flying: nat, maxActive: nat, k: nat, user: Uuid)
    requires Reaches(c, maxActive, k, user) && Standing(c, n, tasks, flying, user) && tasks < maxActive && flying < k
    ensures Reaches(Started(c, n, user), maxActive, k, user)
    ensures Standing(Started(c, n, user), n + 1, tasks, flying + 1, user)
  {
    ReachedIsSound(c, maxActive, k, user);
    StartReaches(c, n, maxActive, k, user);
    TakingOff(c, n, Clear, user);
  }

  lemma InsertStep(c: Calls, tx: TxId, n: nat, maxActive: nat, user: Uuid)
    requires tx in InFlight(c, user) && c.db.txs[tx].phase.Clear? && FreshId(c.db, n)
    ensures May(c, Does(Insert(tx, n, 0)), maxActive)
    ensures After(c, Does(Insert(tx, n, 0)), maxActive)
            == c.(db := c.db.(txs := c.db.txs[tx := c.db.txs[tx].(phase := Inserted(n, 0))]))
    ensures InFlight(After(c, Does(Insert(tx, n, 0)), maxActive), user) == InFlight(c, user)
  {
  }

  lemma FinishReaches(c: Calls, tx: TxId, n: nat, maxActive: nat, k: nat, user: Uuid) returns (done: Calls)
    requires Reaches(c, maxActive, k, user) && tx in InFlight(c, user)
    requires c.db.txs[tx].phase.Clear? && FreshId(c.db, n) && |InFlight(c, user)| <= k
    ensures Reaches(done, maxActive, k, user)
    ensures done.db.queue == Step(c.db.queue, Create(n, c.db.txs[tx].request, 0, c.db.txs[tx].at))
    ensures done.db.txs == c.db.txs[tx := c.db.txs[tx].(phase := Committed(n))] && done.counted == c.counted
    ensures done.db.locks.Keys <= c.db.locks.Keys && |InFlight(done, user)| == |InFlight(c, user)| - 1
  {
    var inserted := After(c, Does(Insert(tx, n, 0)), maxActive);
    InsertStep(c, tx, n, maxActive, user);
    ReachesNext(c, Does(Insert(tx, n, 0)), maxActive, k, user);
    done := After(inserted, Does(Commit(tx)), maxActive);
    CommitIs(inserted.db, tx);
    Landed(inserted, done, tx, n, user);
    ReachesNext(inserted, Does(Commit(tx)), maxActive, k, user);
  }

  lemma FinishedIsNumbered(c: Calls, done: Calls, tx: TxId, n: nat)
    requires Numbered(c, n) && tx in c.db.txs && c.db.txs[tx].request.lesson < n
    requires done.db.queue.rows == c.db.queue.rows[n := NewRow(c.db.txs[tx].request, 0, c.db.txs[tx].at)]
    requires done.db.queue.born == c.db.queue.born + {n}
    requires done.db.txs == c.db.txs[tx := c.db.txs[tx].(phase := Committed(n))] && done.counted == c.counted
    requires done.db.locks.Keys <= c.db.locks.Keys
    ensures Numbered(done, n + 1)
  {
    forall l | l in done.db.locks ensures l < n + 1 { assert l in done.db.locks.Keys; }
  }

  /** A call in flight inserts and commits. */
  lemma FinishStep(c: Calls, n: nat, tasks: nat, flying: nat, maxActive: nat, k: nat, user: Uuid)
    returns (done: Calls)
    requires Reaches(c, maxActive, k, user) && Standing(c, n, tasks, flying, user) && 0 < flying <= k
    ensures Reaches(done, maxActive, k, user) && Standing(done, n + 1, tasks + 1, flying - 1, user)
  {
    ReachedIsSound(c, maxActive, k, user);
    var tx := NextToFinish(c, n, user);
    done := FinishReaches(c, tx, n, maxActive, k, user);
    CreatingAddsOne(c.db.queue, n, c.db.txs[tx].request, 0, c.db.txs[tx].at, user);
    FinishedIsNumbered(c, done, tx, n);
  }

  lemma NextToFinish(c: Calls, n: nat, user: Uuid) returns (tx: TxId)
    requires Inv(c.db) && Numbered(c, n) && InFlight(c, user) != {}
    ensures tx in InFlight(c, user) && c.db.txs[tx].phase.Clear? && c.db.txs[tx].request.lesson < n
    ensures FreshId(c.db, n) && Valid(c.db.queue)
  {
    tx :| tx in InFlight(c, user);
    assert c.db.txs[tx].request.lesson in c.db.locks;
  }

  /** One call after the other up to one below the cap. */
  lemma {:induction false} FillUp(tasks: nat, maxActive: nat, k: nat, user: Uuid) returns (c: Calls, n: nat)
    requires tasks < maxActive && k > 0
    ensures Reaches(c, maxActive, k, user) && Standing(c, n, tasks, 0, user)
  {
    if tasks == 0 {
      c, n := NOBODY, 0;
      assert TasksOf(INITIAL.rows, user) == {} && InFlight(NOBODY, user) == {};
      assert IsHistory([NOBODY], [], maxActive) && AtMostInFlight([NOBODY], k, user);
    } else {
      c, n := FillUp(tasks - 1, maxActive, k, user);
      StartStep(c, n, tasks - 1, 0, maxActive, k, user);
      c := FinishStep(Started(c, n, user), n + 1, tasks - 1, 1, maxActive, k, user);
      n := n + 2;
    }
  }

  /** Then several at once as far as their counts. */
  lemma {:induction false} TakeOff(flying: nat, maxActive: nat, k: nat, user: Uuid) returns (c: Calls, n: nat)
    requires flying <= k && 0 < k && 0 < maxActive
    ensures Reaches(c, maxActive, k, user) && Standing(c, n, maxActive - 1, flying, user)
  {
    if flying == 0 {
      c, n := FillUp(maxActive - 1, maxActive, k, user);
    } else {
      c, n := TakeOff(flying - 1, maxActive, k, user);
      StartStep(c, n, maxActive - 1, flying - 1, maxActive, k, user);
      c, n := Started(c, n, user), n + 1;
    }
  }

  /** And all of these commit. */
  lemma {:induction false} Land(flying: nat, maxActive: nat, k: nat, user: Uuid) returns (c: Calls, n: nat)
    requires flying <= k && 0 < k && 0 < maxActive
    ensures Reaches(c, maxActive, k, user) && Standing(c, n, maxActive - 1 + (k - flying), flying, user)
    decreases k - flying
  {
    if flying == k {
      c, n := TakeOff(k, maxActive, k, user);
    } else {
      c, n := Land(flying + 1, maxActive, k, user);
      c := FinishStep(c, n, maxActive - 1 + (k - flying - 1), flying + 1, maxActive, k, user);
      n := n + 1;
    }
  }

  /** k calls in flight can leave maxActive - 1 + k active tasks. */
  lemma CapIsMissed(maxActive: nat, k: nat, user: Uuid)
    requires maxActive > 0 && k > 0
    ensures exists cs: seq<Calls>, acts ::
              IsHistory(cs, acts, maxActive) && AtMostInFlight(cs, k, user)
              && |TasksOf(cs[|cs| - 1].db.queue.rows, user)| == maxActive - 1 + k
  {
    var c, n := Land(0, maxActive, k, user);
    var cs, acts :| IsHistory(cs, acts, maxActive) && AtMostInFlight(cs, k, user) && cs[|cs| - 1] == c;
  }

  ghost predicate KeepsCap(cs: seq<Calls>, maxActive: nat, user: Uuid) {
    forall i :: 0 <= i < |cs| ==> |TasksOf(cs[i].db.queue.rows, user)| <= maxActive
  }

  /** The cap holds in every history with at most k calls of the user in flight exactly when k is at most 1. */
  lemma CapHoldsIffAlone(maxActive: nat, k: nat, user: Uuid)
    requires maxActive > 0
    ensures (forall cs: seq<Calls>, acts :: IsHistory(cs, acts, maxActive) && AtMostInFlight(cs, k, user) ==>
               KeepsCap(cs, maxActive, user))
            <==> k <= 1
  {
    if k <= 1 {
      forall cs: seq<Calls>, acts | IsHistory(cs, acts, maxActive) && AtMostInFlight(cs, k, user)
        ensures KeepsCap(cs, maxActive, user)
      {
        forall i | 0 <= i < |cs| ensures |TasksOf(cs[i].db.queue.rows, user)| <= maxActive {
          CapIsMissedByLess(cs, acts, maxActive, k, user, i);
        }
      }
    } else {
      CapIsMissed(maxActive, k, user);
      var cs: seq<Calls>, acts :| IsHistory(cs, acts, maxActive) && AtMostInFlight(cs, k, user)
                                  && |TasksOf(cs[|cs| - 1].db.queue.rows, user)| == maxActive - 1 + k;
      assert !KeepsCap(cs, maxActive, user);
    }
  }
}
