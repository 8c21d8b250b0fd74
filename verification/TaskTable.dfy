/** The queue's view of the `tasks` table: each method is one SQL statement. */
module TaskTable {
  import opened Common
  import opened TaskRows
  import opened TaskRuns

  /** `m` is the largest queue_seq of an inqueued row, or 0 when there is none. */
  ghost predicate IsTailSeq(rows: Table, m: int) {
    && (forall id :: Has(rows, id, Inqueued) ==> rows[id].queueSeq <= m)
    && ((exists id :: Has(rows, id, Inqueued) && rows[id].queueSeq == m)
        || (m == 0 && forall id :: !Has(rows, id, Inqueued)))
  }

  /** `m` is the smallest queue_seq of an inqueued row, or 0 when there is none. */
  ghost predicate IsHeadSeq(rows: Table, m: int) {
    && (forall id :: Has(rows, id, Inqueued) ==> m <= rows[id].queueSeq)
    && ((exists id :: Has(rows, id, Inqueued) && rows[id].queueSeq == m)
        || (m == 0 && forall id :: !Has(rows, id, Inqueued)))
  }

  predicate Claimable(rows: Table, id: Uuid, kinds: set<string>) {
    Has(rows, id, Inqueued) && rows[id].kind in kinds
  }

  predicate Matches(r: Row, lesson: Uuid, chunk: Option<Uuid>, kind: string) {
    r.lesson == lesson && r.chunk == chunk && r.kind == kind && Active(r.status)
  }

  /** The two recovery sweeps, with the limit of each and the queue_seq it counts from. */
  datatype Sweep = Reaping(staleAfter: Time, tail: int) | Requeuing(olderThan: Time, head: int)

  function SweepSeq(w: Sweep, i: nat): int {
    match w
    case Reaping(_, tail) => tail + i + 1
    case Requeuing(_, head) => head - i - 1
  }

  function SweepEvent(w: Sweep, id: Uuid, i: nat): Event {
    match w
    case Reaping(staleAfter, _) => Reap(id, staleAfter, SweepSeq(w, i))
    case Requeuing(olderThan, _) => Requeue(id, olderThan, SweepSeq(w, i))
  }

  function SweepEvents(w: Sweep, ids: seq<Uuid>, n: nat): seq<Event>
    requires n <= |ids|
  {
    if n == 0 then [] else SweepEvents(w, ids, n - 1) + [SweepEvent(w, ids[n - 1], n - 1)]
  }

  /** The WHERE clause of a sweep. */
  predicate Due(rows: Table, id: Uuid, now: Time, w: Sweep) {
    match w
    case Reaping(staleAfter, _) => Stale(rows, id, now - staleAfter)
    case Requeuing(olderThan, _) => Orphaned(rows, id, now - olderThan)
  }

  /** What a sweep does to one row, provided the row is due. */
  function Renumbered(rows: Table, now: Time, w: Sweep, id: Uuid, i: nat): Table {
    if !Due(rows, id, now, w) then rows
    else
      rows[id := match w
           case Reaping(_, _) =>
             rows[id].(status := Inqueued, worker := None, heartbeat := None, queueSeq := SweepSeq(w, i),
                       updatedAt := now)
           case Requeuing(_, _) => rows[id].(queueSeq := SweepSeq(w, i), updatedAt := now)]
  }

  function SweepAll(rows: Table, now: Time, w: Sweep, ids: seq<Uuid>, n: nat): Table
    requires n <= |ids|
  {
    if n == 0 then rows else Renumbered(SweepAll(rows, now, w, ids, n - 1), now, w, ids[n - 1], n - 1)
  }

  ghost predicate Listed(ids: seq<Uuid>, n: nat, id: Uuid)
    requires n <= |ids|
  {
    exists i :: 0 <= i < n && ids[i] == id
  }

  /** The first n listed tasks were renumbered in the listed order; every other row is as before. */
  ghost predicate Swept(rows: Table, after: Table, w: Sweep, ids: seq<Uuid>, n: nat)
    requires n <= |ids|
  {
    && after.Keys == rows.Keys
    && (forall i :: 0 <= i < n ==> Has(after, ids[i], Inqueued) && after[ids[i]].queueSeq == SweepSeq(w, i))
    && (forall id :: id in rows && !Listed(ids, n, id) ==> after[id] == rows[id])
  }

  lemma {:induction false} SweepLeavesOthers(rows: Table, now: Time, w: Sweep, ids: seq<Uuid>, n: nat, id: Uuid)
    requires n <= |ids| && id in rows && !Listed(ids, n, id)
    ensures var after := SweepAll(rows, now, w, ids, n); id in after && after[id] == rows[id]
  {
    if n > 0 {
      assert ids[n - 1] != id;
      assert !Listed(ids, n - 1, id);
      SweepLeavesOthers(rows, now, w, ids, n - 1, id);
    }
  }

  lemma {:induction false} SweepRenumbers(rows: Table, now: Time, w: Sweep, ids: seq<Uuid>, n: nat, i: nat)
    requires i < n <= |ids|
    requires forall j, k :: 0 <= j < k < |ids| ==> ids[j] != ids[k]
    requires Due(rows, ids[i], now, w)
    ensures var after := SweepAll(rows, now, w, ids, n);
            Has(after, ids[i], Inqueued) && after[ids[i]].queueSeq == SweepSeq(w, i)
  {
    if i == n - 1 {
      assert !Listed(ids, i, ids[i]);
      SweepLeavesOthers(rows, now, w, ids, i, ids[i]);
    } else {
      SweepRenumbers(rows, now, w, ids, n - 1, i);
      assert ids[i] != ids[n - 1];
    }
  }

  lemma {:induction false} SweepKeepsIds(rows: Table, now: Time, w: Sweep, ids: seq<Uuid>, n: nat)
    requires n <= |ids|
    ensures SweepAll(rows, now, w, ids, n).Keys == rows.Keys
  {
    if n > 0 { SweepKeepsIds(rows, now, w, ids, n - 1); }
  }

  lemma SweepEffect(rows: Table, now: Time, w: Sweep, ids: seq<Uuid>)
    requires forall i, j :: 0 <= i < j < |ids| ==> ids[i] != ids[j]
    requires forall i :: 0 <= i < |ids| ==> Due(rows, ids[i], now, w)
    ensures Swept(rows, SweepAll(rows, now, w, ids, |ids|), w, ids, |ids|)
  {
    var after := SweepAll(rows, now, w, ids, |ids|);
    SweepKeepsIds(rows, now, w, ids, |ids|);
    forall i | 0 <= i < |ids| ensures Has(after, ids[i], Inqueued) && after[ids[i]].queueSeq == SweepSeq(w, i) {
      SweepRenumbers(rows, now, w, ids, |ids|, i);
    }
    forall id | id in rows && !Listed(ids, |ids|, id) ensures after[id] == rows[id] {
      SweepLeavesOthers(rows, now, w, ids, |ids|, id);
    }
  }

  /** Reaped tasks queue up behind every task that was waiting, requeued ones in front of all others. */
  lemma SweepOrder(rows: Table, after: Table, w: Sweep, ids: seq<Uuid>, i: nat, id: Uuid)
    requires Swept(rows, after, w, ids, |ids|) && i < |ids|
    requires if w.Reaping? then IsTailSeq(rows, w.tail) else IsHeadSeq(rows, w.head)
    requires Has(rows, id, Inqueued) && !Listed(ids, |ids|, id)
    ensures Has(after, id, Inqueued) && Has(after, ids[i], Inqueued)
    ensures w.Reaping? ==> after[id].queueSeq < after[ids[i]].queueSeq
    ensures w.Requeuing? ==> after[ids[i]].queueSeq < after[id].queueSeq
  {
  }

  /**
   Reaped tasks keep the order of the sweep among themselves, requeued ones get the reverse order; both
   are numbered without gaps, from the tail or the head on.
   */
  lemma SweptAmongThemselves(rows: Table, after: Table, w: Sweep, ids: seq<Uuid>, i: nat, j: nat)
    requires Swept(rows, after, w, ids, |ids|) && i < j < |ids|
    ensures Has(after, ids[i], Inqueued) && Has(after, ids[j], Inqueued)
    ensures w.Reaping? ==> after[ids[0]].queueSeq == w.tail + 1
                           && after[ids[j]].queueSeq == after[ids[i]].queueSeq + (j - i)
    ensures w.Requeuing? ==> after[ids[0]].queueSeq == w.head - 1
                             && after[ids[j]].queueSeq == after[ids[i]].queueSeq - (j - i)
  {
  }

  ghost predicate KeepsOrder(after: Table, ids: seq<Uuid>)
    requires forall i :: 0 <= i < |ids| ==> ids[i] in after
  {
    forall i, j :: 0 <= i < j < |ids| ==> after[ids[i]].queueSeq < after[ids[j]].queueSeq
  }

  /** So a sweep hands its tasks out longest waiting first exactly if it reaps, or requeues at most one. */
  lemma SweepKeepsOrderIff(rows: Table, after: Table, w: Sweep, ids: seq<Uuid>)
    requires Swept(rows, after, w, ids, |ids|)
    ensures KeepsOrder(after, ids) <==> w.Reaping? || |ids| <= 1
  {
    if |ids| > 1 { SweptAmongThemselves(rows, after, w, ids, 0, 1); }
  }

  /** After a requeue sweep the task of the batch that waited shortest is the first of the whole queue. */
  lemma LastRequeuedIsNext(rows: Table, after: Table, w: Sweep, ids: seq<Uuid>, id: Uuid)
    requires w.Requeuing? && ids != [] && Swept(rows, after, w, ids, |ids|) && IsHeadSeq(rows, w.head)
    requires Has(after, id, Inqueued) && id != ids[|ids| - 1]
    ensures Has(after, ids[|ids| - 1], Inqueued) && after[ids[|ids| - 1]].queueSeq < after[id].queueSeq
  {
    if Listed(ids, |ids|, id) {
      var i: nat :| i < |ids| && ids[i] == id;
      SweptAmongThemselves(rows, after, w, ids, i, |ids| - 1);
    } else {
      SweepOrder(rows, after, w, ids, |ids| - 1, id);
    }
  }

  lemma SweepStep(s: State, w: Sweep, id: Uuid, i: nat)
    ensures Step(s, SweepEvent(w, id, i)) == s.(rows := Renumbered(s.rows, s.now, w, id, i))
  {
  }

  /** A sweep is a run of single-row statements, so every theorem about runs covers it. */
  lemma {:induction false} SweepIsRun(s: State, w: Sweep, ids: seq<Uuid>, n: nat)
    requires n <= |ids|
    ensures Exec(s, SweepEvents(w, ids, n)) == s.(rows := SweepAll(s.rows, s.now, w, ids, n))
  {
    if n > 0 {
      var es, e := SweepEvents(w, ids, n - 1), SweepEvent(w, ids[n - 1], n - 1);
      var mid := s.(rows := SweepAll(s.rows, s.now, w, ids, n - 1));
      calc {
        Exec(s, es + [e]);
        { ExecSnoc(s, es, e); }
        Step(Exec(s, es), e);
        { SweepIsRun(s, w, ids, n - 1); }
        Step(mid, e);
        { SweepStep(mid, w, ids[n - 1], n - 1); }
        mid.(rows := Renumbered(mid.rows, s.now, w, ids[n - 1], n - 1));
      }
    }
  }

  function StaleIds(rows: Table, cutoff: Time, locked: set<Uuid>): set<Uuid> {
    set id | id in rows && Stale(rows, id, cutoff) && id !in locked
  }

  function Heartbeats(rows: Table, cutoff: Time, locked: set<Uuid>): map<Uuid, Time> {
    map id | id in StaleIds(rows, cutoff, locked) :: rows[id].heartbeat.value
  }

  function OrphanIds(rows: Table, cutoff: Time, locked: set<Uuid>): set<Uuid> {
    set id | id in rows && Orphaned(rows, id, cutoff) && id !in locked
  }

  function UpdateTimes(rows: Table, cutoff: Time, locked: set<Uuid>): map<Uuid, Time> {
    map id | id in OrphanIds(rows, cutoff, locked) :: rows[id].updatedAt
  }

  /** `picked` is what ORDER BY key LIMIT n selects from `from`. */
  ghost predicate Picks(picked: seq<Uuid>, from: set<Uuid>, key: map<Uuid, int>, limit: nat)
    requires from <= key.Keys
  {
    && |picked| <= limit
    && (forall i :: 0 <= i < |picked| ==> picked[i] in from)
    && (forall i, j :: 0 <= i < j < |picked| ==> picked[i] != picked[j] && key[picked[i]] <= key[picked[j]])
    && (forall id :: id in from && id !in picked ==>
          |picked| == limit && forall i :: 0 <= i < |picked| ==> key[picked[i]] <= key[id])
  }

  /** What ORDER BY heartbeat LIMIT n SKIP LOCKED selects from the stale rows. */
  ghost predicate StalestPicked(rows: Table, cutoff: Time, locked: set<Uuid>, picked: seq<Uuid>, limit: nat) {
    && |picked| <= limit
    && (forall i :: 0 <= i < |picked| ==> Stale(rows, picked[i], cutoff) && picked[i] !in locked)
    && (forall i, j :: 0 <= i < j < |picked| ==>
          picked[i] != picked[j] && rows[picked[i]].heartbeat.value <= rows[picked[j]].heartbeat.value)
    && (forall id :: Stale(rows, id, cutoff) && id !in locked && id !in picked ==>
          |picked| == limit
          && forall i :: 0 <= i < |picked| ==> rows[picked[i]].heartbeat.value <= rows[id].heartbeat.value)
  }

  /** What ORDER BY updated_at LIMIT n SKIP LOCKED selects from the rows left waiting. */
  ghost predicate OldestPicked(rows: Table, cutoff: Time, locked: set<Uuid>, picked: seq<Uuid>, limit: nat) {
    && |picked| <= limit
    && (forall i :: 0 <= i < |picked| ==> Orphaned(rows, picked[i], cutoff) && picked[i] !in locked)
    && (forall i, j :: 0 <= i < j < |picked| ==>
          picked[i] != picked[j] && rows[picked[i]].updatedAt <= rows[picked[j]].updatedAt)
    && (forall id :: Orphaned(rows, id, cutoff) && id !in locked && id !in picked ==>
          |picked| == limit && forall i :: 0 <= i < |picked| ==> rows[picked[i]].updatedAt <= rows[id].updatedAt)
  }

  /** One sweep over the table: which rows it picked, and what it did to them and to all others. */
  ghost predicate IsSweep(
    rows: Table, after: Table, now: Time, w: Sweep, locked: set<Uuid>, picked: seq<Uuid>, limit: nat)
  {
    match w
    case Reaping(staleAfter, tail) =>
      && IsTailSeq(rows, tail) && StalestPicked(rows, now - staleAfter, locked, picked, limit)
      && Swept(rows, after, w, picked, |picked|)
    case Requeuing(olderThan, head) =>
      && IsHeadSeq(rows, head) && OldestPicked(rows, now - olderThan, locked, picked, limit)
      && Swept(rows, after, w, picked, |picked|)
  }

  lemma PicksAreStalest(rows: Table, cutoff: Time, locked: set<Uuid>, picked: seq<Uuid>, limit: nat)
    requires Picks(picked, StaleIds(rows, cutoff, locked), Heartbeats(rows, cutoff, locked), limit)
    ensures StalestPicked(rows, cutoff, locked, picked, limit)
  {
    forall id | Stale(rows, id, cutoff) && id !in locked ensures id in StaleIds(rows, cutoff, locked) {}
  }

  lemma PicksAreOldest(rows: Table, cutoff: Time, locked: set<Uuid>, picked: seq<Uuid>, limit: nat)
    requires Picks(picked, OrphanIds(rows, cutoff, locked), UpdateTimes(rows, cutoff, locked), limit)
    ensures OldestPicked(rows, cutoff, locked, picked, limit)
  {
    forall id | Orphaned(rows, id, cutoff) && id !in locked ensures id in OrphanIds(rows, cutoff, locked) {}
  }

  method Least(ids: set<Uuid>, key: map<Uuid, int>) returns (least: Uuid)
    requires ids != {} && ids <= key.Keys
    ensures least in ids
    ensures forall id :: id in ids ==> key[least] <= key[id]
  {
    least :| least in ids;
    var left := ids - {least};
    while left != {}
      invariant left <= ids && least in ids
      invariant forall id :: id in ids - left ==> key[least] <= key[id]
      decreases left
    {
      var id :| id in left;
      if key[id] < key[least] { least := id; }
      left := left - {id};
    }
  }

  method OldestFirst(from: set<Uuid>, key: map<Uuid, int>, limit: nat) returns (picked: seq<Uuid>)
    requires from <= key.Keys
    ensures Picks(picked, from, key, limit)
  {
    picked := [];
    var left := from;
    while left != {} && |picked| < limit
      invariant left <= from && |picked| <= limit
      invariant forall id :: id in from <==> id in left || id in picked
      invariant forall i :: 0 <= i < |picked| ==> picked[i] !in left
      invariant forall i, j :: 0 <= i < j < |picked| ==> picked[i] != picked[j] && key[picked[i]] <= key[picked[j]]
      invariant forall i, id :: 0 <= i < |picked| && id in left ==> key[picked[i]] <= key[id]
      decreases left
    {
      var id := Least(left, key);
      picked := picked + [id];
      left := left - {id};
    }
  }

  datatype WriteError = NotInExpectedState

  /** The error the interface documents for a terminal write: one when the row is not the worker's. */
  function Promised(rows: Table, worker: Uuid, id: Uuid): Option<WriteError> {
    if Owns(rows, worker, id) then None else Some(NotInExpectedState)
  }

  class PostgresDB {
    var rows: Table
    var now: Time
    ghost var born: set<Uuid>

    ghost function S(): State reads this { State(rows, now, born) }

    ghost predicate Ok() reads this { Valid(S()) }

    method TailSeq() returns (m: int)
      ensures IsTailSeq(rows, m)
    {
      var inqueued := set id | id in rows && rows[id].status.Inqueued?;
      if inqueued == {} {
        assert forall id :: Has(rows, id, Inqueued) ==> id in inqueued;
        return 0;
      }
      var last := Least(inqueued, map id | id in inqueued :: -rows[id].queueSeq);
      assert Has(rows, last, Inqueued);
      m := rows[last].queueSeq;
      assert forall id :: Has(rows, id, Inqueued) ==> id in inqueued;
    }

    method HeadSeq() returns (m: int)
      ensures IsHeadSeq(rows, m)
    {
      var inqueued := set id | id in rows && rows[id].status.Inqueued?;
      if inqueued == {} {
        assert forall id :: Has(rows, id, Inqueued) ==> id in inqueued;
        return 0;
      }
      var first := Least(inqueued, map id | id in inqueued :: rows[id].queueSeq);
      assert Has(rows, first, Inqueued);
      m := rows[first].queueSeq;
      assert forall id :: Has(rows, id, Inqueued) ==> id in inqueued;
    }

    /** A new task joins the queue behind every waiting one. */
    method InsertTask(id: Uuid, request: Request, at: Time)
      requires Ok() && id !in born
      modifies this
      ensures Ok()
      ensures Has(rows, id, Inqueued)
      ensures S() == Step(old(S()), Create(id, request, rows[id].queueSeq, at))
      ensures IsTailSeq(old(rows), rows[id].queueSeq - 1)
      ensures forall other :: other in old(rows) && old(rows)[other].status == Inqueued ==>
                rows[other] == old(rows)[other] && rows[other].queueSeq < rows[id].queueSeq
    {
      var tail := TailSeq();
      rows := rows[id := NewRow(request, tail + 1, at)];
      born := born + {id};
    }

    /** `locked` are the rows another transaction holds, which SKIP LOCKED passes over. */
    method ClaimNextInqueuedTask(worker: Uuid, kinds: set<string>, locked: set<Uuid>)
      returns (claimed: Option<Uuid>)
      requires Ok()
      modifies this`rows
      ensures Ok()
      ensures claimed.None? ==>
                && rows == old(rows) && (forall id :: Claimable(rows, id, kinds) ==> id in locked)
                && forall id :: id in rows && rows[id].status == Inqueued && rows[id].kind in kinds ==> id in locked
      ensures claimed.Some? ==>
                && Claimable(old(rows), claimed.value, kinds) && claimed.value !in locked
                && old(rows)[claimed.value].status == Inqueued && old(rows)[claimed.value].kind in kinds
                && Owns(rows, worker, claimed.value)
                && S() == Step(old(S()), Claim(worker, claimed.value))
      ensures claimed.Some? ==>
                forall id :: Claimable(old(rows), id, kinds) && id !in locked ==>
                  old(rows)[claimed.value].queueSeq <= old(rows)[id].queueSeq
    {
      var candidates := set id | id in rows && Claimable(rows, id, kinds) && id !in locked;
      if candidates == {} {
        assert forall id :: Claimable(rows, id, kinds) && id !in locked ==> id in candidates;
        return None;
      }
      var next := Least(candidates, map id | id in candidates :: rows[id].queueSeq);
      assert forall id :: Claimable(rows, id, kinds) && id !in locked ==> id in candidates;
      rows := rows[next := Updated(rows[next], Claim(worker, next), now)];
      StepKeepsValid(old(S()), Claim(worker, next));
      claimed := Some(next);
    }

    /** Rows affected: 0 tells the worker that the task was taken from it or ended. */
    method HeartbeatTask(worker: Uuid, id: Uuid) returns (affected: nat)
      requires Ok()
      modifies this`rows
      ensures Ok() && S() == Step(old(S()), Beat(worker, id))
      ensures affected == if Owns(old(rows), worker, id) then 1 else 0
    {
      affected := 0;
      if Owns(rows, worker, id) {
        rows := rows[id := Updated(rows[id], Beat(worker, id), now)];
        affected := 1;
      }
      StepKeepsValid(old(S()), Beat(worker, id));
    }

    /**
     A terminal write that matches no row is swallowed, so this never reports an error; what the
     interface promises is Promised, and the two agree exactly when the worker owns the row.
     */
    method MarkSucceeded(worker: Uuid, id: Uuid, output: Bytes) returns (error: Option<WriteError>)
      requires Ok()
      modifies this`rows
      ensures Ok() && S() == Step(old(S()), Succeed(worker, id, output))
      ensures if id in old(rows) && old(rows)[id].status == Processing && old(rows)[id].worker == Some(worker)
              then id in rows && rows[id].status == Succeeded && rows[id].output == output else rows == old(rows)
      ensures error.None? && (error == Promised(old(rows), worker, id) <==> Owns(old(rows), worker, id))
    {
      if Owns(rows, worker, id) {
        rows := rows[id := Updated(rows[id], Succeed(worker, id, output), now)];
      }
      StepKeepsValid(old(S()), Succeed(worker, id, output));
      error := None;
    }

    method MarkFailed(worker: Uuid, id: Uuid, errorMsg: string) returns (error: Option<WriteError>)
      requires Ok()
      modifies this`rows
      ensures Ok() && S() == Step(old(S()), Fail(worker, id, errorMsg))
      ensures if id in old(rows) && old(rows)[id].status == Processing && old(rows)[id].worker == Some(worker)
              then id in rows && rows[id].status == Failed && rows[id].errorMsg == errorMsg else rows == old(rows)
      ensures error.None? && (error == Promised(old(rows), worker, id) <==> Owns(old(rows), worker, id))
    {
      if Owns(rows, worker, id) {
        rows := rows[id := Updated(rows[id], Fail(worker, id, errorMsg), now)];
      }
      StepKeepsValid(old(S()), Fail(worker, id, errorMsg));
      error := None;
    }

    /** A user cancel: any worker's task, waiting or running. */
    method MarkCancelled(id: Uuid)
      requires Ok()
      modifies this`rows
      ensures Ok() && S() == Step(old(S()), Cancel(id))
      ensures if id in old(rows) && (old(rows)[id].status == Inqueued || old(rows)[id].status == Processing)
              then id in rows && rows[id].status == Cancelled else rows == old(rows)
    {
      if id in rows && Active(rows[id].status) {
        rows := rows[id := Updated(rows[id], Cancel(id), now)];
      }
      StepKeepsValid(old(S()), Cancel(id));
    }

    /** A partial output of the running stage; a late one of a worker that lost the task is a no-op. */
    method SetTaskCheckpoint(worker: Uuid, id: Uuid, output: Bytes)
      requires Ok()
      modifies this`rows
      ensures Ok() && S() == Step(old(S()), Checkpoint(worker, id, output))
    {
      if Owns(rows, worker, id) {
        rows := rows[id := Updated(rows[id], Checkpoint(worker, id, output), now)];
      }
      StepKeepsValid(old(S()), Checkpoint(worker, id, output));
    }

    /** Progress carries no ownership guard. */
    method UpdateTaskProgress(id: Uuid, progress: Progress)
      requires Ok()
      modifies this`rows
      ensures Ok() && S() == Step(old(S()), Report(id, progress))
    {
      if id in rows {
        rows := rows[id := Updated(rows[id], Report(id, progress), now)];
      }
      StepKeepsValid(old(S()), Report(id, progress));
    }

    method RenumberAll(ids: seq<Uuid>, w: Sweep)
      requires Ok()
      requires forall i, j :: 0 <= i < j < |ids| ==> ids[i] != ids[j]
      requires forall i :: 0 <= i < |ids| ==> Due(rows, ids[i], now, w)
      modifies this`rows
      ensures Ok() && S() == Exec(old(S()), SweepEvents(w, ids, |ids|))
      ensures Swept(old(rows), rows, w, ids, |ids|)
    {
      for i := 0 to |ids|
        invariant rows == SweepAll(old(rows), now, w, ids, i)
      {
        rows := Renumbered(rows, now, w, ids[i], i);
      }
      SweepEffect(old(rows), now, w, ids);
      SweepIsRun(old(S()), w, ids, |ids|);
      RunKeepsOwnership(old(S()), SweepEvents(w, ids, |ids|));
    }

    /** The stale rows to reap, the longest silent first. */
    method PickStale(batchSize: nat, cutoff: Time, locked: set<Uuid>) returns (picked: seq<Uuid>)
      ensures StalestPicked(rows, cutoff, locked, picked, batchSize)
    {
      picked := OldestFirst(StaleIds(rows, cutoff, locked), Heartbeats(rows, cutoff, locked), batchSize);
      PicksAreStalest(rows, cutoff, locked, picked, batchSize);
    }

    /** The waiting rows to move up, the longest waiting first. */
    method PickOrphaned(batchSize: nat, cutoff: Time, locked: set<Uuid>) returns (picked: seq<Uuid>)
      ensures OldestPicked(rows, cutoff, locked, picked, batchSize)
    {
      picked := OldestFirst(OrphanIds(rows, cutoff, locked), UpdateTimes(rows, cutoff, locked), batchSize);
      PicksAreOldest(rows, cutoff, locked, picked, batchSize);
    }

    /** Stale processing tasks go back to the queue, the longest silent first, behind every task waiting. */
    method ReapStaleProcessingBatch(batchSize: nat, staleAfter: Time, locked: set<Uuid>)
      returns (reaped: seq<Uuid>, ghost tail: int)
      requires Ok()
      modifies this`rows
      ensures Ok() && S() == Exec(old(S()), SweepEvents(Reaping(staleAfter, tail), reaped, |reaped|))
      ensures IsSweep(old(rows), rows, now, Reaping(staleAfter, tail), locked, reaped, batchSize)
    {
      var last := TailSeq();
      tail := last;
      reaped := PickStale(batchSize, now - staleAfter, locked);
      RenumberAll(reaped, Reaping(staleAfter, last));
    }

    /** Inqueued tasks that waited too long move in front of the whole queue. */
    method RequeueOrphanedInqueuedBatch(batchSize: nat, olderThan: Time, locked: set<Uuid>)
      returns (requeued: seq<Uuid>, ghost head: int)
      requires Ok()
      modifies this`rows
      ensures Ok() && S() == Exec(old(S()), SweepEvents(Requeuing(olderThan, head), requeued, |requeued|))
      ensures IsSweep(old(rows), rows, now, Requeuing(olderThan, head), locked, requeued, batchSize)
    {
      var first := HeadSeq();
      head := first;
      requeued := PickOrphaned(batchSize, now - olderThan, locked);
      RenumberAll(requeued, Requeuing(olderThan, first));
    }

    /** One recovery cycle: stale tasks first, then tasks left waiting. */
    method ScannerTick(batchSize: nat, staleAfter: Time, queueStaleAfter: Time, locked: set<Uuid>)
      returns (reaped: seq<Uuid>, requeued: seq<Uuid>, ghost tail: int, ghost head: int, ghost between: Table)
      requires Ok()
      modifies this`rows
      ensures Ok()
      ensures IsSweep(old(rows), between, now, Reaping(staleAfter, tail), locked, reaped, batchSize)
      ensures IsSweep(between, rows, now, Requeuing(queueStaleAfter, head), locked, requeued, batchSize)
      ensures S() == Exec(Exec(old(S()), SweepEvents(Reaping(staleAfter, tail), reaped, |reaped|)),
                          SweepEvents(Requeuing(queueStaleAfter, head), requeued, |requeued|))
    {
      reaped, tail := ReapStaleProcessingBatch(batchSize, staleAfter, locked);
      between := rows;
      requeued, head := RequeueOrphanedInqueuedBatch(batchSize, queueStaleAfter, locked);
    }
  }
}
