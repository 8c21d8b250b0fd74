/**
 What holds over whole runs of the task table: any number of workers, scanners, producers
 and users issue statements in any order, including late writes by workers that lost a task.
 */
module TaskRuns {
  import opened Common
  import opened TaskRows

  // ---- The invariant of every run ----

  ghost predicate RowOk(r: Row, now: Time) {
    && (r.status.Processing? <==> r.worker.Some?)
    && (r.worker.Some? <==> r.heartbeat.Some?)
    && (r.heartbeat.Some? ==> r.heartbeat.value <= now)
    && (Terminal(r.status) <==> r.finishedAt.Some?)
  }

  ghost predicate Valid(s: State) {
    && s.rows.Keys <= s.born
    && forall id :: id in s.rows ==> RowOk(s.rows[id], s.now)
  }

  lemma StepKeepsValid(s: State, e: Event)
    requires Valid(s)
    ensures Valid(Step(s, e)) && s.born <= Step(s, e).born && s.now <= Step(s, e).now
  {
  }

  /** In every run, inqueued rows have no owner and processing rows have one with a heartbeat. */
  lemma {:induction false} RunKeepsOwnership(s: State, es: seq<Event>)
    requires Valid(s)
    ensures Valid(Exec(s, es)) && s.born <= Exec(s, es).born && s.now <= Exec(s, es).now
  {
    if es != [] {
      RunKeepsOwnership(s, es[..|es| - 1]);
      StepKeepsValid(Exec(s, es[..|es| - 1]), es[|es| - 1]);
    }
  }

  // ---- Terminal rows ----

  /** A row without the columns that any caller may still overwrite. */
  function Settled(r: Row): Row { r.(progress := NO_PROGRESS, updatedAt := 0) }

  predicate Done(s: State, id: Uuid) { id in s.rows && Terminal(s.rows[id].status) }

  lemma StepKeepsTerminal(s: State, e: Event, id: Uuid)
    requires Valid(s) && id in s.born && (id in s.rows ==> Terminal(s.rows[id].status))
    ensures var t := Step(s, e);
            id in t.born && (id in t.rows ==> id in s.rows && Settled(t.rows[id]) == Settled(s.rows[id]))
  {
  }

  /** After a terminal transition nothing changes a row but its progress; a deleted id stays deleted. */
  lemma {:induction false} TerminalIsFrozen(s: State, es: seq<Event>, id: Uuid)
    requires Valid(s) && id in s.born && (id in s.rows ==> Terminal(s.rows[id].status))
    ensures var t := Exec(s, es);
            id in t.born && (id in t.rows ==> id in s.rows && Settled(t.rows[id]) == Settled(s.rows[id]))
  {
    if es != [] {
      var u := Exec(s, es[..|es| - 1]);
      RunKeepsOwnership(s, es[..|es| - 1]);
      TerminalIsFrozen(s, es[..|es| - 1], id);
      assert id in u.rows ==> Settled(u.rows[id]).status == Settled(s.rows[id]).status;
      StepKeepsTerminal(u, es[|es| - 1], id);
    }
  }

  predicate Finishes(s: State, e: Event, id: Uuid) {
    id in s.rows && !Terminal(s.rows[id].status) && Done(Step(s, e), id)
  }

  function TerminalMoves(s: State, es: seq<Event>, id: Uuid): nat {
    if es == [] then 0
    else
      var before := es[..|es| - 1];
      TerminalMoves(s, before, id) + if Finishes(Exec(s, before), es[|es| - 1], id) then 1 else 0
  }

  /** A row appears once, not terminal, and stays terminal from its terminal transition on. */
  lemma RowHistory(s: State, e: Event, id: Uuid)
    requires Valid(s)
    ensures var t := Step(s, e);
            && (id in s.rows || id in s.born ==> id in t.born)
            && (id in t.rows && id !in s.rows ==> id !in s.born && !Terminal(t.rows[id].status))
            && (id in t.rows && id in s.rows && Terminal(s.rows[id].status) ==> Terminal(t.rows[id].status))
  {
  }

  /** Every task makes at most one terminal transition, and a surviving row shows which. */
  lemma {:induction false} AtMostOneTerminalMove(es: seq<Event>, id: Uuid)
    ensures var t := Exec(INITIAL, es); var moves := TerminalMoves(INITIAL, es, id);
            && moves <= 1
            && (id !in t.born ==> moves == 0)
            && (id in t.rows ==> (moves == 1 <==> Terminal(t.rows[id].status)))
  {
    if es != [] {
      RunKeepsOwnership(INITIAL, es[..|es| - 1]);
      AtMostOneTerminalMove(es[..|es| - 1], id);
      RowHistory(Exec(INITIAL, es[..|es| - 1]), es[|es| - 1], id);
    }
  }

  // ---- Claims and reaps ----

  function Claims(s: State, es: seq<Event>, id: Uuid): nat {
    if es == [] then 0
    else
      var e := es[|es| - 1];
      var u := Exec(s, es[..|es| - 1]);
      Claims(s, es[..|es| - 1], id) + if e.Claim? && e.id == id && Takes(u, e) then 1 else 0
  }

  function Reaps(s: State, es: seq<Event>, id: Uuid): nat {
    if es == [] then 0
    else
      var e := es[|es| - 1];
      var u := Exec(s, es[..|es| - 1]);
      Reaps(s, es[..|es| - 1], id) + if e.Reap? && e.id == id && Takes(u, e) then 1 else 0
  }

  /** Whether some step of the run took the task from processing to a terminal status. */
  predicate LeftProcessing(s: State, es: seq<Event>, id: Uuid) {
    es != [] &&
    var u := Exec(s, es[..|es| - 1]);
    || LeftProcessing(s, es[..|es| - 1], id)
    || (Has(u.rows, id, Processing) && Done(Step(u, es[|es| - 1]), id))
  }

  function StatusOf(s: State, id: Uuid): Option<Status> { if id in s.rows then Some(s.rows[id].status) else None }

  /** What one step does to the status of one task. */
  lemma StatusStep(u: State, e: Event, id: Uuid)
    requires Valid(u)
    ensures var was, got := StatusOf(u, id), StatusOf(Step(u, e), id);
            && (e.Claim? && e.id == id && Takes(u, e) ==> was == Some(Inqueued) && got == Some(Processing))
            && (e.Reap? && e.id == id && Takes(u, e) ==> was == Some(Processing) && got == Some(Inqueued))
            && (was != got ==>
                  || (e.Claim? && e.id == id && Takes(u, e)) || (e.Reap? && e.id == id && Takes(u, e))
                  || (was == None && got == Some(Inqueued) && id !in u.born)
                  || (was == Some(Processing) && got.Some? && Terminal(got.value))
                  || (was == Some(Inqueued) && got == Some(Cancelled))
                  || got == None)
            && (id in Step(u, e).born <==> id in u.born || got.Some?)
  {
  }

  /**
   Claims minus reaps is 0 or 1 for every id of every run; while the row exists it is 1 exactly
   when the task is processing or left processing for a terminal status.
   */
  lemma {:induction false} ClaimsMinusReaps(es: seq<Event>, id: Uuid)
    ensures var t := Exec(INITIAL, es); var held := Claims(INITIAL, es, id) - Reaps(INITIAL, es, id);
            && 0 <= held <= 1
            && (id !in t.born ==> held == 0 && !LeftProcessing(INITIAL, es, id))
            && (id in t.rows ==>
                  && (held == 1 <==> t.rows[id].status.Processing? || LeftProcessing(INITIAL, es, id))
                  && (LeftProcessing(INITIAL, es, id) ==> Terminal(t.rows[id].status))
                  && (t.rows[id].status.Succeeded? || t.rows[id].status.Failed? ==> held == 1))
  {
    RunKeepsOwnership(INITIAL, es);
    if es != [] {
      RunKeepsOwnership(INITIAL, es[..|es| - 1]);
      ClaimsMinusReaps(es[..|es| - 1], id);
      StatusStep(Exec(INITIAL, es[..|es| - 1]), es[|es| - 1], id);
    }
  }

  // ---- Workers that lost a task ----

  predicate ByWorker(e: Event, worker: Uuid, id: Uuid) {
    match e
    case Beat(w, i) => w == worker && i == id
    case Checkpoint(w, i, _) => w == worker && i == id
    case Succeed(w, i, _) => w == worker && i == id
    case Fail(w, i, _) => w == worker && i == id
    case _ => false
  }

  /**
   A worker that does not own a task, say because it was reaped, changes nothing on it by
   heartbeats, checkpoints and terminal writes until it claims the task again.
   */
  lemma {:induction false} LostWorkerIsPowerless(s: State, es: seq<Event>, worker: Uuid, id: Uuid)
    requires id in s.rows ==> s.rows[id].worker != Some(worker)
    requires Claim(worker, id) !in es
    ensures var t := Exec(s, es); id in t.rows ==> t.rows[id].worker != Some(worker)
    ensures forall i :: 0 <= i < |es| && ByWorker(es[i], worker, id) ==>
              Step(Exec(s, es[..i]), es[i]) == Exec(s, es[..i])
  {
    if es != [] {
      var before := es[..|es| - 1];
      LostWorkerIsPowerless(s, before, worker, id);
      forall i | 0 <= i < |es| && ByWorker(es[i], worker, id)
        ensures Step(Exec(s, es[..i]), es[i]) == Exec(s, es[..i])
      {
        if i < |before| {
          assert before[..i] == es[..i] && before[i] == es[i];
        }
      }
    }
  }

  /** The effective steps by which a task leaves a worker that owns it. */
  predicate LosesTask(s: State, e: Event, worker: Uuid, id: Uuid) {
    id in s.rows && Takes(s, e) &&
    match e
    case Succeed(w, i, _) => i == id && w == worker
    case Fail(w, i, _) => i == id && w == worker
    case Cancel(i) => i == id
    case Reap(i, _, _) => i == id
    case _ => Doomed(s.rows[id], id, e)
  }

  predicate GainsTask(s: State, e: Event, worker: Uuid, id: Uuid) { e == Claim(worker, id) && Takes(s, e) }

  lemma StepOwnsIff(s: State, e: Event, worker: Uuid, id: Uuid)
    requires Valid(s)
    ensures Owns(Step(s, e).rows, worker, id)
            <==> GainsTask(s, e, worker, id) || (Owns(s.rows, worker, id) && !LosesTask(s, e, worker, id))
  {
  }

  /** Step i of the run gave the task to the worker, and no later step took it away. */
  ghost predicate ClaimedSince(s: State, es: seq<Event>, worker: Uuid, id: Uuid, i: nat) {
    && i < |es| && GainsTask(Exec(s, es[..i]), es[i], worker, id)
    && KeptSince(s, es, worker, id, i + 1)
  }

  ghost predicate KeptSince(s: State, es: seq<Event>, worker: Uuid, id: Uuid, from: nat) {
    forall k :: from <= k < |es| ==> !LosesTask(Exec(s, es[..k]), es[k], worker, id)
  }

  lemma KeptOneMore(s: State, es: seq<Event>, worker: Uuid, id: Uuid, from: nat)
    requires es != [] && from < |es|
    ensures KeptSince(s, es, worker, id, from)
            <==> KeptSince(s, es[..|es| - 1], worker, id, from)
                 && !LosesTask(Exec(s, es[..|es| - 1]), es[|es| - 1], worker, id)
  {
    var before := es[..|es| - 1];
    forall k | 0 <= k < |before| ensures before[..k] == es[..k] && before[k] == es[k] {}
  }

  lemma EarlierClaimSince(s: State, es: seq<Event>, worker: Uuid, id: Uuid, i: nat)
    requires i < |es| - 1
    ensures ClaimedSince(s, es, worker, id, i)
            <==> ClaimedSince(s, es[..|es| - 1], worker, id, i)
                 && !LosesTask(Exec(s, es[..|es| - 1]), es[|es| - 1], worker, id)
  {
    KeptOneMore(s, es, worker, id, i + 1);
    assert es[..|es| - 1][..i] == es[..i] && es[..|es| - 1][i] == es[i];
  }

  ghost predicate Reclaimed(s: State, es: seq<Event>, worker: Uuid, id: Uuid) {
    exists i: nat :: ClaimedSince(s, es, worker, id, i)
  }

  lemma ReclaimedOneMore(s: State, es: seq<Event>, worker: Uuid, id: Uuid)
    requires es != []
    ensures var before, e := es[..|es| - 1], es[|es| - 1];
            Reclaimed(s, es, worker, id)
            <==> GainsTask(Exec(s, before), e, worker, id)
                 || (Reclaimed(s, before, worker, id) && !LosesTask(Exec(s, before), e, worker, id))
  {
    var n := |es| - 1;
    if i: nat :| ClaimedSince(s, es, worker, id, i) && i < n { EarlierClaimSince(s, es, worker, id, i); }
    if i: nat :| ClaimedSince(s, es[..n], worker, id, i) { EarlierClaimSince(s, es, worker, id, i); }
    if GainsTask(Exec(s, es[..n]), es[n], worker, id) { assert ClaimedSince(s, es, worker, id, n); }
  }

  /**
   Over any run that begins without ownership, as after a reap, the worker owns the task exactly
   when it claimed it again and it was not reaped, cancelled, finished or deleted since.
   */
  lemma {:induction false} OwnsIffReclaimed(s: State, es: seq<Event>, worker: Uuid, id: Uuid)
    requires Valid(s) && !Owns(s.rows, worker, id)
    ensures Owns(Exec(s, es).rows, worker, id) <==> Reclaimed(s, es, worker, id)
  {
    if es != [] {
      var before := es[..|es| - 1];
      OwnsIffReclaimed(s, before, worker, id);
      RunKeepsOwnership(s, before);
      StepOwnsIff(Exec(s, before), es[|es| - 1], worker, id);
      ReclaimedOneMore(s, es, worker, id);
    }
  }

  /** A late guarded write of a worker takes effect exactly when the worker claimed the task again. */
  lemma LateWriteTakesIffReclaimed(s: State, es: seq<Event>, worker: Uuid, id: Uuid, e: Event)
    requires Valid(s) && !Owns(s.rows, worker, id) && ByWorker(e, worker, id)
    ensures Takes(Exec(s, es), e) <==> Reclaimed(s, es, worker, id)
  {
    OwnsIffReclaimed(s, es, worker, id);
  }

  lemma ExecThree(s: State, a: Event, b: Event, c: Event)
    ensures Exec(s, [a, b, c]) == Step(Step(Step(s, a), b), c)
  {
    ExecSnoc(s, [], a);
    ExecSnoc(s, [a], b);
    ExecSnoc(s, [a, b], c);
    assert [] + [a] == [a] && [a] + [b] == [a, b] && [a, b] + [c] == [a, b, c];
  }

  /**
   Ownership is per worker, not per claim.  A worker that is reaped and claims the task again gets
   its old write permission back, so the goroutine left over from the first claim can finish the
   task under the second one.
   */
  lemma ReclaimRevivesStaleGoroutine(s: State, worker: Uuid, id: Uuid, staleAfter: nat, seqNo: int, output: Bytes)
    requires Valid(s) && Owns(s.rows, worker, id)
    ensures
      var reaped := Step(Step(s, Tick(staleAfter + 1)), Reap(id, staleAfter, seqNo));
      var reclaimed := Exec(s, [Tick(staleAfter + 1), Reap(id, staleAfter, seqNo), Claim(worker, id)]);
      && !Takes(reaped, Succeed(worker, id, output))
      && Takes(reclaimed, Succeed(worker, id, output))
      && Done(Step(reclaimed, Succeed(worker, id, output)), id)
  {
    ExecThree(s, Tick(staleAfter + 1), Reap(id, staleAfter, seqNo), Claim(worker, id));
  }

  // ---- Heartbeats ----

  /** The time of the last claim or heartbeat of the task that took effect. */
  function LastSign(s: State, es: seq<Event>, id: Uuid): Option<Time> {
    if es == [] then None
    else
      var e := es[|es| - 1];
      var u := Exec(s, es[..|es| - 1]);
      if (e.Claim? || e.Beat?) && e.id == id && Takes(u, e) then Some(u.now)
      else LastSign(s, es[..|es| - 1], id)
  }

  lemma {:induction false} HeartbeatIsLastSign(es: seq<Event>, id: Uuid)
    ensures var t := Exec(INITIAL, es);
            Has(t.rows, id, Processing) ==> t.rows[id].heartbeat == LastSign(INITIAL, es, id)
  {
    if es != [] {
      RunKeepsOwnership(INITIAL, es[..|es| - 1]);
      HeartbeatIsLastSign(es[..|es| - 1], id);
    }
  }

  /** A sweep takes a task back exactly when it is processing and its owner was silent for longer than the limit. */
  lemma ReapTakesIffSilent(es: seq<Event>, id: Uuid, staleAfter: Time, seqNo: int)
    ensures var t := Exec(INITIAL, es); var sign := LastSign(INITIAL, es, id);
            Takes(t, Reap(id, staleAfter, seqNo)) <==>
            Has(t.rows, id, Processing) && sign.Some? && t.now - sign.value > staleAfter
  {
    HeartbeatIsLastSign(es, id);
    RunKeepsOwnership(INITIAL, es);
  }

  /** The events by which a task legitimately leaves its owner. */
  predicate EndsTask(e: Event, id: Uuid, worker: Uuid, r: Row) {
    match e
    case Succeed(w, i, _) => i == id && w == worker
    case Fail(w, i, _) => i == id && w == worker
    case Cancel(i) => i == id
    case _ => Doomed(r, id, e)
  }

  /** What no step changes about a task: whose lesson it is about and who asked for it. */
  predicate SameRequest(a: Row, b: Row) { a.lesson == b.lesson && a.createdBy == b.createdBy }

  /** One step: an owner that was not silent for longer than the limit keeps the task. */
  lemma BeatingOwnerKeepsTask(s: State, e: Event, worker: Uuid, id: Uuid, limit: Time)
    requires Valid(s) && Owns(s.rows, worker, id) && s.now - s.rows[id].heartbeat.value <= limit
    requires !EndsTask(e, id, worker, s.rows[id]) && (e.Reap? && e.id == id ==> e.staleAfter >= limit)
    ensures var t := Step(s, e);
            && Owns(t.rows, worker, id) && SameRequest(t.rows[id], s.rows[id])
            && t.rows[id].heartbeat == if e == Beat(worker, id) then Some(s.now) else s.rows[id].heartbeat
  {
  }

  /** The time at which the owner last claimed or beat during es, or `since` when it did not. */
  function OwnerSign(s: State, es: seq<Event>, worker: Uuid, id: Uuid, since: Time): Time {
    if es == [] then since
    else if es[|es| - 1] == Beat(worker, id) then Exec(s, es[..|es| - 1]).now
    else OwnerSign(s, es[..|es| - 1], worker, id, since)
  }

  /** At no point of the run has the owner been silent for longer than `limit`. */
  ghost predicate KeepsBeating(s: State, es: seq<Event>, worker: Uuid, id: Uuid, since: Time, limit: Time) {
    forall i :: 0 <= i <= |es| ==> Exec(s, es[..i]).now - OwnerSign(s, es[..i], worker, id, since) <= limit
  }

  /**
   An owner that beats often enough is never reaped: whatever the other workers and scanners
   do, the task stays its own until it finishes it or a user cancels or deletes it.
   */
  lemma {:induction false} BeatingOwnerIsNeverReaped(
    s: State, es: seq<Event>, worker: Uuid, id: Uuid, since: Time, limit: Time)
    requires Valid(s) && Owns(s.rows, worker, id) && s.rows[id].heartbeat == Some(since)
    requires KeepsBeating(s, es, worker, id, since, limit)
    requires forall e :: e in es ==> !EndsTask(e, id, worker, s.rows[id])
    requires forall e :: e in es && e.Reap? && e.id == id ==> e.staleAfter >= limit
    ensures var t := Exec(s, es);
            && Owns(t.rows, worker, id)
            && SameRequest(t.rows[id], s.rows[id])
            && t.rows[id].heartbeat == Some(OwnerSign(s, es, worker, id, since))
  {
    if es != [] {
      var before, e := es[..|es| - 1], es[|es| - 1];
      forall i | 0 <= i <= |before|
        ensures Exec(s, before[..i]).now - OwnerSign(s, before[..i], worker, id, since) <= limit
      {
        assert before[..i] == es[..i];
      }
      BeatingOwnerIsNeverReaped(s, before, worker, id, since, limit);
      RunKeepsOwnership(s, before);
      assert e in es;
      assert es[..|before|] == before;
      assert Exec(s, before).now - OwnerSign(s, before, worker, id, since) <= limit;
      BeatingOwnerKeepsTask(Exec(s, before), e, worker, id, limit);
    }
  }
}
