/**
 What the columns of a row say about the past: each is the trace of the statements of the run that
 took effect, so a row can be read as a record of what happened to its task.
 */
module TaskRecords {
  import opened Common
  import opened TaskRows
  import opened TaskRuns

  // ---- Single statements, in terms of the columns ----

  predicate RunsUnder(s: State, worker: Uuid, id: Uuid) {
    id in s.rows && s.rows[id].status == Processing && s.rows[id].worker == Some(worker)
  }

  predicate Ended(r: Row, was: Row, status: Status, now: Time) {
    && r.status == status && r.worker == None && r.heartbeat == None && r.finishedAt == Some(now)
    && r.queueSeq == was.queueSeq && r.startedAt == was.startedAt
  }

  /** The terminal writes of a worker: a success leaves its output, a failure its message, and only under ownership. */
  lemma WorkerEndsTask(s: State, worker: Uuid, id: Uuid, output: Bytes, errorMsg: string)
    ensures var t, u := Step(s, Succeed(worker, id, output)), Step(s, Fail(worker, id, errorMsg));
            if RunsUnder(s, worker, id) then
              && id in t.rows && Ended(t.rows[id], s.rows[id], Succeeded, s.now)
              && t.rows[id].output == output && t.rows[id].errorMsg == s.rows[id].errorMsg
              && id in u.rows && Ended(u.rows[id], s.rows[id], Failed, s.now)
              && u.rows[id].errorMsg == errorMsg && u.rows[id].output == s.rows[id].output
            else t == s && u == s
  {
  }

  /** The writes of a worker on the way: heartbeat and partial output under ownership only, progress by anyone. */
  lemma WorkerKeepsTask(s: State, worker: Uuid, id: Uuid, output: Bytes, progress: Progress)
    ensures Step(s, Beat(worker, id))
            == if RunsUnder(s, worker, id)
               then s.(rows := s.rows[id := s.rows[id].(heartbeat := Some(s.now), updatedAt := s.now)]) else s
    ensures Step(s, Checkpoint(worker, id, output))
            == if RunsUnder(s, worker, id)
               then s.(rows := s.rows[id := s.rows[id].(output := output, updatedAt := s.now)]) else s
    ensures Step(s, Report(id, progress))
            == if id in s.rows
               then s.(rows := s.rows[id := s.rows[id].(progress := progress, updatedAt := s.now)]) else s
  {
  }

  /** A cancel ends a waiting or running task, and nothing else. */
  lemma CancelEndsTask(s: State, id: Uuid)
    ensures var t := Step(s, Cancel(id));
            if id in s.rows && (s.rows[id].status == Inqueued || s.rows[id].status == Processing) then
              && id in t.rows && Ended(t.rows[id], s.rows[id], Cancelled, s.now)
              && t.rows[id].output == s.rows[id].output && t.rows[id].errorMsg == s.rows[id].errorMsg
            else t == s
  {
  }

  /** A claim hands out a waiting task, and nothing else. */
  lemma ClaimStartsTask(s: State, worker: Uuid, id: Uuid)
    ensures var t := Step(s, Claim(worker, id));
            if id in s.rows && s.rows[id].status == Inqueued then
              && RunsUnder(t, worker, id) && t.rows[id].heartbeat == Some(s.now)
              && t.rows[id].startedAt == (if s.rows[id].startedAt.None? then Some(s.now) else s.rows[id].startedAt)
              && t.rows[id].queueSeq == s.rows[id].queueSeq
            else t == s
  {
  }

  /** A row vanishes exactly with its lesson, spared ids aside, or with the user who asked for it. */
  lemma VanishesIff(s: State, e: Event, id: Uuid)
    requires id in s.rows
    ensures id !in Step(s, e).rows
            <==> || (e.DeleteLesson? && e.lesson == s.rows[id].lesson && e.except != Some(id))
                 || (e.DeleteUser? && e.user == s.rows[id].createdBy)
  {
  }

  // ---- Whole runs: how a task ended ----

  /** The last statement of the run that ended the task, and when. */
  function Ending(es: seq<Event>, id: Uuid): Option<(Event, Time)> {
    if es == [] then None
    else
      var e, u := es[|es| - 1], Exec(INITIAL, es[..|es| - 1]);
      if (e.Succeed? || e.Fail? || e.Cancel?) && e.id == id && Takes(u, e) then Some((e, u.now))
      else Ending(es[..|es| - 1], id)
  }

  ghost predicate EndedBy(r: Row, ending: Option<(Event, Time)>) {
    && (r.status == Succeeded <==> ending.Some? && ending.value.0.Succeed?)
    && (r.status == Failed <==> ending.Some? && ending.value.0.Fail?)
    && (r.status == Cancelled <==> ending.Some? && ending.value.0.Cancel?)
    && r.finishedAt == (if ending.Some? then Some(ending.value.1) else None)
    && (r.status == Succeeded ==> r.output == ending.value.0.output)
    && (r.status == Failed ==> r.errorMsg == ending.value.0.errorMsg)
    && (r.status != Failed ==> r.errorMsg == "")
  }

  lemma EndedByStep(s: State, e: Event, id: Uuid, ending: Option<(Event, Time)>)
    requires Valid(s) && id in Step(s, e).rows
    requires id in s.rows ==> EndedBy(s.rows[id], ending)
    requires id !in s.rows ==> ending.None?
    ensures EndedBy(Step(s, e).rows[id],
              if (e.Succeed? || e.Fail? || e.Cancel?) && e.id == id && Takes(s, e) then Some((e, s.now)) else ending)
  {
  }

  lemma {:induction false} NeverBornNeverEnds(es: seq<Event>, id: Uuid)
    requires id !in Exec(INITIAL, es).born
    ensures Ending(es, id).None?
  {
    if es != [] {
      RunKeepsOwnership(INITIAL, es[..|es| - 1]);
      StepKeepsValid(Exec(INITIAL, es[..|es| - 1]), es[|es| - 1]);
      NeverBornNeverEnds(es[..|es| - 1], id);
    }
  }

  /**
   A row is Succeeded, Failed or Cancelled exactly by an effective statement of that kind, and then
   holds the output, or the message, and the time of just that statement.
   */
  lemma {:induction false} StatusTellsHowItEnded(es: seq<Event>, id: Uuid)
    ensures id in Exec(INITIAL, es).rows ==> EndedBy(Exec(INITIAL, es).rows[id], Ending(es, id))
  {
    if es != [] {
      var before, e := es[..|es| - 1], es[|es| - 1];
      StatusTellsHowItEnded(before, id);
      RunKeepsOwnership(INITIAL, before);
      if id in Exec(INITIAL, es).rows {
        if id !in Exec(INITIAL, before).rows {
          NewRowWasNeverBorn(Exec(INITIAL, before), e, id);
          NeverBornNeverEnds(before, id);
        }
        EndedByStep(Exec(INITIAL, before), e, id, Ending(before, id));
      }
    }
  }

  lemma NewRowWasNeverBorn(s: State, e: Event, id: Uuid)
    requires id !in s.rows && id in Step(s, e).rows
    ensures e.Create? && e.id == id && id !in s.born && Takes(s, e)
  {
  }

  // ---- Who asked for what ----

  /** The create statement the row goes back to. */
  function Filing(es: seq<Event>, id: Uuid): Option<Event> {
    if es == [] then None
    else
      var e, u := es[|es| - 1], Exec(INITIAL, es[..|es| - 1]);
      if e.Create? && e.id == id && Takes(u, e) then Some(e) else Filing(es[..|es| - 1], id)
  }

  ghost predicate FiledAs(r: Row, filing: Option<Event>) {
    filing.Some? && filing.value.Create? &&
    var q := filing.value.request;
    && r.lesson == q.lesson && r.chunk == q.chunk && r.kind == q.kind && r.createdBy == q.createdBy
    && r.input == q.input && r.createdAt == filing.value.at
  }

  lemma FiledStep(s: State, e: Event, id: Uuid, filing: Option<Event>)
    requires id in Step(s, e).rows && (id in s.rows ==> id in s.born && FiledAs(s.rows[id], filing))
    ensures FiledAs(Step(s, e).rows[id], if e.Create? && e.id == id && Takes(s, e) then Some(e) else filing)
  {
  }

  /** In every run a row's lesson, chunk, kind, user, input and creation time are those it was created with. */
  lemma {:induction false} RowIsAsRequested(es: seq<Event>, id: Uuid)
    ensures id in Exec(INITIAL, es).rows ==> FiledAs(Exec(INITIAL, es).rows[id], Filing(es, id))
  {
    if es != [] {
      RunKeepsOwnership(INITIAL, es[..|es| - 1]);
      RowIsAsRequested(es[..|es| - 1], id);
      if id in Exec(INITIAL, es).rows {
        FiledStep(Exec(INITIAL, es[..|es| - 1]), es[|es| - 1], id, Filing(es[..|es| - 1], id));
      }
    }
  }

  // ---- Queue number, start, and last change ----

  /** The number given by the last effective create, reap or requeue of the task. */
  function LastNumber(es: seq<Event>, id: Uuid): Option<int> {
    if es == [] then None
    else
      var e, u := es[|es| - 1], Exec(INITIAL, es[..|es| - 1]);
      if (e.Create? || e.Reap? || e.Requeue?) && e.id == id && Takes(u, e) then Some(e.seqNo)
      else LastNumber(es[..|es| - 1], id)
  }

  /** The time of the first claim of the task that took effect. */
  function FirstClaim(es: seq<Event>, id: Uuid): Option<Time> {
    if es == [] then None
    else
      var e, u := es[|es| - 1], Exec(INITIAL, es[..|es| - 1]);
      if FirstClaim(es[..|es| - 1], id).Some? then FirstClaim(es[..|es| - 1], id)
      else if e.Claim? && e.id == id && Takes(u, e) then Some(u.now) else None
  }

  /** The task a statement is about, if it is about one. */
  function Subject(e: Event): Option<Uuid> {
    match e
    case Tick(_) => None
    case DeleteLesson(_, _) => None
    case DeleteUser(_) => None
    case _ => Some(e.id)
  }

  /** The time of the last statement about the task that took effect; a creation brings its own. */
  function LastChange(es: seq<Event>, id: Uuid): Option<Time> {
    if es == [] then None
    else
      var e, u := es[|es| - 1], Exec(INITIAL, es[..|es| - 1]);
      if Subject(e) == Some(id) && Takes(u, e) then Some(if e.Create? then e.at else u.now)
      else LastChange(es[..|es| - 1], id)
  }

  lemma PlaceStep(s: State, e: Event, id: Uuid)
    requires Valid(s) && id in Step(s, e).rows
    ensures var r := Step(s, e).rows[id];
            && (if (e.Create? || e.Reap? || e.Requeue?) && e.id == id && Takes(s, e) then r.queueSeq == e.seqNo
                else id in s.rows && r.queueSeq == s.rows[id].queueSeq)
            && (if Subject(e) == Some(id) && Takes(s, e) then r.updatedAt == (if e.Create? then e.at else s.now)
                else id in s.rows && r.updatedAt == s.rows[id].updatedAt)
            && r.startedAt == if id !in s.rows then None
                              else if s.rows[id].startedAt.Some? then s.rows[id].startedAt
                              else if e.Claim? && e.id == id && Takes(s, e) then Some(s.now) else None
  {
  }

  lemma {:induction false} NeverBornNeverClaimed(es: seq<Event>, id: Uuid)
    requires id !in Exec(INITIAL, es).born
    ensures FirstClaim(es, id).None?
  {
    if es != [] {
      RunKeepsOwnership(INITIAL, es[..|es| - 1]);
      StepKeepsValid(Exec(INITIAL, es[..|es| - 1]), es[|es| - 1]);
      NeverBornNeverClaimed(es[..|es| - 1], id);
    }
  }

  /** The place in the queue, the start and the last change of a row are what the run says they are. */
  lemma {:induction false} RowTellsItsHistory(es: seq<Event>, id: Uuid)
    ensures id in Exec(INITIAL, es).rows ==>
              var r := Exec(INITIAL, es).rows[id];
              && LastNumber(es, id) == Some(r.queueSeq) && LastChange(es, id) == Some(r.updatedAt)
              && FirstClaim(es, id) == r.startedAt
  {
    if es != [] {
      var before, e := es[..|es| - 1], es[|es| - 1];
      RowTellsItsHistory(before, id);
      RunKeepsOwnership(INITIAL, before);
      if id in Exec(INITIAL, es).rows {
        PlaceStep(Exec(INITIAL, before), e, id);
        if id !in Exec(INITIAL, before).rows {
          NewRowWasNeverBorn(Exec(INITIAL, before), e, id);
          NeverBornNeverClaimed(before, id);
        }
      }
    }
  }

  /** A sweep requeues a task exactly when it waits and nothing was done to it for longer than the limit. */
  lemma RequeueTakesIffLeftWaiting(es: seq<Event>, id: Uuid, olderThan: Time, seqNo: int)
    ensures var t, change := Exec(INITIAL, es), LastChange(es, id);
            Takes(t, Requeue(id, olderThan, seqNo))
            <==> id in t.rows && t.rows[id].status == Inqueued && change.Some? && t.now - change.value > olderThan
  {
    RowTellsItsHistory(es, id);
  }

  // ---- Partial output and progress ----

  /** The payload of the last checkpoint or success of the task that took effect. */
  function LastOutput(es: seq<Event>, id: Uuid): Bytes {
    if es == [] then []
    else
      var e, u := es[|es| - 1], Exec(INITIAL, es[..|es| - 1]);
      if (e.Checkpoint? || e.Succeed?) && e.id == id && Takes(u, e) then e.output else LastOutput(es[..|es| - 1], id)
  }

  /** The last report about the task; an ending clears its message. */
  function LastReport(es: seq<Event>, id: Uuid): Progress {
    if es == [] then NO_PROGRESS
    else
      var e, u := es[|es| - 1], Exec(INITIAL, es[..|es| - 1]);
      var before := LastReport(es[..|es| - 1], id);
      if e.Report? && e.id == id && Takes(u, e) then e.progress
      else if (e.Succeed? || e.Fail? || e.Cancel?) && e.id == id && Takes(u, e) then before.(message := "")
      else before
  }

  lemma OutputStep(s: State, e: Event, id: Uuid)
    requires id in Step(s, e).rows && s.rows.Keys <= s.born
    ensures var r := Step(s, e).rows[id];
            && r.output == (if (e.Checkpoint? || e.Succeed?) && e.id == id && Takes(s, e) then e.output
                            else if id in s.rows then s.rows[id].output else [])
            && r.progress == if e.Report? && e.id == id && Takes(s, e) then e.progress
                             else if id !in s.rows then NO_PROGRESS
                             else if (e.Succeed? || e.Fail? || e.Cancel?) && e.id == id && Takes(s, e)
                             then s.rows[id].progress.(message := "") else s.rows[id].progress
  {
  }

  lemma {:induction false} NeverBornNothingSaid(es: seq<Event>, id: Uuid)
    requires id !in Exec(INITIAL, es).born
    ensures LastOutput(es, id) == [] && LastReport(es, id) == NO_PROGRESS
  {
    if es != [] {
      RunKeepsOwnership(INITIAL, es[..|es| - 1]);
      StepKeepsValid(Exec(INITIAL, es[..|es| - 1]), es[|es| - 1]);
      NeverBornNothingSaid(es[..|es| - 1], id);
    }
  }

  /** Output and progress of a row are the last ones written, by anyone who was entitled to. */
  lemma {:induction false} RowTellsWhatWasSaid(es: seq<Event>, id: Uuid)
    ensures id in Exec(INITIAL, es).rows ==>
              var r := Exec(INITIAL, es).rows[id]; r.output == LastOutput(es, id) && r.progress == LastReport(es, id)
  {
    if es != [] {
      var before, e := es[..|es| - 1], es[|es| - 1];
      RowTellsWhatWasSaid(before, id);
      RunKeepsOwnership(INITIAL, before);
      if id in Exec(INITIAL, es).rows {
        OutputStep(Exec(INITIAL, before), e, id);
        if id !in Exec(INITIAL, before).rows {
          NewRowWasNeverBorn(Exec(INITIAL, before), e, id);
          NeverBornNothingSaid(before, id);
        }
      }
    }
  }
}
