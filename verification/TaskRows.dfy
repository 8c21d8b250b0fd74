/**
 The `tasks` table: what each SQL statement on it does to the committed rows.  Every statement is
 one atomic step, and a run is a sequence of them.
 */
module TaskRows {
  import opened Common

  datatype Status = Inqueued | Processing | Succeeded | Failed | Cancelled

  predicate Terminal(s: Status) { s.Succeeded? || s.Failed? || s.Cancelled? }

  predicate Active(s: Status) { s.Inqueued? || s.Processing? }

  datatype Progress = Progress(step: string, current: int, total: int, message: string)

  const NO_PROGRESS := Progress("", 0, 0, "")

  datatype Row = Row(
    lesson: Uuid, chunk: Option<Uuid>, kind: string, createdBy: Uuid, input: Bytes,
    status: Status, worker: Option<Uuid>, heartbeat: Option<Time>,
    errorMsg: string, output: Bytes, queueSeq: int,
    createdAt: Time, updatedAt: Time, startedAt: Option<Time>, finishedAt: Option<Time>,
    progress: Progress)

  type Table = map<Uuid, Row>

  /** What a producer supplies for a new row. */
  datatype Request = Request(lesson: Uuid, chunk: Option<Uuid>, kind: string, createdBy: Uuid, input: Bytes)

  /** The committed table, the clock, and every id that ever had a row (ids are never reused). */
  datatype State = State(rows: Table, now: Time, born: set<Uuid>)

  const INITIAL := State(map[], 0, {})

  datatype Event =
    | Tick(elapsed: nat)
    | Create(id: Uuid, request: Request, seqNo: int, at: Time)
    | Claim(worker: Uuid, id: Uuid)
    | Beat(worker: Uuid, id: Uuid)
    | Checkpoint(worker: Uuid, id: Uuid, output: Bytes)
    | Succeed(worker: Uuid, id: Uuid, output: Bytes)
    | Fail(worker: Uuid, id: Uuid, errorMsg: string)
    | Cancel(id: Uuid)
    | Reap(id: Uuid, staleAfter: Time, seqNo: int)
    | Requeue(id: Uuid, olderThan: Time, seqNo: int)
    | Report(id: Uuid, progress: Progress)
    | DeleteLesson(lesson: Uuid, except: Option<Uuid>)
    | DeleteUser(user: Uuid)

  function NewRow(r: Request, seqNo: int, at: Time): Row {
    Row(r.lesson, r.chunk, r.kind, r.createdBy, r.input, Inqueued, None, None, "", [], seqNo,
        at, at, None, None, NO_PROGRESS)
  }

  /** The ownership clause shared by heartbeat, checkpoint and the two terminal writes. */
  predicate Owns(rows: Table, worker: Uuid, id: Uuid) {
    id in rows && rows[id].status == Processing && rows[id].worker == Some(worker)
  }

  predicate Has(rows: Table, id: Uuid, status: Status) {
    id in rows && rows[id].status == status
  }

  predicate Stale(rows: Table, id: Uuid, cutoff: Time) {
    Has(rows, id, Processing) && rows[id].heartbeat.Some? && rows[id].heartbeat.value < cutoff
  }

  predicate Orphaned(rows: Table, id: Uuid, cutoff: Time) {
    Has(rows, id, Inqueued) && rows[id].updatedAt < cutoff
  }

  /** Whether the statement behind the event affects its row. */
  predicate Takes(s: State, e: Event) {
    match e
    case Tick(_) => true
    case Create(id, _, _, _) => id !in s.born
    case Claim(_, id) => Has(s.rows, id, Inqueued)
    case Beat(w, id) => Owns(s.rows, w, id)
    case Checkpoint(w, id, _) => Owns(s.rows, w, id)
    case Succeed(w, id, _) => Owns(s.rows, w, id)
    case Fail(w, id, _) => Owns(s.rows, w, id)
    case Cancel(id) => id in s.rows && Active(s.rows[id].status)
    case Reap(id, staleAfter, _) => Stale(s.rows, id, s.now - staleAfter)
    case Requeue(id, olderThan, _) => Orphaned(s.rows, id, s.now - olderThan)
    case Report(id, _) => id in s.rows
    case DeleteLesson(_, _) => true
    case DeleteUser(_) => true
  }

  function Finished(r: Row, status: Status, now: Time): Row {
    r.(status := status, finishedAt := Some(now), updatedAt := now, heartbeat := None, worker := None,
       progress := r.progress.(message := ""))
  }

  /** The row an event leaves behind, for the events that update one existing row. */
  function Updated(r: Row, e: Event, now: Time): Row {
    match e
    case Claim(w, _) =>
      r.(status := Processing, worker := Some(w), heartbeat := Some(now), updatedAt := now,
         startedAt := if r.startedAt.None? then Some(now) else r.startedAt)
    case Beat(_, _) => r.(heartbeat := Some(now), updatedAt := now)
    case Checkpoint(_, _, output) => r.(output := output, updatedAt := now)
    case Succeed(_, _, output) => Finished(r, Succeeded, now).(output := output)
    case Fail(_, _, errorMsg) => Finished(r, Failed, now).(errorMsg := errorMsg)
    case Cancel(_) => Finished(r, Cancelled, now)
    case Reap(_, _, seqNo) =>
      r.(status := Inqueued, worker := None, heartbeat := None, queueSeq := seqNo, updatedAt := now)
    case Requeue(_, _, seqNo) => r.(queueSeq := seqNo, updatedAt := now)
    case Report(_, progress) => r.(progress := progress, updatedAt := now)
    case _ => r
  }

  /** Rows that a deletion takes; the foreign key of created_by deletes the tasks of a deleted user. */
  predicate Doomed(r: Row, id: Uuid, e: Event) {
    match e
    case DeleteLesson(lesson, except) => r.lesson == lesson && except != Some(id)
    case DeleteUser(user) => r.createdBy == user
    case _ => false
  }

  function Survivors(rows: Table, e: Event): Table {
    map id | id in rows && !Doomed(rows[id], id, e) :: rows[id]
  }

  /** One committed statement; a statement whose WHERE clause matches no row changes nothing. */
  function Step(s: State, e: Event): State {
    if !Takes(s, e) then s
    else match e
      case Tick(elapsed) => s.(now := s.now + elapsed)
      case Create(id, request, seqNo, at) =>
        State(s.rows[id := NewRow(request, seqNo, at)], s.now, s.born + {id})
      case DeleteLesson(_, _) => s.(rows := Survivors(s.rows, e))
      case DeleteUser(_) => s.(rows := Survivors(s.rows, e))
      case _ =>
        s.(rows := s.rows[e.id := Updated(s.rows[e.id], e, s.now)])
  }

  function Exec(s: State, es: seq<Event>): State {
    if es == [] then s else Step(Exec(s, es[..|es| - 1]), es[|es| - 1])
  }

  lemma ExecSnoc(s: State, es: seq<Event>, e: Event)
    ensures Exec(s, es + [e]) == Step(Exec(s, es), e)
  {
  }
}
