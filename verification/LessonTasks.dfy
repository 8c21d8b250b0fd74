/**
 StartLessonTask as the multi-step transaction it is: lock the lesson row, look for an active
 task, insert, commit.  Any number of these transactions interleave with each other and with
 every statement of the queue.
 */
module LessonTasks {
  import opened Common
  import opened TaskRows
  import opened TaskRuns
  import opened TaskTable

  type TxId = nat

  datatype Phase =
    | Begun
    | Locked                                  // holds the lesson row
    | Clear                                   // saw no active task for its request
    | Found(existing: Uuid)                   // saw this active task
    | Inserted(id: Uuid, seqNo: int)          // its row is not committed yet
    | Committed(answer: Uuid)
    | RolledBack

  datatype Tx = Tx(request: Request, at: Time, phase: Phase)

  /** The queue, the row locks on lessons, and every transaction ever begun. */
  datatype Db = Db(queue: State, locks: map<Uuid, TxId>, txs: map<TxId, Tx>)

  datatype Move =
    | Queue(event: Event)
    | Begin(tx: TxId, request: Request)
    | LockLesson(tx: TxId)
    | LookUp(tx: TxId, seen: Option<Uuid>)
    | Insert(tx: TxId, id: Uuid, seqNo: int)
    | Commit(tx: TxId)
    | Abort(tx: TxId)

  predicate Fits(rows: Table, id: Uuid, r: Request) {
    id in rows && Matches(rows[id], r.lesson, r.chunk, r.kind)
  }

  predicate InPhase(d: Db, tx: TxId, phase: Phase) { tx in d.txs && d.txs[tx].phase == phase }

  /** New ids come from a generator that never repeats one, committed or not. */
  predicate FreshId(d: Db, id: Uuid) {
    id !in d.queue.born && forall tx :: tx in d.txs && d.txs[tx].phase.Inserted? ==> d.txs[tx].phase.id != id
  }

  /** GetActiveTask reads committed rows and returns one match, if there is any. */
  predicate Sees(rows: Table, r: Request, seen: Option<Uuid>) {
    match seen
    case Some(id) => Fits(rows, id, r)
    case None => forall id :: id in rows ==> !Fits(rows, id, r)
  }

  predicate Enabled(d: Db, m: Move) {
    match m
    case Queue(e) => !e.Create?
    case Begin(tx, _) => tx !in d.txs
    case LockLesson(tx) => InPhase(d, tx, Begun) && d.txs[tx].request.lesson !in d.locks
    case LookUp(tx, seen) => InPhase(d, tx, Locked) && Sees(d.queue.rows, d.txs[tx].request, seen)
    case Insert(tx, id, _) => InPhase(d, tx, Clear) && FreshId(d, id)
    case Commit(tx) => tx in d.txs && (d.txs[tx].phase.Inserted? || d.txs[tx].phase.Found?)
    case Abort(tx) => tx in d.txs && !d.txs[tx].phase.Committed? && !d.txs[tx].phase.RolledBack?
  }

  predicate HoldsLesson(p: Phase) { p.Locked? || p.Clear? || p.Found? || p.Inserted? }

  function SetPhase(d: Db, tx: TxId, phase: Phase): Db
    requires tx in d.txs
  {
    d.(txs := d.txs[tx := d.txs[tx].(phase := phase)])
  }

  /** The end of a transaction releases the lesson it holds. */
  function End(d: Db, tx: TxId, phase: Phase): Db
    requires tx in d.txs
  {
    var released := if HoldsLesson(d.txs[tx].phase) then d.locks - {d.txs[tx].request.lesson} else d.locks;
    SetPhase(d, tx, phase).(locks := released)
  }

  function Next(d: Db, m: Move): Db
    requires Enabled(d, m)
  {
    match m
    case Queue(e) => d.(queue := Step(d.queue, e))
    case Begin(tx, request) => d.(txs := d.txs[tx := Tx(request, d.queue.now, Begun)])
    case LockLesson(tx) =>
      SetPhase(d, tx, Locked).(locks := d.locks[d.txs[tx].request.lesson := tx])
    case LookUp(tx, seen) => SetPhase(d, tx, if seen.Some? then Found(seen.value) else Clear)
    case Insert(tx, id, seqNo) => SetPhase(d, tx, Inserted(id, seqNo))
    case Commit(tx) =>
      (match d.txs[tx].phase
       case Found(existing) => End(d, tx, Committed(existing))
       case Inserted(id, seqNo) =>
         End(d, tx, Committed(id))
           .(queue := Step(d.queue, Create(id, d.txs[tx].request, seqNo, d.txs[tx].at)))
       case _ => assert false; d)
    case Abort(tx) => End(d, tx, RolledBack)
  }

  // ---- The invariant ----

  /** Two active tasks never have the same lesson, chunk and kind. */
  ghost predicate OneActive(rows: Table) {
    forall a, b :: a in rows && b in rows && a != b && Active(rows[a].status) && Active(rows[b].status) ==>
      rows[a].lesson != rows[b].lesson || rows[a].chunk != rows[b].chunk || rows[a].kind != rows[b].kind
  }

  ghost predicate LockDiscipline(d: Db) {
    && (forall tx :: tx in d.txs && HoldsLesson(d.txs[tx].phase) ==>
          d.txs[tx].request.lesson in d.locks && d.locks[d.txs[tx].request.lesson] == tx)
    && (forall l :: l in d.locks ==>
          d.locks[l] in d.txs && HoldsLesson(d.txs[d.locks[l]].phase) && d.txs[d.locks[l]].request.lesson == l)
  }

  /** What a transaction that looked and found nothing relies on until it commits. */
  ghost predicate StillClear(d: Db) {
    forall tx, id :: tx in d.txs && (d.txs[tx].phase.Clear? || d.txs[tx].phase.Inserted?) && id in d.queue.rows ==>
      !Fits(d.queue.rows, id, d.txs[tx].request)
  }

  ghost predicate PendingIdsFresh(d: Db) {
    && (forall tx :: tx in d.txs && d.txs[tx].phase.Inserted? ==> d.txs[tx].phase.id !in d.queue.born)
    && (forall s, t :: s in d.txs && t in d.txs && s != t && d.txs[s].phase.Inserted? && d.txs[t].phase.Inserted? ==>
          d.txs[s].phase.id != d.txs[t].phase.id)
  }

  ghost predicate Inv(d: Db) {
    Valid(d.queue) && OneActive(d.queue.rows) && LockDiscipline(d) && StillClear(d) && PendingIdsFresh(d)
  }

  /** No statement of the queue, create aside, makes a task active that was not. */
  lemma QueueActivatesNothing(s: State, e: Event)
    requires Valid(s) && !e.Create?
    ensures forall id :: id in Step(s, e).rows && Active(Step(s, e).rows[id].status) ==>
              id in s.rows && Active(s.rows[id].status)
              && Step(s, e).rows[id].lesson == s.rows[id].lesson
              && Step(s, e).rows[id].chunk == s.rows[id].chunk
              && Step(s, e).rows[id].kind == s.rows[id].kind
    ensures Step(s, e).born == s.born
  {
  }

  lemma CommitKeepsOneActive(d: Db, tx: TxId)
    requires Inv(d) && tx in d.txs && d.txs[tx].phase.Inserted?
    ensures var t := Next(d, Commit(tx)); Valid(t.queue) && OneActive(t.queue.rows) && StillClear(t)
  {
    var t := Next(d, Commit(tx));
    var id, r := d.txs[tx].phase.id, d.txs[tx].request;
    StepKeepsValid(d.queue, Create(id, r, d.txs[tx].phase.seqNo, d.txs[tx].at));
    assert forall j :: j in d.queue.rows ==> !Fits(d.queue.rows, j, r);
    forall other, j | other in t.txs && (t.txs[other].phase.Clear? || t.txs[other].phase.Inserted?) && j in t.queue.rows
      ensures !Fits(t.queue.rows, j, t.txs[other].request)
    {
      assert other != tx && t.txs[other] == d.txs[other];
      assert d.txs[other].request.lesson != r.lesson;
      if j != id { assert !Fits(d.queue.rows, j, d.txs[other].request); }
    }
  }

  lemma QueueKeepsInv(d: Db, e: Event)
    requires Inv(d) && !e.Create?
    ensures Inv(Next(d, Queue(e)))
  {
    StepKeepsValid(d.queue, e);
    QueueActivatesNothing(d.queue, e);
  }

  lemma LookUpKeepsInv(d: Db, tx: TxId, seen: Option<Uuid>)
    requires Inv(d) && Enabled(d, LookUp(tx, seen))
    ensures Inv(Next(d, LookUp(tx, seen)))
  {
  }

  lemma EndKeepsLocks(d: Db, tx: TxId, phase: Phase)
    requires LockDiscipline(d) && tx in d.txs && (phase.Committed? || phase.RolledBack?)
    ensures LockDiscipline(End(d, tx, phase))
  {
  }

  lemma AbortKeepsInv(d: Db, tx: TxId)
    requires Inv(d) && Enabled(d, Abort(tx))
    ensures Inv(Next(d, Abort(tx)))
  {
    EndKeepsLocks(d, tx, RolledBack);
  }

  lemma AnswerKeepsInv(d: Db, tx: TxId)
    requires Inv(d) && Enabled(d, Commit(tx)) && d.txs[tx].phase.Found?
    ensures Inv(Next(d, Commit(tx)))
  {
    EndKeepsLocks(d, tx, Committed(d.txs[tx].phase.existing));
  }

  lemma CommitKeepsInv(d: Db, tx: TxId)
    requires Inv(d) && tx in d.txs && d.txs[tx].phase.Inserted?
    ensures Inv(Next(d, Commit(tx)))
  {
    EndKeepsLocks(d, tx, Committed(d.txs[tx].phase.id));
    CommitKeepsOneActive(d, tx);
  }

  lemma BeginKeepsInv(d: Db, tx: TxId, r: Request)
    requires Inv(d) && Enabled(d, Begin(tx, r))
    ensures Inv(Next(d, Begin(tx, r)))
  {
  }

  lemma LockKeepsInv(d: Db, tx: TxId)
    requires Inv(d) && Enabled(d, LockLesson(tx))
    ensures Inv(Next(d, LockLesson(tx)))
  {
  }

  lemma InsertKeepsInv(d: Db, tx: TxId, id: Uuid, seqNo: int)
    requires Inv(d) && Enabled(d, Insert(tx, id, seqNo))
    ensures Inv(Next(d, Insert(tx, id, seqNo)))
  {
  }

  lemma NextKeepsInv(d: Db, m: Move)
    requires Inv(d) && Enabled(d, m)
    ensures Inv(Next(d, m))
  {
    match m
    case Queue(e) => QueueKeepsInv(d, e);
    case Begin(tx, request) => BeginKeepsInv(d, tx, request);
    case LockLesson(tx) => LockKeepsInv(d, tx);
    case LookUp(tx, seen) => LookUpKeepsInv(d, tx, seen);
    case Insert(tx, id, seqNo) => InsertKeepsInv(d, tx, id, seqNo);
    case Commit(tx) => if d.txs[tx].phase.Found? { AnswerKeepsInv(d, tx); } else { CommitKeepsInv(d, tx); }
    case Abort(tx) => AbortKeepsInv(d, tx);
  }

  // ---- Whole runs ----

  const EMPTY := Db(INITIAL, map[], map[])

  ghost predicate IsRun(ds: seq<Db>, ms: seq<Move>) {
    && |ds| == |ms| + 1 && ds[0] == EMPTY
    && forall i :: 0 <= i < |ms| ==> Enabled(ds[i], ms[i]) && ds[i + 1] == Next(ds[i], ms[i])
  }

  lemma {:induction false} RunInv(ds: seq<Db>, ms: seq<Move>, k: nat)
    requires IsRun(ds, ms) && k < |ds|
    ensures Inv(ds[k])
  {
    if k > 0 {
      RunInv(ds, ms, k - 1);
      NextKeepsInv(ds[k - 1], ms[k - 1]);
    }
  }

  /** In every run there is at most one active task per lesson, chunk and kind. */
  lemma AtMostOneActiveTask(ds: seq<Db>, ms: seq<Move>, k: nat, a: Uuid, b: Uuid)
    requires IsRun(ds, ms) && k < |ds|
    requires a in ds[k].queue.rows && b in ds[k].queue.rows && a != b
    requires var ra, rb := ds[k].queue.rows[a], ds[k].queue.rows[b];
             ra.lesson == rb.lesson && ra.chunk == rb.chunk && ra.kind == rb.kind
    ensures !Active(ds[k].queue.rows[a].status) || !Active(ds[k].queue.rows[b].status)
  {
    RunInv(ds, ms, k);
  }

  /** Step k of the run is the look-up of the transaction, and this is what it saw. */
  ghost predicate LookedAt(ms: seq<Move>, k: nat, tx: TxId, seen: Option<Uuid>) {
    k < |ms| && ms[k] == LookUp(tx, seen)
  }

  /** The answer is a task that the transaction made after it saw none. */
  ghost predicate MadeNew(ds: seq<Db>, ms: seq<Move>, k: nat, n: nat, tx: TxId, answer: Uuid)
    requires k < n < |ds|
  {
    LookedAt(ms, k, tx, None) && answer !in ds[k].queue.born && answer in ds[n].queue.born
  }

  /** A transaction relies on, and answers with, what it saw in its one look-up or its own new task. */
  ghost predicate Explained(ds: seq<Db>, ms: seq<Move>, n: nat, tx: TxId)
    requires n < |ds| && tx in ds[n].txs
  {
    match ds[n].txs[tx].phase
    case Found(existing) => exists k: nat :: k < n && LookedAt(ms, k, tx, Some(existing))
    case Clear => exists k: nat :: k < n && LookedAt(ms, k, tx, None)
    case Inserted(_, _) => exists k: nat :: k < n && LookedAt(ms, k, tx, None)
    case Committed(answer) =>
      || (exists k: nat :: k < n && LookedAt(ms, k, tx, Some(answer)))
      || (exists k: nat :: k < n && MadeNew(ds, ms, k, n, tx, answer))
    case _ => true
  }

  lemma {:induction false} BornGrows(ds: seq<Db>, ms: seq<Move>, j: nat, k: nat)
    requires IsRun(ds, ms) && j <= k < |ds|
    ensures ds[j].queue.born <= ds[k].queue.born
  {
    if j < k {
      BornGrows(ds, ms, j, k - 1);
      RunInv(ds, ms, k - 1);
      NextKeepsBorn(ds[k - 1], ms[k - 1]);
    }
  }

  lemma NextKeepsBorn(d: Db, m: Move)
    requires Inv(d) && Enabled(d, m)
    ensures d.queue.born <= Next(d, m).queue.born
  {
  }

  lemma CommitExplained(ds: seq<Db>, ms: seq<Move>, n: nat, tx: TxId)
    requires IsRun(ds, ms) && n < |ms| && ms[n] == Commit(tx) && Explained(ds, ms, n, tx)
    ensures Explained(ds, ms, n + 1, tx)
  {
    RunInv(ds, ms, n);
    if ds[n].txs[tx].phase.Inserted? {
      var k: nat :| k < n && LookedAt(ms, k, tx, None);
      BornGrows(ds, ms, k, n);
      assert MadeNew(ds, ms, k, n + 1, tx, ds[n].txs[tx].phase.id);
    }
  }

  lemma OthersStayExplained(ds: seq<Db>, ms: seq<Move>, n: nat, tx: TxId)
    requires IsRun(ds, ms) && n < |ms| && tx in ds[n].txs && Explained(ds, ms, n, tx)
    requires tx in ds[n + 1].txs && ds[n + 1].txs[tx].phase == ds[n].txs[tx].phase
    ensures Explained(ds, ms, n + 1, tx)
  {
    RunInv(ds, ms, n);
    NextKeepsBorn(ds[n], ms[n]);
    if ds[n].txs[tx].phase.Committed? {
      var answer := ds[n].txs[tx].phase.answer;
      if k: nat :| k < n && MadeNew(ds, ms, k, n, tx, answer) {
        assert MadeNew(ds, ms, k, n + 1, tx, answer);
      }
    }
  }

  lemma {:induction false} RunExplained(ds: seq<Db>, ms: seq<Move>, n: nat, tx: TxId)
    requires IsRun(ds, ms) && n < |ds| && tx in ds[n].txs
    ensures Explained(ds, ms, n, tx)
  {
    if n > 0 {
      var d, m := ds[n - 1], ms[n - 1];
      if tx in d.txs {
        RunExplained(ds, ms, n - 1, tx);
        if ds[n].txs[tx].phase == d.txs[tx].phase {
          OthersStayExplained(ds, ms, n - 1, tx);
        } else if m.LookUp? {
          assert LookedAt(ms, n - 1, tx, m.seen);
        } else if m.Insert? {
          var k: nat :| k < n - 1 && LookedAt(ms, k, tx, None);
          assert k < n && LookedAt(ms, k, tx, None);
        } else if m.Commit? {
          CommitExplained(ds, ms, n - 1, tx);
        }
      }
    }
  }

  /** A waiting or running task of the same lesson, chunk and type as the request. */
  predicate ActiveFor(rows: Table, id: Uuid, r: Request) {
    && id in rows && (rows[id].status == Inqueued || rows[id].status == Processing)
    && rows[id].lesson == r.lesson && rows[id].chunk == r.chunk && rows[id].kind == r.kind
  }

  /**
   A caller is answered with the one task that was active for its request when it looked, or,
   when there was none, with a task that did not exist before.
   */
  lemma AnswerIsTheActiveTask(ds: seq<Db>, ms: seq<Move>, n: nat, tx: TxId) returns (k: nat)
    requires IsRun(ds, ms) && n < |ds| && tx in ds[n].txs && ds[n].txs[tx].phase.Committed?
    ensures k < n && ms[k].LookUp? && ms[k].tx == tx && tx in ds[k].txs
    ensures var rows, r, answer := ds[k].queue.rows, ds[k].txs[tx].request, ds[n].txs[tx].phase.answer;
            || (ActiveFor(rows, answer, r) && forall id :: id != answer ==> !ActiveFor(rows, id, r))
            || ((forall id :: !ActiveFor(rows, id, r))
                && answer !in ds[k].queue.born && answer in ds[n].queue.born)
  {
    var answer := ds[n].txs[tx].phase.answer;
    RunExplained(ds, ms, n, tx);
    if j: nat :| j < n && LookedAt(ms, j, tx, Some(answer)) {
      k := j;
    } else {
      k :| k < n && MadeNew(ds, ms, k, n, tx, answer);
    }
    assert Enabled(ds[k], ms[k]);
    RunInv(ds, ms, k);
  }

  // ---- One call, from the caller's side ----

  datatype StartError = TooManyTasks | PreflightFailed

  function ActiveOf(rows: Table, user: Uuid): set<Uuid> {
    set id | id in rows && rows[id].createdBy == user && Active(rows[id].status)
  }

  /** The waiting and running tasks a user asked for. */
  ghost function TasksOf(rows: Table, user: Uuid): set<Uuid> {
    set id | id in rows && rows[id].createdBy == user
             && (rows[id].status == Inqueued || rows[id].status == Processing)
  }

  /** A created task is the user's one additional active task, and nobody else's. */
  lemma CreatingAddsOne(s: State, id: Uuid, r: Request, seqNo: int, at: Time, user: Uuid)
    requires Valid(s) && id !in s.born
    ensures TasksOf(Step(s, Create(id, r, seqNo, at)).rows, user)
            == TasksOf(s.rows, user) + if user == r.createdBy then {id} else {}
    ensures id !in TasksOf(s.rows, user)
  {
  }

  /** No other statement gives a user an active task. */
  lemma OthersAddNone(s: State, e: Event, user: Uuid)
    requires Valid(s) && !e.Create?
    ensures TasksOf(Step(s, e).rows, user) <= TasksOf(s.rows, user)
  {
  }

  /** What one caller's side of the queue can do: calls, one at a time, and everything else that is no creation. */
  datatype Turn = Call(r: Request, newId: Uuid, seqNo: int, preflightOk: bool) | Other(event: Event)

  /** The state a call leaves: a new task if none fits, the user is below the cap and the artifacts are there. */
  ghost function Called(s: State, t: Turn, maxActive: nat): State
    requires t.Call?
  {
    if (exists id :: Fits(s.rows, id, t.r)) || (maxActive > 0 && |ActiveOf(s.rows, t.r.createdBy)| >= maxActive)
       || !t.preflightOk
    then s else Step(s, Create(t.newId, t.r, t.seqNo, s.now))
  }

  ghost function Taken(s: State, ts: seq<Turn>, maxActive: nat): State {
    if ts == [] then s
    else
      var u, t := Taken(s, ts[..|ts| - 1], maxActive), ts[|ts| - 1];
      if t.Call? then Called(u, t, maxActive) else Step(u, t.event)
  }

  /** Over any sequence of calls and statements, calls one at a time, no user gets above the cap. */
  lemma {:induction false} CapIsKept(ts: seq<Turn>, maxActive: nat, user: Uuid)
    requires maxActive > 0 && forall i :: 0 <= i < |ts| && ts[i].Other? ==> !ts[i].event.Create?
    ensures var t := Taken(INITIAL, ts, maxActive); Valid(t) && |TasksOf(t.rows, user)| <= maxActive
  {
    if ts != [] {
      CapIsKept(ts[..|ts| - 1], maxActive, user);
      TurnKeepsCap(Taken(INITIAL, ts[..|ts| - 1], maxActive), ts[|ts| - 1], maxActive, user);
    } else {
      assert TasksOf(INITIAL.rows, user) == {};
    }
  }

  lemma TurnKeepsCap(u: State, t: Turn, maxActive: nat, user: Uuid)
    requires Valid(u) && maxActive > 0 && |TasksOf(u.rows, user)| <= maxActive && (t.Other? ==> !t.event.Create?)
    ensures var v := if t.Call? then Called(u, t, maxActive) else Step(u, t.event);
            Valid(v) && |TasksOf(v.rows, user)| <= maxActive
  {
    match t
    case Call(r, newId, seqNo, _) =>
      StepKeepsValid(u, Create(newId, r, seqNo, u.now));
      if newId !in u.born { CreatingAddsOne(u, newId, r, seqNo, u.now, user); }
      assert TasksOf(u.rows, r.createdBy) == ActiveOf(u.rows, r.createdBy);
    case Other(e) =>
      StepKeepsValid(u, e);
      OthersAddNone(u, e, user);
      SubsetSize(TasksOf(Step(u, e).rows, user), TasksOf(u.rows, user));
  }

  /** GetActiveTask: any one matching row, in the order the table happens to be scanned. */
  method GetActiveTask(rows: Table, r: Request) returns (found: Option<Uuid>)
    ensures Sees(rows, r, found)
    ensures if found.Some? then ActiveFor(rows, found.value, r) else forall id :: !ActiveFor(rows, id, r)
  {
    var left := rows.Keys;
    while left != {}
      invariant left <= rows.Keys
      invariant forall id :: id in rows && id !in left ==> !Fits(rows, id, r)
      decreases left
    {
      var id :| id in left;
      if Fits(rows, id, r) { return Some(id); }
      left := left - {id};
    }
    return None;
  }

  /** maxActive is MaxActivePerUser, 0 meaning no cap; preflightOk is the outcome of the artifact checks. */
  method StartLessonTask(table: PostgresDB, r: Request, newId: Uuid, maxActive: nat, preflightOk: bool)
    returns (answer: Result<Uuid, StartError>)
    requires table.Ok() && newId !in table.born
    modifies table
    ensures table.Ok() && (OneActive(old(table.rows)) ==> OneActive(table.rows))
    ensures answer.Err? ==>
              && table.S() == old(table.S())
              && (forall id :: id in table.rows ==> !Fits(table.rows, id, r))
              && (answer.error == TooManyTasks <==> maxActive > 0 && |ActiveOf(table.rows, r.createdBy)| >= maxActive)
              && (answer.error == PreflightFailed ==> !preflightOk)
    ensures answer.Ok? && answer.value != newId ==>
              table.S() == old(table.S()) && Fits(table.rows, answer.value, r)
    ensures answer.Ok? ==> ActiveFor(table.rows, answer.value, r)
    ensures exists seqNo ::
              table.S() == Called(old(table.S()), Call(r, newId, seqNo, preflightOk), maxActive)
    ensures answer == Ok(newId) ==>
              TasksOf(table.rows, r.createdBy) == old(TasksOf(table.rows, r.createdBy)) + {newId}
    ensures answer == Ok(newId) ==>
              && (forall id :: id in old(table.rows) ==> !Fits(old(table.rows), id, r))
              && (maxActive > 0 ==> |ActiveOf(old(table.rows), r.createdBy)| < maxActive) && preflightOk
              && Has(table.rows, newId, Inqueued) && Fits(table.rows, newId, r)
              && IsTailSeq(old(table.rows), table.rows[newId].queueSeq - 1)
              && table.S() == Step(old(table.S()), Create(newId, r, table.rows[newId].queueSeq, table.now))
  {
    var existing := GetActiveTask(table.rows, r);
    ghost var s := table.S();
    if existing.Some? {
      assert Fits(s.rows, existing.value, r);
      assert s == Called(s, Call(r, newId, 0, preflightOk), maxActive);
      return Ok(existing.value);
    }
    if maxActive > 0 && |ActiveOf(table.rows, r.createdBy)| >= maxActive {
      assert s == Called(s, Call(r, newId, 0, preflightOk), maxActive);
      return Err(TooManyTasks);
    }
    if !preflightOk {
      assert s == Called(s, Call(r, newId, 0, preflightOk), maxActive);
      return Err(PreflightFailed);
    }
    table.InsertTask(newId, r, table.now);
    assert table.S() == Called(s, Call(r, newId, table.rows[newId].queueSeq, preflightOk), maxActive);
    CreatingAddsOne(s, newId, r, table.rows[newId].queueSeq, s.now, r.createdBy);
    answer := Ok(newId);
  }
}
