/**
 One worker process in small steps, interleaved with each other and with every statement others
 issue: task loops claim and store, the heartbeat loop visits, beats, cancels and drops, task
 goroutines write their outcome and delete their registry entry.
 */
module WorkerRuns {
  import opened Common
  import opened TaskRows
  import opened TaskRuns

  /** How an executor returned. */
  datatype Outcome = Interrupted | Failure(message: string) | Output(payload: Bytes)

  /** A task goroutine and its cancel function; claim numbers the worker's claims of the task. */
  datatype Handle = Handle(task: Uuid, claim: nat, serial: nat)

  datatype Pending = Pending(task: Uuid, claim: nat)

  /** A goroutine runs its executor, then has written its outcome and only deletes its entry. */
  datatype Life = Running | Leaving

  /** Where the heartbeat loop is in its walk over the registry. */
  datatype Beat = Resting | Visiting(h: Handle) | Lost(h: Handle) | Dropping(h: Handle)

  datatype Proc = Proc(
    queue: State, active: map<Uuid, Handle>, gos: map<Handle, Life>, cancelled: set<Handle>,
    pending: map<nat, Pending>, beat: Beat, claims: map<Uuid, nat>, spawned: nat, stopping: bool)

  datatype Move =
    | Queue(event: Event)                     // by anyone else
    | ClaimTask(loop: nat, id: Uuid)
    | Store(loop: nat)                        // registers the handle and starts the goroutine
    | Visit(id: Uuid)
    | BeatVisited
    | CancelLost
    | DropLost
    | Return(h: Handle, outcome: Outcome)     // with the guarded terminal write
    | Leave(h: Handle)                        // the deferred delete
    | Shutdown

  predicate ByOthers(e: Event, w: Uuid) {
    match e
    case Claim(v, _) => v != w
    case Beat(v, _) => v != w
    case Succeed(v, _, _) => v != w
    case Fail(v, _, _) => v != w
    case _ => true
  }

  predicate Enabled(w: Uuid, p: Proc, m: Move) {
    match m
    case Queue(e) => ByOthers(e, w)
    case ClaimTask(loop, id) => loop !in p.pending && Takes(p.queue, Claim(w, id))
    case Store(loop) => loop in p.pending
    case Visit(id) => p.beat.Resting? && id in p.active
    case BeatVisited => p.beat.Visiting?
    case CancelLost => p.beat.Lost?
    case DropLost => p.beat.Dropping?
    case Return(h, _) => h in p.gos && p.gos[h].Running?
    case Leave(h) => h in p.gos && p.gos[h].Leaving?
    case Shutdown => true
  }

  /** An executor reports an interruption only when its context was cancelled, as the code takes for granted. */
  predicate Prompted(p: Proc, m: Move) {
    m.Return? && m.outcome.Interrupted? ==> m.h in p.cancelled || p.stopping
  }

  predicate May(w: Uuid, p: Proc, m: Move) { Enabled(w, p, m) && Prompted(p, m) }

  /** The statement a move issues, if any. */
  function Issued(w: Uuid, p: Proc, m: Move): Option<Event>
    requires Enabled(w, p, m)
  {
    match m
    case Queue(e) => Some(e)
    case ClaimTask(_, id) => Some(Claim(w, id))
    case BeatVisited => Some(Event.Beat(w, p.beat.h.task))
    case Return(h, Failure(message)) => Some(Fail(w, h.task, message))
    case Return(h, Output(payload)) => Some(Succeed(w, h.task, payload))
    case _ => None
  }

  function Queued(w: Uuid, p: Proc, m: Move): State
    requires Enabled(w, p, m)
  {
    if Issued(w, p, m).None? then p.queue else Step(p.queue, Issued(w, p, m).value)
  }

  function ClaimNo(p: Proc, id: Uuid): nat { if id in p.claims then p.claims[id] else 0 }

  function Next(w: Uuid, p: Proc, m: Move): Proc
    requires Enabled(w, p, m)
  {
    var q := p.(queue := Queued(w, p, m));
    match m
    case Queue(_) => q
    case ClaimTask(loop, id) =>
      var no := ClaimNo(p, id) + 1;
      q.(claims := p.claims[id := no], pending := p.pending[loop := Pending(id, no)])
    case Store(loop) =>
      var h := Handle(p.pending[loop].task, p.pending[loop].claim, p.spawned);
      q.(active := p.active[h.task := h], gos := p.gos[h := Running], pending := p.pending - {loop},
         spawned := p.spawned + 1)
    case Visit(id) => q.(beat := Visiting(p.active[id]))
    case BeatVisited => q.(beat := if Owns(p.queue.rows, w, p.beat.h.task) then Resting else Lost(p.beat.h))
    case CancelLost => q.(cancelled := p.cancelled + {p.beat.h}, beat := Dropping(p.beat.h))
    case DropLost => q.(active := p.active - {p.beat.h.task}, beat := Resting)
    case Return(h, _) => q.(gos := p.gos[h := Leaving])
    case Leave(h) => q.(active := p.active - {h.task}, gos := p.gos - {h})
    case Shutdown => q.(stopping := true)
  }

  const IDLE := Proc(INITIAL, map[], map[], {}, map[], Resting, map[], 0, false)

  // ---- What every step keeps ----

  /** Handles that exist anywhere in the process. */
  predicate Known(p: Proc, h: Handle) {
    || h in p.gos || h in p.cancelled || (h.task in p.active && p.active[h.task] == h)
    || (!p.beat.Resting? && p.beat.h == h)
  }

  ghost predicate Numbered(p: Proc) {
    match p
    case Proc(_, active, _, _, pending, _, _, spawned, _) =>
      && (forall id :: id in active ==> active[id].task == id)
      && (forall h :: Known(p, h) ==> h.claim <= ClaimNo(p, h.task) && h.serial < spawned)
      && (forall l :: l in pending ==> pending[l].claim <= ClaimNo(p, pending[l].task))
  }

  /** Told to stop, done, or about to be dropped: nothing that the current claim of an owned task would be. */
  predicate Spent(p: Proc, h: Handle) {
    h in p.cancelled || (h in p.gos && p.gos[h].Leaving?) || p.beat == Lost(h) || p.beat == Dropping(h)
  }

  ghost predicate SpentIsStale(w: Uuid, p: Proc) {
    !p.stopping ==> forall h :: Spent(p, h) && Owns(p.queue.rows, w, h.task) ==> h.claim < ClaimNo(p, h.task)
  }

  ghost predicate Inv(w: Uuid, p: Proc) { Valid(p.queue) && Numbered(p) && SpentIsStale(w, p) }

  lemma QueueStaysValid(w: Uuid, p: Proc, m: Move)
    requires Valid(p.queue) && Enabled(w, p, m)
    ensures Valid(Next(w, p, m).queue) && Next(w, p, m).queue == Queued(w, p, m)
  {
    if Issued(w, p, m).Some? { StepKeepsValid(p.queue, Issued(w, p, m).value); }
  }

  /** Only the worker's own claim makes it an owner, and its terminal write ends its ownership. */
  lemma OwnershipStep(w: Uuid, p: Proc, m: Move, id: Uuid)
    requires Valid(p.queue) && Enabled(w, p, m)
    ensures Owns(Next(w, p, m).queue.rows, w, id) ==>
              Owns(p.queue.rows, w, id) || (m.ClaimTask? && m.id == id)
    ensures m.ClaimTask? && m.id == id ==> !Owns(p.queue.rows, w, id) && Owns(Next(w, p, m).queue.rows, w, id)
    ensures m.Return? && !m.outcome.Interrupted? && m.h.task == id ==> !Owns(Next(w, p, m).queue.rows, w, id)
  {
    QueueStaysValid(w, p, m);
    if Issued(w, p, m).Some? { StepOwnsIff(p.queue, Issued(w, p, m).value, w, id); }
  }

  /** Only a store brings a new handle. */
  lemma KnownBefore(w: Uuid, p: Proc, m: Move, h: Handle)
    requires Enabled(w, p, m) && Known(Next(w, p, m), h)
    ensures Known(p, h)
            || (m.Store? && h == Handle(p.pending[m.loop].task, p.pending[m.loop].claim, p.spawned))
            || (m.Visit? && h == p.active[m.id])
  {
  }

  lemma CountersGrow(w: Uuid, p: Proc, m: Move, id: Uuid)
    requires Enabled(w, p, m)
    ensures ClaimNo(p, id) <= ClaimNo(Next(w, p, m), id) && p.spawned <= Next(w, p, m).spawned
    ensures m.Store? ==> p.spawned < Next(w, p, m).spawned
  {
  }

  lemma NextKeepsPending(w: Uuid, p: Proc, m: Move, loop: nat)
    requires Enabled(w, p, m) && loop in Next(w, p, m).pending
    requires loop in p.pending ==> p.pending[loop].claim <= ClaimNo(p, p.pending[loop].task)
    ensures var n := Next(w, p, m); n.pending[loop].claim <= ClaimNo(n, n.pending[loop].task)
  {
  }

  lemma NextKeepsEntry(w: Uuid, p: Proc, m: Move, id: Uuid)
    requires Enabled(w, p, m) && id in Next(w, p, m).active && (id in p.active ==> p.active[id].task == id)
    ensures Next(w, p, m).active[id].task == id
  {
  }

  lemma NextKeepsNumbered(w: Uuid, p: Proc, m: Move)
    requires Numbered(p) && Enabled(w, p, m)
    ensures Numbered(Next(w, p, m))
  {
    var n := Next(w, p, m);
    forall h | Known(n, h) ensures h.claim <= ClaimNo(n, h.task) && h.serial < n.spawned {
      KnownBefore(w, p, m, h);
      CountersGrow(w, p, m, h.task);
      if m.Visit? { assert Known(p, p.active[m.id]); }
    }
    forall l | l in n.pending ensures n.pending[l].claim <= ClaimNo(n, n.pending[l].task) {
      NextKeepsPending(w, p, m, l);
    }
    forall id | id in n.active ensures n.active[id].task == id { NextKeepsEntry(w, p, m, id); }
  }

  lemma NextKeepsSpent(w: Uuid, p: Proc, m: Move, h: Handle)
    requires Inv(w, p) && May(w, p, m) && !Next(w, p, m).stopping
    requires Spent(Next(w, p, m), h) && Owns(Next(w, p, m).queue.rows, w, h.task)
    ensures h.claim < ClaimNo(Next(w, p, m), h.task)
  {
    OwnershipStep(w, p, m, h.task);
    if m.ClaimTask? && m.id == h.task { assert Known(p, h); }
  }

  lemma NextKeepsInv(w: Uuid, p: Proc, m: Move)
    requires Inv(w, p) && May(w, p, m)
    ensures Inv(w, Next(w, p, m))
  {
    var n := Next(w, p, m);
    QueueStaysValid(w, p, m);
    NextKeepsNumbered(w, p, m);
    if !n.stopping {
      forall h | Spent(n, h) && Owns(n.queue.rows, w, h.task) ensures h.claim < ClaimNo(n, h.task) {
        NextKeepsSpent(w, p, m, h);
      }
    }
  }

  // ---- Runs ----

  ghost predicate Leads(w: Uuid, p: Proc, m: Move, q: Proc) { May(w, p, m) && q == Next(w, p, m) }

  /** ps are the states passed through by the moves ms. */
  ghost predicate IsPath(w: Uuid, ps: seq<Proc>, ms: seq<Move>) {
    && |ps| == |ms| + 1
    && forall i {:trigger Leads(w, ps[i], ms[i], ps[i + 1])} :: 0 <= i < |ms| ==> Leads(w, ps[i], ms[i], ps[i + 1])
  }

  ghost predicate IsRun(w: Uuid, ps: seq<Proc>, ms: seq<Move>) { IsPath(w, ps, ms) && ps[0] == IDLE }

  lemma LeadsKeepsInv(w: Uuid, p: Proc, m: Move, q: Proc)
    requires Inv(w, p) && Leads(w, p, m, q)
    ensures Inv(w, q) && (p.stopping ==> q.stopping)
  {
    NextKeepsInv(w, p, m);
  }

  lemma StepAt(w: Uuid, ps: seq<Proc>, ms: seq<Move>, i: nat)
    requires IsPath(w, ps, ms) && i < |ms|
    ensures Leads(w, ps[i], ms[i], ps[i + 1])
  {
  }

  lemma {:induction false} RunInv(w: Uuid, ps: seq<Proc>, ms: seq<Move>, n: nat)
    requires IsRun(w, ps, ms) && n < |ps|
    ensures Inv(w, ps[n])
  {
    if n > 0 {
      RunInv(w, ps, ms, n - 1);
      StepAt(w, ps, ms, n - 1);
      LeadsKeepsInv(w, ps[n - 1], ms[n - 1], ps[n]);
    }
  }

  // ---- What can take the entry of an owned task ----

  /** A handle from which a deletion of its task's entry can still come without a terminal write taking effect. */
  predicate Hazard(p: Proc, h: Handle) {
    || (h in p.gos && (p.gos[h].Leaving? || h in p.cancelled || p.stopping))
    || p.beat == Lost(h) || p.beat == Dropping(h)
  }

  predicate OwnsNow(w: Uuid, p: Proc, id: Uuid) { Owns(p.queue.rows, w, id) }

  /** While a task stays owned no new hazard to its entry arises. */
  lemma HazardsOnlyShrink(w: Uuid, p: Proc, m: Move, q: Proc, h: Handle)
    requires Inv(w, p) && Leads(w, p, m, q) && !q.stopping
    requires OwnsNow(w, p, h.task) && OwnsNow(w, q, h.task) && Hazard(q, h)
    ensures Hazard(p, h)
  {
    OwnershipStep(w, p, m, h.task);
    assert h in p.cancelled ==> Known(p, h);
  }

  /** Claiming creates none either. */
  lemma ClaimIsNoHazard(w: Uuid, p: Proc, m: Move, q: Proc, h: Handle)
    requires Leads(w, p, m, q) && m.ClaimTask?
    ensures Hazard(q, h) <==> Hazard(p, h)
  {
  }

  ghost predicate OwnedThroughout(w: Uuid, ps: seq<Proc>, from: nat, to: nat, id: Uuid)
    requires to < |ps|
  {
    forall i :: from <= i <= to ==> OwnsNow(w, ps[i], id)
  }

  /** A hazard to the entry of an owned task was there from the beginning of the ownership. */
  lemma {:induction false} HazardWasThere(w: Uuid, ps: seq<Proc>, ms: seq<Move>, k: nat, n: nat, h: Handle)
    requires IsRun(w, ps, ms) && k <= n < |ps| && !ps[n].stopping
    requires OwnedThroughout(w, ps, k, n, h.task) && Hazard(ps[n], h)
    ensures Hazard(ps[k], h)
  {
    if k < n {
      RunInv(w, ps, ms, n - 1);
      StepAt(w, ps, ms, n - 1);
      LeadsKeepsInv(w, ps[n - 1], ms[n - 1], ps[n]);
      HazardsOnlyShrink(w, ps[n - 1], ms[n - 1], ps[n], h);
      HazardWasThere(w, ps, ms, k, n - 1, h);
    }
  }

  /** Step k of the run is an effective claim of the task, which stays owned up to n. */
  ghost predicate ClaimedAt(w: Uuid, ps: seq<Proc>, ms: seq<Move>, k: nat, n: nat, id: Uuid)
    requires |ps| == |ms| + 1
  {
    k < n < |ps| && ms[k].ClaimTask? && ms[k].id == id && OwnedThroughout(w, ps, k + 1, n, id)
  }

  predicate Deletes(p: Proc, m: Move, h: Handle) { (m.DropLost? && p.beat == Dropping(h)) || m == Leave(h) }

  lemma DeleterIsSpent(w: Uuid, p: Proc, m: Move, h: Handle)
    requires Enabled(w, p, m) && Deletes(p, m, h)
    ensures Hazard(p, h) && Spent(p, h)
  {
  }

  /**
   Whatever deletes the entry of an owned task was left over from before the claim: an earlier
   goroutine of the task, or a heartbeat that found the task not owned.
   */
  lemma DeletionIsLate(w: Uuid, ps: seq<Proc>, ms: seq<Move>, k: nat, d: nat, h: Handle)
    requires IsRun(w, ps, ms) && d < |ms| && ClaimedAt(w, ps, ms, k, d, h.task)
    requires Deletes(ps[d], ms[d], h) && !ps[d].stopping
    ensures Hazard(ps[k], h) && h.claim < ClaimNo(ps[d], h.task)
  {
    assert Leads(w, ps[d], ms[d], ps[d + 1]) && Leads(w, ps[k], ms[k], ps[k + 1]);
    DeleterIsSpent(w, ps[d], ms[d], h);
    HazardWasThere(w, ps, ms, k + 1, d, h);
    ClaimIsNoHazard(w, ps[k], ms[k], ps[k + 1], h);
    RunInv(w, ps, ms, d);
    assert OwnsNow(w, ps[d], h.task);
  }

  // ---- Exactly when an owned task has no entry ----

  predicate StoresEntry(p: Proc, m: Move, id: Uuid) {
    m.Store? && m.loop in p.pending && p.pending[m.loop].task == id
  }

  predicate DeletesEntry(p: Proc, m: Move, id: Uuid) {
    (m.DropLost? && p.beat.Dropping? && p.beat.h.task == id) || (m.Leave? && m.h.task == id)
  }

  lemma EntryStep(w: Uuid, p: Proc, m: Move, q: Proc, id: Uuid)
    requires Leads(w, p, m, q)
    ensures id in q.active <==> StoresEntry(p, m, id) || (id in p.active && !DeletesEntry(p, m, id))
  {
  }

  ghost predicate NoStoreIn(ps: seq<Proc>, ms: seq<Move>, from: nat, to: nat, id: Uuid)
    requires to <= |ms| < |ps|
  {
    forall i :: from <= i < to ==> !StoresEntry(ps[i], ms[i], id)
  }

  ghost predicate LastDeletion(ps: seq<Proc>, ms: seq<Move>, d: nat, n: nat, id: Uuid)
    requires d < n <= |ms| < |ps|
  {
    DeletesEntry(ps[d], ms[d], id) && NoStoreIn(ps, ms, d + 1, n, id)
  }

  /** Between k and n the last thing done to the entry was to delete it. */
  ghost predicate DeletedSince(ps: seq<Proc>, ms: seq<Move>, k: nat, n: nat, id: Uuid)
    requires n <= |ms| < |ps|
  {
    exists d: nat :: k < d < n && LastDeletion(ps, ms, d, n, id)
  }

  /** Between k and n nothing was stored, and there was no entry to begin with. */
  ghost predicate NeverStored(ps: seq<Proc>, ms: seq<Move>, k: nat, n: nat, id: Uuid)
    requires k < n <= |ms| < |ps|
  {
    id !in ps[k].active && NoStoreIn(ps, ms, k, n, id)
  }

  lemma StoreOneMore(ps: seq<Proc>, ms: seq<Move>, from: nat, n: nat, id: Uuid)
    requires from <= n < |ms| < |ps|
    ensures NoStoreIn(ps, ms, from, n + 1, id) <==> NoStoreIn(ps, ms, from, n, id) && !StoresEntry(ps[n], ms[n], id)
  {
  }

  lemma DeletedOneMore(ps: seq<Proc>, ms: seq<Move>, k: nat, n: nat, id: Uuid)
    requires k < n < |ms| < |ps|
    ensures DeletedSince(ps, ms, k, n + 1, id)
            <==> DeletesEntry(ps[n], ms[n], id) || (DeletedSince(ps, ms, k, n, id) && !StoresEntry(ps[n], ms[n], id))
  {
    if DeletedSince(ps, ms, k, n + 1, id) {
      var d: nat :| k < d <= n && LastDeletion(ps, ms, d, n + 1, id);
      if d < n {
        StoreOneMore(ps, ms, d + 1, n, id);
        assert LastDeletion(ps, ms, d, n, id);
      }
    }
    if DeletesEntry(ps[n], ms[n], id) { assert LastDeletion(ps, ms, n, n + 1, id); }
    if d: nat :| k < d < n && LastDeletion(ps, ms, d, n, id) {
      StoreOneMore(ps, ms, d + 1, n, id);
      if !StoresEntry(ps[n], ms[n], id) { assert LastDeletion(ps, ms, d, n + 1, id); }
    }
  }

  /** The entry of the task changes only by stores and deletions. */
  ghost predicate EntryFollows(ps: seq<Proc>, ms: seq<Move>, from: nat, to: nat, id: Uuid)
    requires to <= |ms| < |ps|
  {
    forall i :: from <= i < to ==>
      (id in ps[i + 1].active
       <==> StoresEntry(ps[i], ms[i], id) || (id in ps[i].active && !DeletesEntry(ps[i], ms[i], id)))
  }

  lemma RunFollows(w: Uuid, ps: seq<Proc>, ms: seq<Move>, id: Uuid)
    requires IsPath(w, ps, ms)
    ensures EntryFollows(ps, ms, 0, |ms|, id)
  {
    forall i | 0 <= i < |ms|
      ensures id in ps[i + 1].active
              <==> StoresEntry(ps[i], ms[i], id) || (id in ps[i].active && !DeletesEntry(ps[i], ms[i], id))
    {
      EntryStep(w, ps[i], ms[i], ps[i + 1], id);
    }
  }

  lemma {:induction false} LastStepDecides(ps: seq<Proc>, ms: seq<Move>, k: nat, n: nat, id: Uuid)
    requires k < n <= |ms| < |ps| && EntryFollows(ps, ms, k, n, id) && ms[k].ClaimTask?
    ensures id !in ps[n].active <==> DeletedSince(ps, ms, k, n, id) || NeverStored(ps, ms, k, n, id)
  {
    if k + 1 < n {
      LastStepDecides(ps, ms, k, n - 1, id);
      DeletedOneMore(ps, ms, k, n - 1, id);
      StoreOneMore(ps, ms, k, n - 1, id);
    }
  }

  /**
   Over every run, a claimed and still owned task is without a registry entry, so without
   heartbeats, exactly while its own entry is not stored and no older one is left, or after its
   entry was deleted.
   */
  lemma UnwatchedIff(w: Uuid, ps: seq<Proc>, ms: seq<Move>, k: nat, n: nat, id: Uuid)
    requires IsRun(w, ps, ms) && ClaimedAt(w, ps, ms, k, n, id)
    ensures OwnsNow(w, ps[n], id)
    ensures id !in ps[n].active <==> DeletedSince(ps, ms, k, n, id) || NeverStored(ps, ms, k, n, id)
  {
    RunFollows(w, ps, ms, id);
    LastStepDecides(ps, ms, k, n, id);
  }

  ghost predicate NoLeftover(p: Proc, id: Uuid) { forall h: Handle :: h.task == id ==> !Hazard(p, h) }

  /** Without a leftover at the claim nothing deletes the entry while the task is owned. */
  lemma NoLeftoverNoDeletion(w: Uuid, ps: seq<Proc>, ms: seq<Move>, k: nat, d: nat, id: Uuid)
    requires IsRun(w, ps, ms) && d < |ms| && ClaimedAt(w, ps, ms, k, d, id) && !ps[d].stopping
    requires NoLeftover(ps[k], id)
    ensures !DeletesEntry(ps[d], ms[d], id)
  {
    if DeletesEntry(ps[d], ms[d], id) {
      DeletionIsLate(w, ps, ms, k, d, if ms[d].Leave? then ms[d].h else ps[d].beat.h);
    }
  }

  lemma {:induction false} StopLasts(ps: seq<Proc>, d: nat, n: nat)
    requires d <= n < |ps| && forall i :: 0 <= i < |ps| - 1 && ps[i].stopping ==> ps[i + 1].stopping
    ensures ps[d].stopping ==> ps[n].stopping
  {
    if d < n { StopLasts(ps, d, n - 1); }
  }

  lemma StopStep(w: Uuid, p: Proc, m: Move, q: Proc)
    requires Leads(w, p, m, q)
    ensures p.stopping ==> q.stopping
  {
  }

  lemma StoppingStays(w: Uuid, ps: seq<Proc>, ms: seq<Move>, d: nat, n: nat)
    requires IsPath(w, ps, ms) && d <= n < |ps| && !ps[n].stopping
    ensures !ps[d].stopping
  {
    forall i | 0 <= i < |ps| - 1 && ps[i].stopping ensures ps[i + 1].stopping {
      StopStep(w, ps[i], ms[i], ps[i + 1]);
    }
    StopLasts(ps, d, n);
  }

  lemma {:induction false} StoredStays(ps: seq<Proc>, ms: seq<Move>, s: nat, n: nat, id: Uuid)
    requires s < n <= |ms| < |ps| && EntryFollows(ps, ms, s, n, id) && StoresEntry(ps[s], ms[s], id)
    requires forall d :: s < d < n ==> !DeletesEntry(ps[d], ms[d], id)
    ensures id in ps[n].active
  {
    if s + 1 < n { StoredStays(ps, ms, s, n - 1, id); }
  }

  /** So an owned task that was claimed without leftovers has an entry from its store on. */
  lemma NoLeftoverStaysWatched(w: Uuid, ps: seq<Proc>, ms: seq<Move>, k: nat, s: nat, n: nat, id: Uuid)
    requires IsRun(w, ps, ms) && ClaimedAt(w, ps, ms, k, n, id) && !ps[n].stopping && NoLeftover(ps[k], id)
    requires k < s < n && StoresEntry(ps[s], ms[s], id)
    ensures id in ps[n].active
  {
    forall d | s < d < n ensures !DeletesEntry(ps[d], ms[d], id) {
      StoppingStays(w, ps, ms, d, n);
      NoLeftoverNoDeletion(w, ps, ms, k, d, id);
    }
    RunFollows(w, ps, ms, id);
    StoredStays(ps, ms, s, n, id);
  }

  // ---- A hazard is one ----

  /** The moves by which a hazard comes true. */
  function Completion(p: Proc, h: Handle): seq<Move> {
    if p.beat == Dropping(h) then [DropLost]
    else if p.beat == Lost(h) then [CancelLost, DropLost]
    else if h in p.gos && p.gos[h].Leaving? then [Leave(h)]
    else [Return(h, Interrupted), Leave(h)]
  }

  /** The state after the moves, if each is enabled in its turn. */
  function After(w: Uuid, p: Proc, ms: seq<Move>): Option<Proc>
    decreases |ms|
  {
    if ms == [] then Some(p)
    else if !May(w, p, ms[0]) then None
    else After(w, Next(w, p, ms[0]), ms[1..])
  }

  lemma AfterFirst(w: Uuid, p: Proc, m: Move, ms: seq<Move>)
    requires May(w, p, m)
    ensures After(w, p, [m] + ms) == After(w, Next(w, p, m), ms)
  {
    assert ([m] + ms)[1..] == ms;
  }

  lemma AfterOne(w: Uuid, p: Proc, a: Move)
    requires May(w, p, a)
    ensures After(w, p, [a]) == Some(Next(w, p, a))
  {
    AfterFirst(w, p, a, []);
    assert [a] + [] == [a];
  }

  lemma AfterTwo(w: Uuid, p: Proc, a: Move, b: Move)
    requires May(w, p, a) && May(w, Next(w, p, a), b)
    ensures After(w, p, [a, b]) == Some(Next(w, Next(w, p, a), b))
  {
    AfterFirst(w, p, a, [b]);
    AfterOne(w, Next(w, p, a), b);
    assert [a] + [b] == [a, b];
  }

  /** Each hazard, if nobody interferes, deletes the entry of an owned task and leaves the queue alone. */
  lemma HazardComesTrue(w: Uuid, p: Proc, h: Handle)
    requires Hazard(p, h)
    ensures var q := After(w, p, Completion(p, h));
            q.Some? && q.value.queue == p.queue && h.task !in q.value.active
  {
    var ms := Completion(p, h);
    if |ms| == 2 {
      AfterTwo(w, p, ms[0], ms[1]);
    } else {
      AfterOne(w, p, ms[0]);
    }
  }

  lemma {:induction false} DeletedBetween(ps: seq<Proc>, ms: seq<Move>, n: nat, m: nat, id: Uuid)
    requires n <= m <= |ms| < |ps| && EntryFollows(ps, ms, n, m, id)
    requires id in ps[n].active && id !in ps[m].active
    ensures exists d :: n <= d < m && DeletesEntry(ps[d], ms[d], id)
  {
    if id in ps[m - 1].active {
      assert DeletesEntry(ps[m - 1], ms[m - 1], id);
    } else {
      DeletedBetween(ps, ms, n, m - 1, id);
    }
  }

  /** And nothing else does: an owned task can lose its entry exactly where there is a hazard. */
  lemma EntryGoneHadHazard(w: Uuid, ps: seq<Proc>, ms: seq<Move>, n: nat, m: nat, id: Uuid)
    requires IsRun(w, ps, ms) && n <= m < |ps| && OwnedThroughout(w, ps, n, m, id) && !ps[m].stopping
    requires id in ps[n].active && id !in ps[m].active
    ensures !NoLeftover(ps[n], id)
  {
    RunFollows(w, ps, ms, id);
    DeletedBetween(ps, ms, n, m, id);
    var d :| n <= d < m && DeletesEntry(ps[d], ms[d], id);
    var h := if ms[d].Leave? then ms[d].h else ps[d].beat.h;
    assert Leads(w, ps[d], ms[d], ps[d + 1]);
    DeleterIsSpent(w, ps[d], ms[d], h);
    StoppingStays(w, ps, ms, d, m);
    HazardWasThere(w, ps, ms, n, d, h);
  }

  lemma {:induction false} AfterConcat(w: Uuid, p: Proc, ms: seq<Move>, ns: seq<Move>)
    requires After(w, p, ms).Some?
    ensures After(w, p, ms + ns) == After(w, After(w, p, ms).value, ns)
    decreases |ms|
  {
    if ms == [] {
      assert ms + ns == ns;
    } else {
      assert (ms + ns)[1..] == ms[1..] + ns;
      AfterConcat(w, Next(w, p, ms[0]), ms[1..], ns);
    }
  }

  lemma {:induction false} PathTo(w: Uuid, p: Proc, ms: seq<Move>) returns (ps: seq<Proc>)
    requires After(w, p, ms).Some?
    ensures IsPath(w, ps, ms) && ps[0] == p && After(w, p, ms) == Some(ps[|ms|])
    decreases |ms|
  {
    if ms == [] {
      ps := [p];
    } else {
      var rest := PathTo(w, Next(w, p, ms[0]), ms[1..]);
      ps := [p] + rest;
      forall i | 0 <= i < |ms| ensures Leads(w, ps[i], ms[i], ps[i + 1]) {
        if i > 0 { StepAt(w, rest, ms[1..], i - 1); }
      }
    }
  }

  // ---- Exactly when an owned task can lose its entry ----

  /** The continuation takes the entry of a task that is owned all along, without shutdown. */
  ghost predicate Loses(w: Uuid, p: Proc, id: Uuid, qs: seq<Proc>, ns: seq<Move>) {
    && IsPath(w, qs, ns) && qs[0] == p && OwnedThroughout(w, qs, 0, |ns|, id)
    && !qs[|ns|].stopping && id !in qs[|ns|].active
  }

  ghost predicate CanLose(w: Uuid, p: Proc, id: Uuid) { exists qs, ns :: Loses(w, p, id, qs, ns) }

  /** The moves by which a hazard comes true neither touch the queue nor shut down. */
  lemma CompletionIsQuiet(w: Uuid, p: Proc, h: Handle, m: Move, q: Proc)
    requires Hazard(p, h) && Leads(w, p, m, q) && m in Completion(p, h)
    ensures q.queue == p.queue && q.stopping == p.stopping
  {
  }

  lemma HazardLoses(w: Uuid, p: Proc, h: Handle)
    requires Hazard(p, h) && OwnsNow(w, p, h.task) && !p.stopping
    ensures CanLose(w, p, h.task)
  {
    var ns := Completion(p, h);
    HazardComesTrue(w, p, h);
    var qs := PathTo(w, p, ns);
    StepAt(w, qs, ns, 0);
    CompletionIsQuiet(w, p, h, ns[0], qs[1]);
    if |ns| == 2 {
      StepAt(w, qs, ns, 1);
      SecondIsQuiet(w, p, h, qs[1], qs[2]);
    }
    assert Loses(w, p, h.task, qs, ns);
  }

  lemma SecondIsQuiet(w: Uuid, p: Proc, h: Handle, q: Proc, r: Proc)
    requires Hazard(p, h) && |Completion(p, h)| == 2 && Leads(w, q, Completion(p, h)[1], r)
    ensures r.queue == q.queue && r.stopping == q.stopping
  {
  }

  lemma RunThenPath(w: Uuid, ps: seq<Proc>, ms: seq<Move>, qs: seq<Proc>, ns: seq<Move>)
    requires IsRun(w, ps, ms) && IsPath(w, qs, ns) && qs[0] == ps[|ms|]
    ensures IsRun(w, ps + qs[1..], ms + ns)
    ensures forall i :: 0 <= i <= |ns| ==> (ps + qs[1..])[|ms| + i] == qs[i]
  {
    var rs, ks := ps + qs[1..], ms + ns;
    forall i | 0 <= i < |ks| ensures Leads(w, rs[i], ks[i], rs[i + 1]) {
      if i < |ms| { StepAt(w, ps, ms, i); } else { StepAt(w, qs, ns, i - |ms|); }
    }
  }

  /**
   In every reachable state without shutdown, an owned and registered task can lose its entry, with
   whatever the process and all others do next, exactly when something is left over from before its claim.
   */
  lemma CanLoseIff(w: Uuid, ps: seq<Proc>, ms: seq<Move>, id: Uuid)
    requires IsRun(w, ps, ms)
    requires var p := ps[|ms|]; OwnsNow(w, p, id) && id in p.active && !p.stopping
    ensures CanLose(w, ps[|ms|], id) <==> !NoLeftover(ps[|ms|], id)
  {
    var p := ps[|ms|];
    if CanLose(w, p, id) {
      var qs, ns :| Loses(w, p, id, qs, ns);
      RunThenPath(w, ps, ms, qs, ns);
      var rs := ps + qs[1..];
      forall i | |ms| <= i <= |ms| + |ns| ensures OwnsNow(w, rs[i], id) {
        assert rs[|ms| + (i - |ms|)] == qs[i - |ms|];
      }
      EntryGoneHadHazard(w, rs, ms + ns, |ms|, |ms| + |ns|, id);
    }
    if !NoLeftover(p, id) {
      var h: Handle :| h.task == id && Hazard(p, h);
      HazardLoses(w, p, h);
    }
  }

  // ---- Two runs in which it happens ----

  /** A task is created, claimed and stored; its worker falls silent and loses it. */
  function StartedMoves(id: Uuid, r: Request): seq<Move> {
    [Queue(Create(id, r, 0, 0))] + [ClaimTask(0, id), Store(0)]
  }

  function SilenceMoves(id: Uuid): seq<Move> { [Queue(Tick(2)), Queue(Reap(id, 1, 0))] }

  /** The one goroutine of the task is registered and nothing else goes on. */
  ghost predicate Alone(p: Proc, id: Uuid, h: Handle) {
    && h == Handle(id, 1, 0) && p.active == map[id := h] && p.gos == map[h := Running] && p.pending == map[]
    && p.beat.Resting? && p.cancelled == {} && !p.stopping && p.spawned == 1 && ClaimNo(p, id) == 1
  }

  lemma StartedState(w: Uuid, id: Uuid, r: Request)
    ensures var q := After(w, IDLE, StartedMoves(id, r));
            && q.Some? && Alone(q.value, id, Handle(id, 1, 0))
            && OwnsNow(w, q.value, id) && q.value.queue.rows[id].heartbeat == Some(0) && q.value.queue.now == 0
  {
    var p1 := Next(w, IDLE, Queue(Create(id, r, 0, 0)));
    assert p1.queue.rows == map[id := NewRow(r, 0, 0)];
    var p2 := Next(w, p1, ClaimTask(0, id));
    assert OwnsNow(w, p2, id) && p2.queue.rows[id].heartbeat == Some(0);
    var p3 := Next(w, p2, Store(0));
    assert p3.active == map[id := Handle(id, 1, 0)] && p3.pending == map[];
    AfterTwo(w, p1, ClaimTask(0, id), Store(0));
    AfterFirst(w, IDLE, Queue(Create(id, r, 0, 0)), [ClaimTask(0, id), Store(0)]);
  }

  lemma SilencedState(w: Uuid, p: Proc, id: Uuid, h: Handle)
    requires Alone(p, id, h) && OwnsNow(w, p, id) && p.queue.rows[id].heartbeat == Some(0) && p.queue.now == 0
    ensures var q := After(w, p, SilenceMoves(id));
            q.Some? && Alone(q.value, id, h) && Has(q.value.queue.rows, id, Inqueued)
  {
    AfterTwo(w, p, Queue(Tick(2)), Queue(Reap(id, 1, 0)));
  }

  /** Owned, its goroutine running and not told to stop, and without a registry entry. */
  predicate LeftAlone(w: Uuid, p: Proc, id: Uuid, h: Handle) {
    OwnsNow(w, p, id) && h.task == id && h in p.gos && p.gos[h].Running? && h !in p.cancelled
    && !p.stopping && id !in p.active
  }

  /** The reaped goroutine returns, the worker claims the task anew, and the goroutine's deferred delete runs. */
  function LateLeaveMoves(id: Uuid): seq<Move> {
    [Return(Handle(id, 1, 0), Output([])), ClaimTask(0, id)] + [Store(0), Leave(Handle(id, 1, 0))]
  }

  lemma LateLeaveState(w: Uuid, p: Proc, id: Uuid, h: Handle)
    requires Alone(p, id, h) && Has(p.queue.rows, id, Inqueued)
    ensures var q := After(w, p, LateLeaveMoves(id)); q.Some? && LeftAlone(w, q.value, id, Handle(id, 2, 1))
  {
    var p1 := Next(w, p, Return(h, Output([])));
    assert p1.queue == p.queue && p1.gos == map[h := Leaving];
    var p2 := Next(w, p1, ClaimTask(0, id));
    assert OwnsNow(w, p2, id) && p2.pending[0] == Pending(id, 2);
    AfterTwo(w, p, Return(h, Output([])), ClaimTask(0, id));
    AfterConcat(w, p, [Return(h, Output([])), ClaimTask(0, id)], [Store(0), Leave(h)]);
    AfterTwo(w, p2, Store(0), Leave(h));
  }

  /** The loop finds the task lost, the worker claims it anew, and only then the loop drops the entry. */
  function LateDropMoves(id: Uuid): seq<Move> {
    [Visit(id), BeatVisited] + ([ClaimTask(0, id), Store(0)] + [CancelLost, DropLost])
  }

  lemma LateDropState(w: Uuid, p: Proc, id: Uuid, h: Handle)
    requires Alone(p, id, h) && Has(p.queue.rows, id, Inqueued)
    ensures var q := After(w, p, LateDropMoves(id)); q.Some? && LeftAlone(w, q.value, id, Handle(id, 2, 1))
  {
    FoundLost(w, p, id, h);
    AfterConcat(w, p, [Visit(id), BeatVisited], [ClaimTask(0, id), Store(0)] + [CancelLost, DropLost]);
    var p2 := p.(beat := Lost(h));
    AfterTwo(w, p2, ClaimTask(0, id), Store(0));
    AfterConcat(w, p2, [ClaimTask(0, id), Store(0)], [CancelLost, DropLost]);
    DroppedTooLate(w, Next(w, Next(w, p2, ClaimTask(0, id)), Store(0)), id, h);
  }

  lemma FoundLost(w: Uuid, p: Proc, id: Uuid, h: Handle)
    requires Alone(p, id, h) && Has(p.queue.rows, id, Inqueued)
    ensures After(w, p, [Visit(id), BeatVisited]) == Some(p.(beat := Lost(h)))
  {
    AfterTwo(w, p, Visit(id), BeatVisited);
  }

  lemma DroppedTooLate(w: Uuid, p: Proc, id: Uuid, h: Handle)
    requires p.beat == Lost(h) && p.cancelled == {} && !p.stopping && h == Handle(id, 1, 0)
    requires OwnsNow(w, p, id) && Handle(id, 2, 1) in p.gos && p.gos[Handle(id, 2, 1)].Running?
    ensures var q := After(w, p, [CancelLost, DropLost]); q.Some? && LeftAlone(w, q.value, id, Handle(id, 2, 1))
  {
    AfterTwo(w, p, CancelLost, DropLost);
  }

  /** In two ways the entry of a task claimed anew is lost to its first goroutine. */
  lemma LateDeletionsHappen(w: Uuid, id: Uuid, r: Request, late: seq<Move>) returns (ps: seq<Proc>, ms: seq<Move>)
    requires late == LateLeaveMoves(id) || late == LateDropMoves(id)
    ensures ms == StartedMoves(id, r) + (SilenceMoves(id) + late)
    ensures IsRun(w, ps, ms) && LeftAlone(w, ps[|ms|], id, Handle(id, 2, 1))
  {
    ms := StartedMoves(id, r) + (SilenceMoves(id) + late);
    StartedState(w, id, r);
    AfterConcat(w, IDLE, StartedMoves(id, r), SilenceMoves(id) + late);
    var p := After(w, IDLE, StartedMoves(id, r)).value;
    SilencedState(w, p, id, Handle(id, 1, 0));
    AfterConcat(w, p, SilenceMoves(id), late);
    var q := After(w, p, SilenceMoves(id)).value;
    if late == LateLeaveMoves(id) {
      LateLeaveState(w, q, id, Handle(id, 1, 0));
    } else {
      LateDropState(w, q, id, Handle(id, 1, 0));
    }
    ps := PathTo(w, IDLE, ms);
  }

  // ---- Heartbeats of a watched task ----

  predicate BeatsTask(p: Proc, m: Move, id: Uuid) { m.BeatVisited? && p.beat.Visiting? && p.beat.h.task == id }

  /** The time of the last heartbeat for the task since its claim at k, or of the claim. */
  function Sign(ps: seq<Proc>, ms: seq<Move>, k: nat, n: nat, id: Uuid): Time
    requires k < n <= |ms| < |ps|
    decreases n
  {
    if n == k + 1 then ps[k].queue.now
    else if BeatsTask(ps[n - 1], ms[n - 1], id) then ps[n - 1].queue.now
    else Sign(ps, ms, k, n - 1, id)
  }

  /** The step neither ends the task nor reaps with a shorter limit. */
  predicate Harmless(w: Uuid, p: Proc, m: Move, id: Uuid, limit: Time)
    requires Enabled(w, p, m)
  {
    Issued(w, p, m).Some? && id in p.queue.rows ==>
      var e := Issued(w, p, m).value;
      !EndsTask(e, id, w, p.queue.rows[id]) && (e.Reap? && e.id == id ==> e.staleAfter >= limit)
  }

  ghost predicate AllHarmless(w: Uuid, ps: seq<Proc>, ms: seq<Move>, k: nat, n: nat, id: Uuid, limit: Time)
    requires IsPath(w, ps, ms) && n <= |ms|
  {
    forall i {:trigger ms[i]} :: k < i < n ==> Enabled(w, ps[i], ms[i]) && Harmless(w, ps[i], ms[i], id, limit)
  }

  ghost predicate Registered(ps: seq<Proc>, from: nat, to: nat, id: Uuid)
    requires to < |ps|
  {
    forall i :: from < i <= to ==> id in ps[i].active
  }

  /**
   The loops keep up: as long as the task has had an entry ever since its store at s, it was never
   without claim or heartbeat for longer than the limit.
   */
  ghost predicate KeepsUp(ps: seq<Proc>, ms: seq<Move>, k: nat, s: nat, n: nat, id: Uuid, limit: Time)
    requires n <= |ms| < |ps|
  {
    forall i :: k < i < n && Registered(ps, s, i, id) ==> ps[i].queue.now - Sign(ps, ms, k, i, id) <= limit
  }

  lemma WatchedStep(w: Uuid, p: Proc, m: Move, q: Proc, id: Uuid, limit: Time)
    requires Valid(p.queue) && Leads(w, p, m, q) && Harmless(w, p, m, id, limit)
    requires OwnsNow(w, p, id) && p.queue.now - p.queue.rows[id].heartbeat.value <= limit
    ensures OwnsNow(w, q, id)
    ensures q.queue.rows[id].heartbeat == if BeatsTask(p, m, id) then Some(p.queue.now) else p.queue.rows[id].heartbeat
  {
    QueueStaysValid(w, p, m);
    if Issued(w, p, m).Some? { BeatingOwnerKeepsTask(p.queue, Issued(w, p, m).value, w, id, limit); }
  }

  lemma ClaimStep(w: Uuid, p: Proc, m: Move, q: Proc, id: Uuid)
    requires Leads(w, p, m, q) && m.ClaimTask? && m.id == id
    ensures OwnsNow(w, q, id) && q.queue.rows[id].heartbeat == Some(p.queue.now)
  {
  }

  ghost predicate BeatenAt(w: Uuid, ps: seq<Proc>, ms: seq<Move>, k: nat, n: nat, id: Uuid)
    requires k < n <= |ms| < |ps|
  {
    OwnsNow(w, ps[n], id) && ps[n].queue.rows[id].heartbeat == Some(Sign(ps, ms, k, n, id))
  }

  ghost predicate BeatenThroughout(w: Uuid, ps: seq<Proc>, ms: seq<Move>, k: nat, n: nat, id: Uuid)
    requires k < n <= |ms| < |ps|
  {
    forall i {:trigger BeatenAt(w, ps, ms, k, i, id)} :: k < i <= n ==> BeatenAt(w, ps, ms, k, i, id)
  }

  lemma OneMoreBeaten(w: Uuid, ps: seq<Proc>, ms: seq<Move>, k: nat, n: nat, id: Uuid, limit: Time)
    requires IsPath(w, ps, ms) && k < n < |ms| && Valid(ps[n].queue)
    requires Enabled(w, ps[n], ms[n]) && Harmless(w, ps[n], ms[n], id, limit)
    requires BeatenAt(w, ps, ms, k, n, id) && ps[n].queue.now - Sign(ps, ms, k, n, id) <= limit
    ensures BeatenAt(w, ps, ms, k, n + 1, id)
  {
    StepAt(w, ps, ms, n);
    WatchedStep(w, ps[n], ms[n], ps[n + 1], id, limit);
  }

  lemma RegisteredSoFar(w: Uuid, ps: seq<Proc>, ms: seq<Move>, k: nat, s: nat, n: nat, id: Uuid)
    requires IsRun(w, ps, ms) && ClaimedAt(w, ps, ms, k, n, id) && !ps[n].stopping && NoLeftover(ps[k], id)
    requires k < s < |ms| && StoresEntry(ps[s], ms[s], id)
    ensures Registered(ps, s, n, id)
  {
    forall i | s < i <= n ensures id in ps[i].active {
      StoppingStays(w, ps, ms, i, n);
      NoLeftoverStaysWatched(w, ps, ms, k, s, i, id);
    }
  }

  lemma BeatenIsClaimed(w: Uuid, ps: seq<Proc>, ms: seq<Move>, k: nat, n: nat, id: Uuid)
    requires k < n <= |ms| < |ps| == |ms| + 1 && ms[k].ClaimTask? && ms[k].id == id
    requires BeatenThroughout(w, ps, ms, k, n, id)
    ensures ClaimedAt(w, ps, ms, k, n, id)
  {
    forall i | k + 1 <= i <= n ensures OwnsNow(w, ps[i], id) { assert BeatenAt(w, ps, ms, k, i, id); }
  }

  lemma FirstBeaten(w: Uuid, ps: seq<Proc>, ms: seq<Move>, k: nat, id: Uuid)
    requires IsPath(w, ps, ms) && k < |ms| && ms[k].ClaimTask? && ms[k].id == id
    ensures BeatenAt(w, ps, ms, k, k + 1, id)
  {
    StepAt(w, ps, ms, k);
    ClaimStep(w, ps[k], ms[k], ps[k + 1], id);
  }

  lemma {:induction false} BeatenOn(w: Uuid, ps: seq<Proc>, ms: seq<Move>, k: nat, n: nat, id: Uuid)
    requires k < n <= |ms| < |ps| && BeatenAt(w, ps, ms, k, k + 1, id)
    requires forall i {:trigger BeatenThroughout(w, ps, ms, k, i, id)} ::
               k < i < n && BeatenThroughout(w, ps, ms, k, i, id) ==> BeatenAt(w, ps, ms, k, i + 1, id)
    ensures BeatenThroughout(w, ps, ms, k, n, id)
  {
    if k + 1 < n {
      BeatenOn(w, ps, ms, k, n - 1, id);
      assert BeatenAt(w, ps, ms, k, n - 1 + 1, id);
    }
  }

  /**
   A task claimed without leftovers, stored, and beaten as long as it is registered is never
   reaped: it stays owned, registered, and with the heartbeat of its last beat, until it ends.
   */
  lemma WatchedOwnerIsNeverReaped(
    w: Uuid, ps: seq<Proc>, ms: seq<Move>, k: nat, s: nat, n: nat, id: Uuid, limit: Time)
    requires IsRun(w, ps, ms) && k < s < n < |ps| && ms[k].ClaimTask? && ms[k].id == id
    requires NoLeftover(ps[k], id) && !ps[n].stopping && StoresEntry(ps[s], ms[s], id)
    requires AllHarmless(w, ps, ms, k, n, id, limit) && KeepsUp(ps, ms, k, s, n, id, limit)
    ensures ClaimedAt(w, ps, ms, k, n, id) && Registered(ps, s, n, id)
    ensures ps[n].queue.rows[id].heartbeat == Some(Sign(ps, ms, k, n, id))
  {
    FirstBeaten(w, ps, ms, k, id);
    forall i {:trigger BeatenThroughout(w, ps, ms, k, i, id)} | k < i < n && BeatenThroughout(w, ps, ms, k, i, id)
      ensures BeatenAt(w, ps, ms, k, i + 1, id)
    {
      BeatenIsClaimed(w, ps, ms, k, i, id);
      StoppingStays(w, ps, ms, i, n);
      RegisteredSoFar(w, ps, ms, k, s, i, id);
      RunInv(w, ps, ms, i);
      assert BeatenAt(w, ps, ms, k, i, id);
      OneMoreBeaten(w, ps, ms, k, i, id, limit);
    }
    BeatenOn(w, ps, ms, k, n, id);
    BeatenIsClaimed(w, ps, ms, k, n, id);
    RegisteredSoFar(w, ps, ms, k, s, n, id);
    assert BeatenAt(w, ps, ms, k, n, id);
  }
}
