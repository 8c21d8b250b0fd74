/**
 One worker process as its code runs it: each method is one move of WorkerRuns, and the three
 compound ones are what the goroutines do when nobody comes between.
 */
module Worker {
  import opened Common
  import opened TaskRows
  import opened TaskRuns
  import opened TaskTable
  import opened WorkerRuns

  /** The rows after every owned task among `ts` got a heartbeat. */
  function Beaten(rows: Table, worker: Uuid, ts: set<Uuid>, now: Time): Table {
    map t | t in rows ::
      if t in ts && Owns(rows, worker, t) then Updated(rows[t], Event.Beat(worker, t), now) else rows[t]
  }

  function OwnedAmong(rows: Table, worker: Uuid, ts: set<Uuid>): set<Uuid> {
    set t | t in ts && Owns(rows, worker, t)
  }

  /** The registry when every task outside `todo` was visited and dropped unless owned. */
  function Kept(active: map<Uuid, Handle>, owned: set<Uuid>, todo: set<Uuid>): map<Uuid, Handle> {
    map t | t in active && (t in todo || t in owned) :: active[t]
  }

  /** The goroutines told to stop by then. */
  function Dropped(active: map<Uuid, Handle>, owned: set<Uuid>, todo: set<Uuid>): set<Handle> {
    set t | t in active && t !in todo && t !in owned :: active[t]
  }

  /** Visiting one more task changes registry and stopped goroutines by at most that task's. */
  lemma TickRegistry(active: map<Uuid, Handle>, owned: set<Uuid>, todo: set<Uuid>, t: Uuid)
    requires t in todo && todo <= active.Keys
    ensures t in owned ==> Kept(active, owned, todo - {t}) == Kept(active, owned, todo)
                           && Dropped(active, owned, todo - {t}) == Dropped(active, owned, todo)
    ensures t !in owned ==> Kept(active, owned, todo - {t}) == Kept(active, owned, todo) - {t}
  {
  }

  lemma TickDrops(active: map<Uuid, Handle>, owned: set<Uuid>, todo: set<Uuid>, t: Uuid)
    requires t in todo && todo <= active.Keys && t !in owned
    ensures Dropped(active, owned, todo - {t}) == Dropped(active, owned, todo) + {active[t]}
  {
  }

  lemma TickRows(rows: Table, worker: Uuid, all: set<Uuid>, todo: set<Uuid>, t: Uuid, now: Time)
    requires t in todo && todo <= all
    ensures Owns(Beaten(rows, worker, all - todo, now), worker, t) <==> Owns(rows, worker, t)
    ensures Beaten(Beaten(rows, worker, all - todo, now), worker, {t}, now)
            == Beaten(rows, worker, all - (todo - {t}), now)
  {
  }

  lemma LostRows(rows: Table, worker: Uuid, all: set<Uuid>, todo: set<Uuid>, t: Uuid, now: Time)
    requires t in todo && todo <= all && !Owns(rows, worker, t)
    ensures !Owns(Beaten(rows, worker, all - todo, now), worker, t)
    ensures Beaten(rows, worker, all - todo, now) == Beaten(rows, worker, all - (todo - {t}), now)
  {
  }

  /** Every owned task with a goroutine that was not told to stop is in the registry, so it is heartbeaten. */
  ghost predicate WatchedIn(p: Proc, w: Uuid) {
    forall g :: g in p.gos && p.gos[g].Running? && g !in p.cancelled && OwnsNow(w, p, g.task) ==> g.task in p.active
  }

  /** The process after an undisturbed visit of the heartbeat loop to the entry of a task. */
  function Visited(w: Uuid, p: Proc, t: Uuid): Proc
    requires t in p.active
  {
    if OwnsNow(w, p, t) then p.(queue := p.queue.(rows := Beaten(p.queue.rows, w, {t}, p.queue.now)))
    else p.(active := p.active - {t}, cancelled := p.cancelled + {p.active[t]})
  }

  lemma VisitedBy(w: Uuid, p: Proc, t: Uuid)
    requires Numbered(p) && p.beat.Resting? && t in p.active
    ensures var q := Next(w, Next(w, p, Visit(t)), BeatVisited);
            if OwnsNow(w, p, t) then q == Visited(w, p, t)
            else q.beat.Lost? && Next(w, Next(w, q, CancelLost), DropLost) == Visited(w, p, t)
  {
    var rows := p.queue.rows;
    if OwnsNow(w, p, t) {
      assert rows[t := Updated(rows[t], Event.Beat(w, t), p.queue.now)] == Beaten(rows, w, {t}, p.queue.now);
    }
  }

  lemma SpawnWatches(p: Proc, w: Uuid, loop: nat, t: Uuid)
    requires Valid(p.queue) && Numbered(p) && Enabled(w, p, ClaimTask(loop, t))
    ensures var q := Next(w, Next(w, p, ClaimTask(loop, t)), Store(loop));
            var g := Handle(t, ClaimNo(p, t) + 1, p.spawned);
            && g !in p.cancelled && q.gos == p.gos[g := Running] && (WatchedIn(p, w) ==> WatchedIn(q, w))
  {
    var q := Next(w, p, ClaimTask(loop, t));
    var g := Handle(t, ClaimNo(p, t) + 1, p.spawned);
    assert g in p.cancelled ==> Known(p, g);
    forall h | h in p.gos && OwnsNow(w, q, h.task) ensures OwnsNow(w, p, h.task) || h.task == t {
      OwnershipStep(w, p, ClaimTask(loop, t), h.task);
    }
  }

  /** The process when the heartbeat loop has visited, undisturbed, every entry outside `todo`. */
  function Ticked(w: Uuid, p: Proc, todo: set<Uuid>): Proc {
    var owned := OwnedAmong(p.queue.rows, w, p.active.Keys);
    p.(queue := p.queue.(rows := Beaten(p.queue.rows, w, p.active.Keys - todo, p.queue.now)),
       active := Kept(p.active, owned, todo), cancelled := p.cancelled + Dropped(p.active, owned, todo))
  }

  lemma OwnedTick(w: Uuid, p: Proc, todo: set<Uuid>, t: Uuid)
    requires t in todo && todo <= p.active.Keys && OwnsNow(w, p, t)
    ensures var a := Ticked(w, p, todo);
            OwnsNow(w, a, t) && t in a.active && Visited(w, a, t) == Ticked(w, p, todo - {t})
  {
    TickRows(p.queue.rows, w, p.active.Keys, todo, t, p.queue.now);
    TickRegistry(p.active, OwnedAmong(p.queue.rows, w, p.active.Keys), todo, t);
  }

  lemma LostTick(w: Uuid, p: Proc, todo: set<Uuid>, t: Uuid)
    requires t in todo && todo <= p.active.Keys && !OwnsNow(w, p, t)
    ensures var a := Ticked(w, p, todo);
            !OwnsNow(w, a, t) && t in a.active && Visited(w, a, t) == Ticked(w, p, todo - {t})
  {
    var owned := OwnedAmong(p.queue.rows, w, p.active.Keys);
    LostRows(p.queue.rows, w, p.active.Keys, todo, t, p.queue.now);
    TickRegistry(p.active, owned, todo, t);
    TickDrops(p.active, owned, todo, t);
    assert Kept(p.active, owned, todo)[t] == p.active[t];
  }

  lemma TickOne(w: Uuid, p: Proc, todo: set<Uuid>, t: Uuid)
    requires t in todo && todo <= p.active.Keys
    ensures t in Ticked(w, p, todo).active && Visited(w, Ticked(w, p, todo), t) == Ticked(w, p, todo - {t})
  {
    if OwnsNow(w, p, t) { OwnedTick(w, p, todo, t); } else { LostTick(w, p, todo, t); }
  }

  lemma NothingTicked(w: Uuid, p: Proc)
    ensures Ticked(w, p, p.active.Keys) == p
  {
    assert Beaten(p.queue.rows, w, {}, p.queue.now) == p.queue.rows;
    assert Kept(p.active, OwnedAmong(p.queue.rows, w, p.active.Keys), p.active.Keys) == p.active;
  }

  lemma TickKeepsWatched(w: Uuid, p: Proc)
    ensures WatchedIn(p, w) ==> WatchedIn(Ticked(w, p, {}), w)
  {
  }

  /** A round keeps the entries of owned tasks and gives these a heartbeat; other registered goroutines are stopped. */
  lemma TickedIs(w: Uuid, p: Proc, t: Uuid)
    requires t in p.active
    ensures var q := Ticked(w, p, {});
            && (t in q.active <==> OwnsNow(w, p, t))
            && (if OwnsNow(w, p, t)
                then OwnsNow(w, q, t) && q.active[t] == p.active[t] && q.queue.rows[t].heartbeat == Some(p.queue.now)
                else p.active[t] in q.cancelled && !OwnsNow(w, q, t))
  {
  }

  lemma FinishWatches(p: Proc, w: Uuid, g: Handle, outcome: Outcome)
    requires Valid(p.queue) && Enabled(w, p, Return(g, outcome)) && WatchedIn(p, w)
    ensures var q := Next(w, Next(w, p, Return(g, outcome)), Leave(g));
            WatchedIn(q, w) <==> !OwnsNow(w, q, g.task)
                                 || forall h :: h in q.gos && q.gos[h].Running? && h !in q.cancelled ==>
                                                  h.task != g.task
  {
    var q := Next(w, Next(w, p, Return(g, outcome)), Leave(g));
    forall h | h in p.gos && OwnsNow(w, q, h.task) ensures OwnsNow(w, p, h.task) {
      OwnershipStep(w, p, Return(g, outcome), h.task);
    }
  }

  class Worker {
    const id: Uuid
    const kinds: set<string>
    const db: PostgresDB
    var active: map<Uuid, Handle>
    var goroutines: map<Handle, Life>
    var cancelled: set<Handle>        // goroutines whose context was cancelled
    var pending: map<nat, Pending>    // claimed by a task loop and not stored yet
    var beat: Beat
    var claims: map<Uuid, nat>        // how often each task was claimed; the code has addresses instead
    var spawned: nat
    var stopping: bool

    ghost function P(): Proc reads this, db {
      Proc(db.S(), active, goroutines, cancelled, pending, beat, claims, spawned, stopping)
    }

    ghost predicate Valid() reads this, db { db.Ok() && Numbered(P()) }

    ghost predicate Watched() reads this, db { WatchedIn(P(), id) }

    constructor (id: Uuid, kinds: set<string>, db: PostgresDB)
      requires db.Ok()
      ensures this.id == id && this.kinds == kinds && this.db == db
      ensures Valid() && Watched() && P() == IDLE.(queue := db.S())
    {
      this.id, this.kinds, this.db := id, kinds, db;
      active, goroutines, cancelled, pending := map[], map[], {}, map[];
      beat, claims, spawned, stopping := Resting, map[], 0, false;
    }

    // ---- The single moves ----

    /** A task loop takes the waiting task with the least number among those of its types nobody has locked. */
    method ClaimNext(loop: nat, locked: set<Uuid>) returns (claimed: Option<Uuid>)
      requires Valid() && loop !in pending
      modifies this`claims, this`pending, db`rows
      ensures Valid()
      ensures claimed.None? ==> P() == old(P())
      ensures claimed.None? ==> kinds == {} || forall t :: Claimable(db.rows, t, kinds) ==> t in locked
      ensures claimed.Some? ==>
                && kinds != {} && Claimable(old(db.rows), claimed.value, kinds) && claimed.value !in locked
                && Enabled(id, old(P()), ClaimTask(loop, claimed.value))
                && P() == Next(id, old(P()), ClaimTask(loop, claimed.value))
      ensures claimed.Some? ==>
                forall t :: Claimable(old(db.rows), t, kinds) && t !in locked ==>
                  old(db.rows)[claimed.value].queueSeq <= old(db.rows)[t].queueSeq
    {
      claimed := None;
      if kinds == {} { return; }
      ghost var p := P();
      claimed := db.ClaimNextInqueuedTask(id, kinds, locked);
      if claimed.Some? {
        NextKeepsNumbered(id, p, ClaimTask(loop, claimed.value));
        var no := (if claimed.value in claims then claims[claimed.value] else 0) + 1;
        claims := claims[claimed.value := no];
        pending := pending[loop := Pending(claimed.value, no)];
        assert P() == Next(id, p, ClaimTask(loop, claimed.value));
      }
    }

    /** The claimed task is registered and its goroutine started. */
    method SpawnTask(loop: nat) returns (g: Handle)
      requires Valid() && loop in pending
      modifies this`active, this`goroutines, this`pending, this`spawned
      ensures Valid() && P() == Next(id, old(P()), Store(loop))
      ensures g == Handle(old(pending[loop].task), old(pending[loop].claim), old(spawned)) && g !in old(goroutines)
    {
      g := Handle(pending[loop].task, pending[loop].claim, spawned);
      NextKeepsNumbered(id, P(), Store(loop));
      assert g in goroutines ==> Known(P(), g);
      active := active[g.task := g];
      goroutines := goroutines[g := Running];
      pending := pending - {loop};
      spawned := spawned + 1;
    }

    method VisitEntry(t: Uuid)
      requires Valid() && beat.Resting? && t in active
      modifies this`beat
      ensures Valid() && P() == Next(id, old(P()), Visit(t))
    {
      NextKeepsNumbered(id, P(), Visit(t));
      beat := Visiting(active[t]);
    }

    method BeatEntry()
      requires Valid() && beat.Visiting?
      modifies this`beat, db`rows
      ensures Valid() && P() == Next(id, old(P()), BeatVisited)
    {
      NextKeepsNumbered(id, P(), BeatVisited);
      var affected := db.HeartbeatTask(id, beat.h.task);
      beat := if affected == 0 then Lost(beat.h) else Resting;
    }

    method CancelEntry()
      requires Valid() && beat.Lost?
      modifies this`beat, this`cancelled
      ensures Valid() && P() == Next(id, old(P()), CancelLost)
    {
      NextKeepsNumbered(id, P(), CancelLost);
      cancelled := cancelled + {beat.h};
      beat := Dropping(beat.h);
    }

    /** Deletes by task id: whatever handle is stored there by now. */
    method DropEntry()
      requires Valid() && beat.Dropping?
      modifies this`beat, this`active
      ensures Valid() && P() == Next(id, old(P()), DropLost)
    {
      NextKeepsNumbered(id, P(), DropLost);
      active := active - {beat.h.task};
      beat := Resting;
    }

    /** The executor returned: an interrupted one leaves the row alone, the others attempt their guarded write. */
    method RunTask(g: Handle, outcome: Outcome)
      requires Valid() && g in goroutines && goroutines[g].Running?
      modifies this`goroutines, db`rows
      ensures Valid() && P() == Next(id, old(P()), Return(g, outcome))
    {
      NextKeepsNumbered(id, P(), Return(g, outcome));
      match outcome {
        case Interrupted =>
        case Failure(message) => var error := db.MarkFailed(id, g.task, message);
        case Output(payload) => var error := db.MarkSucceeded(id, g.task, payload);
      }
      goroutines := goroutines[g := Leaving];
    }

    /** The deferred delete, by task id as well. */
    method LeaveTask(g: Handle)
      requires Valid() && g in goroutines && goroutines[g].Leaving?
      modifies this`active, this`goroutines
      ensures Valid() && P() == Next(id, old(P()), Leave(g))
    {
      NextKeepsNumbered(id, P(), Leave(g));
      active := active - {g.task};
      goroutines := goroutines - {g};
    }

    /** The context of the process is cancelled, and with it that of every goroutine. */
    method Stop()
      requires Valid()
      modifies this`stopping
      ensures Valid() && P() == Next(id, old(P()), Shutdown)
    {
      NextKeepsNumbered(id, P(), Shutdown);
      stopping := true;
    }

    // ---- Without interference ----

    /** Claims one task and starts a goroutine for it; the loop goes on without waiting for it. */
    method ClaimAndSpawn(loop: nat, locked: set<Uuid>) returns (started: Option<Handle>)
      requires Valid() && loop !in pending
      modifies this`active, this`goroutines, this`spawned, this`pending, this`claims, db`rows
      ensures Valid() && (old(Watched()) ==> Watched())
      ensures started.None? ==> P() == old(P())
      ensures started.Some? ==>
                var g := started.value;
                && g !in old(goroutines) && g !in cancelled
                && g.task !in locked && Claimable(old(db.rows), g.task, kinds)
                && db.S() == Step(old(db.S()), Claim(id, g.task))
                && active == old(active)[g.task := g]
                && goroutines == old(goroutines)[g := Running]
      ensures kinds == {} ==> started.None?
    {
      started := None;
      ghost var p := P();
      var claimed := ClaimNext(loop, locked);
      if claimed.Some? {
        var g := SpawnTask(loop);
        SpawnWatches(p, id, loop, claimed.value);
        started := Some(g);
      }
    }

    /** One visit of the heartbeat loop to the entry of a task. */
    method BeatOne(t: Uuid)
      requires Valid() && beat.Resting? && t in active
      modifies this`active, this`cancelled, this`beat, db`rows
      ensures Valid() && P() == Visited(id, old(P()), t)
    {
      VisitedBy(id, P(), t);
      VisitEntry(t);
      BeatEntry();
      if beat.Lost? {
        CancelEntry();
        DropEntry();
      }
    }

    /**
     One round of the heartbeat loop: tasks still owned get a new heartbeat; every other registered
     goroutine is told to stop and leaves the registry.
     */
    method HeartbeatTick()
      requires Valid() && beat.Resting?
      modifies this`active, this`cancelled, this`beat, db`rows
      ensures Valid() && P() == Ticked(id, old(P()), {}) && (old(Watched()) ==> Watched())
    {
      ghost var p := P();
      NothingTicked(id, p);
      var todo := active.Keys;
      while todo != {}
        invariant Valid() && beat.Resting? && todo <= p.active.Keys && P() == Ticked(id, p, todo)
        decreases todo
      {
        var t :| t in todo;
        TickOne(id, p, todo, t);
        BeatOne(t);
        todo := todo - {t};
      }
      TickKeepsWatched(id, p);
    }

    /**
     The goroutine ends: an interrupted one leaves the row alone, the others attempt their guarded
     terminal write, and the registry entry of the task goes, whichever goroutine it belongs to.
     */
    method Finish(g: Handle, outcome: Outcome)
      requires Valid() && g in goroutines && goroutines[g].Running?
      modifies this`active, this`goroutines, db`rows
      ensures Valid()
      ensures active == old(active) - {g.task} && goroutines == old(goroutines) - {g}
      ensures db.S() == match outcome
                        case Interrupted => old(db.S())
                        case Failure(message) => Step(old(db.S()), Fail(id, g.task, message))
                        case Output(payload) => Step(old(db.S()), Succeed(id, g.task, payload))
      ensures !Owns(old(db.rows), id, g.task) ==> db.rows == old(db.rows)
      // Undisturbed, the heartbeat loop loses sight of an owned task exactly when a second goroutine of it
      // runs, as after the worker was reaped and claimed the task again before the first goroutine returned.
      ensures old(Watched()) ==>
                (Watched() <==> !Owns(db.rows, id, g.task)
                                || forall h :: h in goroutines && goroutines[h].Running? && h !in cancelled ==>
                                                 h.task != g.task)
    {
      ghost var p := P();
      RunTask(g, outcome);
      LeaveTask(g);
      if WatchedIn(p, id) { FinishWatches(p, id, g, outcome); }
    }
  }
}
