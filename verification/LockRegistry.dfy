/**
 The reference-counted try-lock registry.  Its critical sections under the map mutex and the
 entry mutexes are separate atomic steps, so any number of threads interleave between them.
 */
module LockRegistry {
  import opened Common

  type Thread = nat
  type EntryId = nat

  /** One entry: who locked its mutex, and how many threads refer to it.  The code only tests whether it is locked. */
  datatype Slot = Slot(holder: Option<Thread>, refs: int)

  /** The mapped entries, and every entry ever made. */
  datatype Registry = Registry(locks: map<string, EntryId>, slots: map<EntryId, Slot>)

  /** Under the map mutex: find or make the entry of the key and take a reference. */
  function Referenced(r: Registry, key: string, unused: EntryId): Registry
    requires key in r.locks ==> r.locks[key] in r.slots
  {
    if key in r.locks then
      var e := r.locks[key];
      r.(slots := r.slots[e := r.slots[e].(refs := r.slots[e].refs + 1)])
    else
      Registry(r.locks[key := unused], r.slots[unused := Slot(None, 1)])
  }

  function WithHolder(r: Registry, e: EntryId, holder: Option<Thread>): Registry
    requires e in r.slots
  {
    r.(slots := r.slots[e := r.slots[e].(holder := holder)])
  }

  /** Under the map mutex: drop a reference, and the entry with its last one. */
  function Released(r: Registry, key: string, e: EntryId): Registry
    requires e in r.slots
  {
    var refs := r.slots[e].refs - 1;
    Registry(if refs == 0 && key in r.locks && r.locks[key] == e then r.locks - {key} else r.locks,
             r.slots[e := r.slots[e].(refs := refs)])
  }

  // ---- The threads around it ----

  datatype Stage =
    | Referring      // between taking a reference and trying the entry's mutex
    | Holding
    | Refused        // the mutex was taken; the reference is still to be dropped
    | Unlocked       // the mutex was released; the reference is still to be dropped

  datatype Place = Place(key: string, entry: EntryId, stage: Stage)

  /** Threads without a place are idle. */
  datatype System = System(reg: Registry, threads: map<Thread, Place>)

  datatype Move =
    | LookUp(t: Thread, key: string, unused: EntryId)
    | TryLock(t: Thread)
    | Unlock(t: Thread)
    | Drop(t: Thread)

  predicate At(s: System, t: Thread, stage: Stage) { t in s.threads && s.threads[t].stage == stage }

  predicate Enabled(s: System, m: Move) {
    match m
    case LookUp(t, key, unused) =>
      t !in s.threads && unused !in s.reg.slots && (key in s.reg.locks ==> s.reg.locks[key] in s.reg.slots)
    case TryLock(t) => At(s, t, Referring) && s.threads[t].entry in s.reg.slots
    case Unlock(t) => At(s, t, Holding) && s.threads[t].entry in s.reg.slots
    case Drop(t) => (At(s, t, Refused) || At(s, t, Unlocked)) && s.threads[t].entry in s.reg.slots
  }

  function Next(s: System, m: Move): System
    requires Enabled(s, m)
  {
    match m
    case LookUp(t, key, unused) =>
      var reg := Referenced(s.reg, key, unused);
      System(reg, s.threads[t := Place(key, reg.locks[key], Referring)])
    case TryLock(t) =>
      var p := s.threads[t];
      if s.reg.slots[p.entry].holder.Some? then s.(threads := s.threads[t := p.(stage := Refused)])
      else System(WithHolder(s.reg, p.entry, Some(t)), s.threads[t := p.(stage := Holding)])
    case Unlock(t) =>
      var p := s.threads[t];
      System(WithHolder(s.reg, p.entry, None), s.threads[t := p.(stage := Unlocked)])
    case Drop(t) =>
      System(Released(s.reg, s.threads[t].key, s.threads[t].entry), s.threads - {t})
  }

  // ---- The invariant ----

  function Users(threads: map<Thread, Place>, e: EntryId): set<Thread> {
    set t | t in threads && threads[t].entry == e
  }

  /** Every entry a thread refers to is the one mapped under the thread's key. */
  ghost predicate UsersAreMapped(s: System) {
    forall t :: t in s.threads ==>
      s.threads[t].key in s.reg.locks && s.reg.locks[s.threads[t].key] == s.threads[t].entry
  }

  ghost predicate RefsCount(s: System) {
    forall e :: e in s.reg.slots ==> s.reg.slots[e].refs == |Users(s.threads, e)|
  }

  predicate HoldsEntry(s: System, t: Thread, e: EntryId) { At(s, t, Holding) && s.threads[t].entry == e }

  predicate LockedBy(s: System, e: EntryId, t: Thread) { e in s.reg.slots && s.reg.slots[e].holder == Some(t) }

  /** An entry's mutex is locked exactly while a thread holds it. */
  ghost predicate HoldersHold(s: System) {
    forall t, e :: LockedBy(s, e, t) <==> HoldsEntry(s, t, e)
  }

  /** Mapped entries exist, are referred to, and belong to one key. */
  ghost predicate MapIsLive(s: System) {
    && (forall k :: k in s.reg.locks ==> s.reg.locks[k] in s.reg.slots && s.reg.slots[s.reg.locks[k]].refs > 0)
    && (forall j, k :: j in s.reg.locks && k in s.reg.locks && j != k ==> s.reg.locks[j] != s.reg.locks[k])
  }

  ghost predicate Inv(s: System) { UsersAreMapped(s) && RefsCount(s) && HoldersHold(s) && MapIsLive(s) }

  /** An entry dropped with its last reference has no other thread referring to its key. */
  lemma LastUserLeavesNobody(s: System, t: Thread, u: Thread)
    requires Inv(s) && t in s.threads && u in s.threads && u != t && s.threads[u].entry == s.threads[t].entry
    ensures s.reg.slots[s.threads[t].entry].refs > 1
  {
    assert {u, t} <= Users(s.threads, s.threads[t].entry);
    SubsetSize({u, t}, Users(s.threads, s.threads[t].entry));
  }

  lemma DropKeepsUserMapped(s: System, t: Thread, u: Thread)
    requires Inv(s) && Enabled(s, Drop(t)) && u in s.threads && u != t
    ensures var n := Next(s, Drop(t));
            n.threads[u].key in n.reg.locks && n.reg.locks[n.threads[u].key] == n.threads[u].entry
  {
    if s.threads[u].key == s.threads[t].key { LastUserLeavesNobody(s, t, u); }
  }

  lemma NextKeepsUserMapped(s: System, m: Move, u: Thread)
    requires Inv(s) && Enabled(s, m) && u in Next(s, m).threads
    ensures var n := Next(s, m);
            n.threads[u].key in n.reg.locks && n.reg.locks[n.threads[u].key] == n.threads[u].entry
  {
    match m
    case Drop(t) => DropKeepsUserMapped(s, t, u);
    case LookUp(t, _, _) => if u != t { assert u in s.threads; }
    case TryLock(t) => assert Next(s, m).reg.locks == s.reg.locks;
    case Unlock(t) => assert Next(s, m).reg.locks == s.reg.locks;
  }

  lemma NextKeepsMapLive(s: System, m: Move)
    requires UsersAreMapped(s) && MapIsLive(s) && Enabled(s, m)
    ensures MapIsLive(Next(s, m))
  {
  }

  lemma UsersPut(threads: map<Thread, Place>, t: Thread, p: Place, e: EntryId)
    requires t in threads ==> threads[t].entry == p.entry
    ensures t !in threads ==> |Users(threads[t := p], e)| == |Users(threads, e)| + if p.entry == e then 1 else 0
    ensures t in threads ==> Users(threads[t := p], e) == Users(threads, e)
  {
    assert Users(threads[t := p], e) == if p.entry == e then Users(threads, e) + {t} else Users(threads, e);
  }

  lemma UsersRemove(threads: map<Thread, Place>, t: Thread, e: EntryId)
    requires t in threads
    ensures |Users(threads - {t}, e)| == |Users(threads, e)| - if threads[t].entry == e then 1 else 0
  {
    assert Users(threads - {t}, e) == if threads[t].entry == e then Users(threads, e) - {t} else Users(threads, e);
  }

  lemma LookUpKeepsRefs(s: System, t: Thread, key: string, unused: EntryId, e: EntryId)
    requires UsersAreMapped(s) && RefsCount(s) && MapIsLive(s) && Enabled(s, LookUp(t, key, unused))
    requires e in Next(s, LookUp(t, key, unused)).reg.slots
    ensures var n := Next(s, LookUp(t, key, unused)); n.reg.slots[e].refs == |Users(n.threads, e)|
  {
    UsersPut(s.threads, t, Next(s, LookUp(t, key, unused)).threads[t], e);
    if e !in s.reg.slots { assert Users(s.threads, e) == {}; }
  }

  lemma NextKeepsRefs(s: System, m: Move, e: EntryId)
    requires UsersAreMapped(s) && RefsCount(s) && MapIsLive(s) && Enabled(s, m) && e in Next(s, m).reg.slots
    ensures Next(s, m).reg.slots[e].refs == |Users(Next(s, m).threads, e)|
  {
    match m
    case LookUp(t, key, unused) => LookUpKeepsRefs(s, t, key, unused, e);
    case Drop(t) => UsersRemove(s.threads, t, e);
    case TryLock(t) => UsersPut(s.threads, t, Next(s, m).threads[t], e);
    case Unlock(t) => UsersPut(s.threads, t, Next(s, m).threads[t], e);
  }

  /** A thread entering or leaving holds nothing. */
  lemma PassingKeepsHolder(s: System, m: Move, t: Thread, e: EntryId)
    requires HoldersHold(s) && MapIsLive(s) && Enabled(s, m) && (m.LookUp? || m.Drop?)
    ensures LockedBy(Next(s, m), e, t) <==> HoldsEntry(Next(s, m), t, e)
  {
    assert LockedBy(s, e, t) <==> HoldsEntry(s, t, e);
  }

  lemma TryLockKeepsHolder(s: System, u: Thread, t: Thread, e: EntryId)
    requires HoldersHold(s) && Enabled(s, TryLock(u))
    ensures LockedBy(Next(s, TryLock(u)), e, t) <==> HoldsEntry(Next(s, TryLock(u)), t, e)
  {
    assert LockedBy(s, e, t) <==> HoldsEntry(s, t, e);
  }

  lemma UnlockKeepsHolder(s: System, u: Thread, t: Thread, e: EntryId)
    requires HoldersHold(s) && Enabled(s, Unlock(u))
    ensures LockedBy(Next(s, Unlock(u)), e, t) <==> HoldsEntry(Next(s, Unlock(u)), t, e)
  {
    assert LockedBy(s, e, t) <==> HoldsEntry(s, t, e);
    assert LockedBy(s, e, u) <==> HoldsEntry(s, u, e);
  }

  lemma NextKeepsHolder(s: System, m: Move, t: Thread, e: EntryId)
    requires HoldersHold(s) && MapIsLive(s) && Enabled(s, m)
    ensures LockedBy(Next(s, m), e, t) <==> HoldsEntry(Next(s, m), t, e)
  {
    match m
    case TryLock(u) => TryLockKeepsHolder(s, u, t, e);
    case Unlock(u) => UnlockKeepsHolder(s, u, t, e);
    case _ => PassingKeepsHolder(s, m, t, e);
  }

  lemma NextKeepsInv(s: System, m: Move)
    requires Inv(s) && Enabled(s, m)
    ensures Inv(Next(s, m))
  {
    var n := Next(s, m);
    NextKeepsMapLive(s, m);
    forall u | u in n.threads
      ensures n.threads[u].key in n.reg.locks && n.reg.locks[n.threads[u].key] == n.threads[u].entry
    {
      NextKeepsUserMapped(s, m, u);
    }
    forall e | e in n.reg.slots ensures n.reg.slots[e].refs == |Users(n.threads, e)| { NextKeepsRefs(s, m, e); }
    forall t, e ensures LockedBy(n, e, t) <==> HoldsEntry(n, t, e) { NextKeepsHolder(s, m, t, e); }
  }

  const EMPTY := System(Registry(map[], map[]), map[])

  ghost predicate IsRun(ss: seq<System>, ms: seq<Move>) {
    && |ss| == |ms| + 1 && ss[0] == EMPTY
    && forall i :: 0 <= i < |ms| ==> Enabled(ss[i], ms[i]) && ss[i + 1] == Next(ss[i], ms[i])
  }

  lemma {:induction false} RunInv(ss: seq<System>, ms: seq<Move>, i: nat)
    requires IsRun(ss, ms) && i < |ss|
    ensures Inv(ss[i])
  {
    if i > 0 {
      RunInv(ss, ms, i - 1);
      NextKeepsInv(ss[i - 1], ms[i - 1]);
    }
  }

  // ---- What it guarantees ----

  /** The locks as a caller thinks of them: who holds which key. */
  predicate Holds(s: System, t: Thread, key: string) { At(s, t, Holding) && s.threads[t].key == key }

  /** In every interleaving a key has at most one holder. */
  lemma MutualExclusion(ss: seq<System>, ms: seq<Move>, i: nat, t: Thread, u: Thread, key: string)
    requires IsRun(ss, ms) && i < |ss| && Holds(ss[i], t, key) && Holds(ss[i], u, key)
    ensures t == u
  {
    RunInv(ss, ms, i);
    var e := ss[i].threads[t].entry;
    assert LockedBy(ss[i], e, t) && LockedBy(ss[i], e, u);
  }

  /** refs is the number of threads referring to the entry, and an entry with any is the one mapped under their key. */
  lemma RefsCountUsers(ss: seq<System>, ms: seq<Move>, i: nat, e: EntryId)
    requires IsRun(ss, ms) && i < |ss| && e in ss[i].reg.slots
    ensures ss[i].reg.slots[e].refs == |Users(ss[i].threads, e)|
    ensures ss[i].reg.slots[e].refs > 0 <==> exists key :: key in ss[i].reg.locks && ss[i].reg.locks[key] == e
    ensures forall t :: t in Users(ss[i].threads, e) ==>
              ss[i].threads[t].key in ss[i].reg.locks && ss[i].reg.locks[ss[i].threads[t].key] == e
  {
    RunInv(ss, ms, i);
    if Users(ss[i].threads, e) != {} {
      var t :| t in Users(ss[i].threads, e);
      assert ss[i].reg.locks[ss[i].threads[t].key] == e;
    }
  }

  lemma MappedHasUser(s: System, key: string)
    requires Inv(s) && key in s.reg.locks
    ensures exists t :: t in s.threads && s.threads[t].key == key
  {
  }

  /** No entry outlives its users: the map has exactly the keys that some thread is busy with. */
  lemma MapHoldsBusyKeysOnly(ss: seq<System>, ms: seq<Move>, i: nat)
    requires IsRun(ss, ms) && i < |ss|
    ensures ss[i].reg.locks.Keys == set t | t in ss[i].threads :: ss[i].threads[t].key
    ensures ss[i].threads == map[] ==> ss[i].reg.locks == map[]
  {
    RunInv(ss, ms, i);
    forall k | k in ss[i].reg.locks ensures exists t :: t in ss[i].threads && ss[i].threads[t].key == k {
      MappedHasUser(ss[i], k);
    }
  }

  /** What one step does to the locks as callers see them. */
  ghost predicate ActsAsLock(s: System, m: Move, n: System, u: Thread, key: string)
    requires Enabled(s, m)
  {
    match m
    case TryLock(t) =>
      var wanted := s.threads[t].key;
      && (At(n, t, Holding) <==> forall v :: !Holds(s, v, wanted))
      && (At(n, t, Refused) <==> exists v :: v != t && Holds(s, v, wanted))
      && (Holds(n, u, key) <==> Holds(s, u, key) || (At(n, t, Holding) && u == t && key == wanted))
    case Unlock(t) => Holds(n, u, key) <==> Holds(s, u, key) && u != t
    case _ => Holds(n, u, key) <==> Holds(s, u, key)
  }

  lemma StepActsAsLock(s: System, m: Move, u: Thread, key: string)
    requires Inv(s) && Enabled(s, m)
    ensures ActsAsLock(s, m, Next(s, m), u, key)
  {
    if m.TryLock? {
      var p := s.threads[m.t];
      if s.reg.slots[p.entry].holder.Some? {
        var v := s.reg.slots[p.entry].holder.value;
        assert LockedBy(s, p.entry, v) && Holds(s, v, p.key);
      } else {
        forall v | Holds(s, v, p.key) ensures false { assert HoldsEntry(s, v, p.entry); }
      }
    }
  }

  /**
   The registry behaves like one lock per key: an attempt succeeds exactly when nobody holds the
   key, a failed one is refused because of another holder, a release frees exactly its own key, and
   taking or dropping references is invisible.
   */
  lemma RefinesOneLockPerKey(ss: seq<System>, ms: seq<Move>, i: nat, u: Thread, key: string)
    requires IsRun(ss, ms) && i < |ms|
    ensures ActsAsLock(ss[i], ms[i], ss[i + 1], u, key)
  {
    RunInv(ss, ms, i);
    StepActsAsLock(ss[i], ms[i], u, key);
  }

  /** A refused attempt leaves no trace once its reference is dropped. */
  lemma RefusedAttemptIsUndone(s: System, t: Thread, key: string, unused: EntryId)
    requires Inv(s) && Enabled(s, LookUp(t, key, unused))
    ensures var n := Next(s, LookUp(t, key, unused));
            && Enabled(n, TryLock(t))
            && var m := Next(n, TryLock(t));
            !At(m, t, Holding) ==> Enabled(m, Drop(t)) && Next(m, Drop(t)) == s
  {
  }

  /** The look-up and the try-lock of one attempt, with no other thread in between. */
  function Attempt(s: System, t: Thread, key: string, unused: EntryId): System
    requires Inv(s) && Enabled(s, LookUp(t, key, unused))
  {
    NextKeepsInv(s, LookUp(t, key, unused));
    Next(Next(s, LookUp(t, key, unused)), TryLock(t))
  }

  lemma AttemptHolds(s: System, t: Thread, key: string, unused: EntryId, u: Thread, k: string)
    requires Inv(s) && Enabled(s, LookUp(t, key, unused))
    ensures var m := Attempt(s, t, key, unused);
            Holds(m, u, k) <==> Holds(s, u, k) || (At(m, t, Holding) && u == t && k == key)
    ensures At(Attempt(s, t, key, unused), t, Holding) && k == key ==> !Holds(s, u, k)
  {
    NextKeepsInv(s, LookUp(t, key, unused));
    StepActsAsLock(s, LookUp(t, key, unused), u, k);
    StepActsAsLock(Next(s, LookUp(t, key, unused)), TryLock(t), u, k);
  }

  lemma AttemptRefusedByHolder(s: System, t: Thread, key: string, unused: EntryId)
    requires Inv(s) && Enabled(s, LookUp(t, key, unused)) && !At(Attempt(s, t, key, unused), t, Holding)
    ensures exists u :: Holds(s, u, key)
  {
    var n := Next(s, LookUp(t, key, unused));
    var u := n.reg.slots[n.threads[t].entry].holder.value;
    assert LockedBy(s, n.threads[t].entry, u) && Holds(s, u, key);
  }

  /** The unlock and the dropped reference of one release, with no other thread in between. */
  function Releasing(s: System, t: Thread): System
    requires Enabled(s, Unlock(t))
  {
    Next(Next(s, Unlock(t)), Drop(t))
  }

  lemma ReleasingKeepsInv(s: System, t: Thread)
    requires Inv(s) && Enabled(s, Unlock(t))
    ensures Inv(Releasing(s, t))
  {
    NextKeepsInv(s, Unlock(t));
    NextKeepsInv(Next(s, Unlock(t)), Drop(t));
  }

  lemma ReleasingFreesItsKey(s: System, t: Thread, u: Thread, k: string)
    requires Enabled(s, Unlock(t))
    ensures Holds(Releasing(s, t), u, k) <==> Holds(s, u, k) && u != t
    ensures Releasing(s, t).threads == s.threads - {t}
  {
  }

  lemma ReleasingForgets(s: System, t: Thread)
    requires Enabled(s, Unlock(t)) && Inv(Releasing(s, t))
    ensures var m, key := Releasing(s, t), s.threads[t].key;
            key in m.reg.locks <==> exists u :: u in m.threads && m.threads[u].key == key
  {
  }

  // ---- The calls, as one thread makes them undisturbed ----

  /** Entries are objects of their own in the program; here they are the values of `entries`, by identity. */
  class AnalysisLockRegistry {
    var locks: map<string, EntryId>
    var entries: map<EntryId, Slot>
    ghost var threads: map<Thread, Place>

    ghost function S(): System reads this { System(Registry(locks, entries), threads) }

    constructor ()
      ensures S() == EMPTY && Inv(S())
    {
      locks, entries, threads := map[], map[], map[];
    }

    /** The first critical section of TryAcquire. */
    method Reference(t: Thread, key: string, unused: EntryId) returns (entry: EntryId)
      requires Enabled(S(), LookUp(t, key, unused))
      modifies this
      ensures S() == Next(old(S()), LookUp(t, key, unused)) && entry == threads[t].entry
    {
      if key in locks {
        entry := locks[key];
      } else {
        entry := unused;
        entries := entries[entry := Slot(None, 0)];
        locks := locks[key := entry];
      }
      entries := entries[entry := entries[entry].(refs := entries[entry].refs + 1)];
      threads := threads[t := Place(key, entry, Referring)];
    }

    method TryLockEntry(t: Thread, entry: EntryId) returns (ok: bool)
      requires Enabled(S(), TryLock(t)) && threads[t].entry == entry
      modifies this
      ensures S() == Next(old(S()), TryLock(t)) && (ok <==> At(S(), t, Holding))
    {
      ok := entries[entry].holder.None?;
      if ok { entries := entries[entry := entries[entry].(holder := Some(t))]; }
      threads := threads[t := threads[t].(stage := if ok then Holding else Refused)];
    }

    method UnlockEntry(t: Thread, entry: EntryId)
      requires Enabled(S(), Unlock(t)) && threads[t].entry == entry
      modifies this
      ensures S() == Next(old(S()), Unlock(t))
    {
      entries := entries[entry := entries[entry].(holder := None)];
      threads := threads[t := threads[t].(stage := Unlocked)];
    }

    method ReleaseRef(t: Thread, key: string, entry: EntryId)
      requires Enabled(S(), Drop(t)) && threads[t].key == key && threads[t].entry == entry
      modifies this
      ensures S() == Next(old(S()), Drop(t))
    {
      entries := entries[entry := entries[entry].(refs := entries[entry].refs - 1)];
      if entries[entry].refs == 0 && key in locks && locks[key] == entry {
        locks := locks - {key};
      }
      threads := threads - {t};
    }

    /** A refused attempt leaves no trace; a granted one holds the key, and no other key changes hands. */
    method TryAcquire(t: Thread, key: string, unused: EntryId) returns (entry: Option<EntryId>)
      requires Inv(S()) && t !in threads && unused !in entries
      modifies this
      ensures Inv(S())
      ensures entry.Some? <==> forall u :: !Holds(old(S()), u, key)
      ensures entry.None? ==> S() == old(S())
      ensures entry.Some? ==> HoldsEntry(S(), t, entry.value)
      ensures entry.Some? ==> forall u, k :: Holds(S(), u, k) <==> Holds(old(S()), u, k) || (u == t && k == key)
    {
      ghost var s := S();
      NextKeepsInv(s, LookUp(t, key, unused));
      NextKeepsInv(Next(s, LookUp(t, key, unused)), TryLock(t));
      RefusedAttemptIsUndone(s, t, key, unused);
      forall u, k { AttemptHolds(s, t, key, unused, u, k); }
      if !At(Attempt(s, t, key, unused), t, Holding) { AttemptRefusedByHolder(s, t, key, unused); }
      var e := Reference(t, key, unused);
      var ok := TryLockEntry(t, e);
      if !ok {
        ReleaseRef(t, key, e);
        return None;
      }
      entry := Some(e);
    }

    /** A release frees exactly the key it was acquired for, and forgets the entry when nobody else refers to it. */
    method Release(t: Thread, key: string, entry: EntryId)
      requires Inv(S()) && HoldsEntry(S(), t, entry) && threads[t].key == key
      modifies this
      ensures Inv(S()) && threads == old(threads) - {t}
      ensures forall u, k :: Holds(S(), u, k) <==> Holds(old(S()), u, k) && u != t
      ensures key in locks <==> exists u :: u in threads && threads[u].key == key
    {
      assert LockedBy(S(), entry, t);
      ReleasingKeepsInv(S(), t);
      forall u, k { ReleasingFreesItsKey(S(), t, u, k); }
      ReleasingForgets(S(), t);
      UnlockEntry(t, entry);
      ReleaseRef(t, key, entry);
    }
  }
}
