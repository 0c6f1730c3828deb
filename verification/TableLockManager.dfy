/**
 The lock manager as the object it is: each atomic action is a method that updates the fields in
 place.  `trace` is the history of calls, and `Valid` says that this history is a run of the step
 machine that ends in the object's fields, so whatever `TableLockProofs` says about runs holds
 after any interleaving of calls on one manager.
 */
module TableLockManagers {
  import opened Wrappers
  import opened TableLocks
  import opened TableLockProofs

  class TableLockManager {
    var locks: map<Key, Addr>
    var heap: map<Addr, LockEntry>
    var handles: map<HandleId, Handle>
    var allocations: nat
    ghost var trace: seq<Step>

    ghost function Model(): State
      reads this
    {
      State(locks, heap, handles, allocations)
    }

    ghost predicate Valid()
      reads this
    {
      ValidRun(INIT, trace) && After(INIT, trace) == Model()
    }

    constructor ()
      ensures Valid() && trace == []
    {
      locks, heap, handles, allocations, trace := map[], map[], map[], 0, [];
    }

    /** `newAddr` is the address the allocator would hand out; it is used only if the key has no
        entry yet. */
    method LockFor(h: HandleId, key: Key, newAddr: Addr)
      requires Valid() && h !in handles && !Referenced(Model(), newAddr)
      modifies this
      ensures Valid() && trace == old(trace) + [TableLocks.LockFor(h, key, newAddr)]
      ensures h in handles && handles[h].key == key && handles[h].phase == Live
      ensures key in locks && locks[key] == handles[h].addr
    {
      EntriesExist(trace, Model());
      ghost var step := TableLocks.LockFor(h, key, newAddr);
      Snoc(INIT, trace, step);
      var a, entry := newAddr, LockEntry(0, None, key, allocations);
      if key in locks {
        a, entry := locks[key], heap[locks[key]];
      } else {
        locks, allocations := locks[key := newAddr], allocations + 1;
      }
      heap := heap[a := entry.(refCount := entry.refCount + 1)];
      handles := handles[h := Handle(key, a, entry.generation, Live)];
      trace := trace + [step];
    }

    /** Grants the entry's mutex if it is free; a caller that is not granted keeps waiting.  The
        guard is granted exactly when no handle for the same key has one. */
    method TryLock(h: HandleId) returns (granted: bool)
      requires Valid() && h in handles && handles[h].phase == Live
      modifies this
      ensures Valid() && trace == if granted then old(trace) + [Acquire(h)] else old(trace)
      ensures granted <==> forall g | g in old(handles) && old(handles)[g].key == old(handles)[h].key ::
                             old(handles)[g].phase != Holding
      ensures granted ==> h in handles && handles[h].phase == Holding
    {
      EntriesExist(trace, Model());
      var a := handles[h].addr;
      granted := heap[a].holder.None?;
      FreeMutex(trace, Model(), h);
      if granted {
        Snoc(INIT, trace, Acquire(h));
        heap := heap[a := heap[a].(holder := Some(h))];
        handles := handles[h := handles[h].(phase := Holding)];
        trace := trace + [Acquire(h)];
      }
    }

    method Unlock(h: HandleId)
      requires Valid() && h in handles && handles[h].phase == Holding
      modifies this
      ensures Valid() && trace == old(trace) + [Release(h)]
    {
      EntriesExist(trace, Model());
      Snoc(INIT, trace, Release(h));
      var a := handles[h].addr;
      heap := heap[a := heap[a].(holder := None)];
      handles := handles[h := handles[h].(phase := Live)];
      trace := trace + [Release(h)];
    }

    /** The first half of `drop`: `last` tells the caller to go on to `RemoveUnused`; it is set
        exactly when no counted handle for the key is left. */
    method Decrement(h: HandleId) returns (last: bool)
      requires Valid() && h in handles && handles[h].phase == Live
      modifies this
      ensures Valid() && trace == old(trace) + [FetchSub(h)]
      ensures h in handles && handles[h].phase == if last then Pending else Leaving
      ensures last <==> forall g | g in handles && handles[g].key == handles[h].key :: !Counted(handles[g].phase)
    {
      EntriesExist(trace, Model());
      ghost var next := Apply(Model(), FetchSub(h));
      Snoc(INIT, trace, FetchSub(h));
      LastMeansNoUsers(trace, Model(), h);
      var a := handles[h].addr;
      last := heap[a].refCount == 1;
      heap := heap[a := heap[a].(refCount := heap[a].refCount - 1)];
      handles := handles[h := handles[h].(phase := if last then Pending else Leaving)];
      trace := trace + [FetchSub(h)];
      assert Model() == next;
    }

    /** The second half: the slot goes exactly when it still holds this handle's own entry and no
        counted handle for the key is left (see `RemovalIsExact`). */
    method RemoveUnused(h: HandleId) returns (removed: bool)
      requires Valid() && h in handles && handles[h].phase == Pending
      modifies this
      ensures Valid() && trace == old(trace) + [RemoveIfUnused(h)]
      ensures removed <==> locks != old(locks)
    {
      EntriesExist(trace, Model());
      Snoc(INIT, trace, RemoveIfUnused(h));
      var me := handles[h];
      removed := me.key in locks && locks[me.key] == me.addr && heap[me.addr].refCount == 0;
      if removed {
        locks := locks - {me.key};
        assert me.key !in locks;
      }
      handles := handles[h := me.(phase := Leaving)];
      trace := trace + [RemoveIfUnused(h)];
    }

    /** The entry reference goes last; its address may be reused once nothing refers to it. */
    method DropEntry(h: HandleId)
      requires Valid() && h in handles && handles[h].phase == Leaving
      modifies this
      ensures Valid() && trace == old(trace) + [DropArc(h)]
    {
      EntriesExist(trace, Model());
      Snoc(INIT, trace, DropArc(h));
      handles := handles - {h};
      trace := trace + [DropArc(h)];
    }
  }

  lemma EntriesExist(steps: seq<Step>, s: State)
    requires ValidRun(INIT, steps) && After(INIT, steps) == s
    ensures forall k | k in s.locks :: s.locks[k] in s.heap
    ensures forall h | h in s.handles :: s.handles[h].addr in s.heap
  {
    RunKeepsInv(INIT, steps);
  }

  /** A live handle finds its mutex free exactly when no handle for the key holds a guard. */
  lemma {:induction false} FreeMutex(steps: seq<Step>, s: State, h: HandleId)
    requires ValidRun(INIT, steps) && After(INIT, steps) == s && At(s, h, Live)
    ensures s.heap[s.handles[h].addr].holder.None? <==>
            forall g | g in s.handles && s.handles[g].key == s.handles[h].key :: s.handles[g].phase != Holding
  {
    RunKeepsInv(INIT, steps);
    var holder := s.heap[s.handles[h].addr].holder;
    if holder.Some? {
      assert s.handles[holder.value].phase == Holding;
    }
  }

  /** A count of one before the decrement and no counted handle for the key after it are the same. */
  lemma {:induction false} LastMeansNoUsers(steps: seq<Step>, s: State, h: HandleId)
    requires ValidRun(INIT, steps) && After(INIT, steps) == s && Enabled(s, FetchSub(h))
    ensures var t := Apply(s, FetchSub(h));
            s.heap[s.handles[h].addr].refCount == 1 <==>
            forall g | g in t.handles && t.handles[g].key == t.handles[h].key :: !Counted(t.handles[g].phase)
  {
    RunKeepsInv(INIT, steps);
    DecrementToZero(s, h);
  }

  lemma DecrementToZero(s: State, h: HandleId)
    requires UserInv(s) && CountInv(s) && Enabled(s, FetchSub(h))
    requires forall g | g in s.handles && s.handles[g].addr == s.handles[h].addr :: s.handles[g].key == s.handles[h].key
    ensures var t := Apply(s, FetchSub(h));
            s.heap[s.handles[h].addr].refCount == 1 <==>
            forall g | g in t.handles && t.handles[g].key == t.handles[h].key :: !Counted(t.handles[g].phase)
  {
    var t := Apply(s, FetchSub(h));
    var a := s.handles[h].addr;
    assert Users(s, a) == Users(t, a) + {h};
    if g :| g in t.handles && t.handles[g].key == t.handles[h].key && Counted(t.handles[g].phase) {
      assert g in Users(t, a);
    } else {
      assert Users(t, a) == {};
    }
  }
}
