/**
 The per-table lock manager as a step machine.

 The map from table URI to lock entry, the reference-counted entries on the heap and every
 outstanding `TableLock` handle are one state.  A step is one atomic action of one handle:

 - `LockFor`        get-or-insert and increment, under the key's shard lock;
 - `Acquire`        the entry's mutex is granted to the handle;
 - `Release`        the guard is dropped;
 - `FetchSub`       the decrement at the start of `drop`, outside the shard lock;
 - `RemoveIfUnused` the compare-and-remove under the shard lock, reached only by the handle
                    whose decrement brought the count to zero;
 - `DropArc`        the handle gives up its reference to the entry.

 A handler future that is dropped at an await point performs exactly `Release` (if it holds the
 guard) and then `FetchSub`, so cancellation needs no step of its own.  Atomics are sequentially
 consistent.  An address may be handed out again as soon as neither a map slot nor a handle
 refers to it; `generation` tells two entries apart that had the same address at different times.
 */
module TableLocks {
  import opened Wrappers

  type Key = string
  type Addr = nat
  type HandleId = nat

  /** Live: counted.  Holding: counted and holding the guard.  Pending: brought the count to
      zero and has not yet run `RemoveIfUnused`.  Leaving: only the entry reference is left. */
  datatype Phase = Live | Holding | Pending | Leaving

  /** `refCount` and `holder` are the entry's own fields; `key` and `generation` are history. */
  datatype LockEntry = LockEntry(refCount: int, holder: Option<HandleId>, key: Key, generation: nat)

  datatype Handle = Handle(key: Key, addr: Addr, generation: nat, phase: Phase)

  datatype State = State(
    locks: map<Key, Addr>,
    heap: map<Addr, LockEntry>,
    handles: map<HandleId, Handle>,
    allocations: nat)

  datatype Step =
    | LockFor(h: HandleId, key: Key, newAddr: Addr)
    | Acquire(h: HandleId)
    | Release(h: HandleId)
    | FetchSub(h: HandleId)
    | RemoveIfUnused(h: HandleId)
    | DropArc(h: HandleId)

  const INIT := State(map[], map[], map[], 0)

  // ----- The machine -----

  predicate Referenced(s: State, a: Addr) {
    a in s.locks.Values || exists h | h in s.handles :: s.handles[h].addr == a
  }

  /** `h` is an outstanding handle in phase `p` whose entry is on the heap. */
  predicate At(s: State, h: HandleId, p: Phase) {
    h in s.handles && s.handles[h].phase == p && s.handles[h].addr in s.heap
  }

  predicate Enabled(s: State, step: Step) {
    match step
    case LockFor(h, key, newAddr) =>
      && h !in s.handles
      && (if key in s.locks then s.locks[key] in s.heap else !Referenced(s, newAddr))
    case Acquire(h) => At(s, h, Live) && s.heap[s.handles[h].addr].holder.None?
    case Release(h) => At(s, h, Holding)
    case FetchSub(h) => At(s, h, Live)
    case RemoveIfUnused(h) => At(s, h, Pending)
    case DropArc(h) => At(s, h, Leaving)
  }

  /** The guard of the removal: pointer equality and a zero count, read under the shard lock. */
  predicate Removes(s: State, h: HandleId)
    requires At(s, h, Pending)
  {
    var me := s.handles[h];
    me.key in s.locks && s.locks[me.key] == me.addr && s.heap[me.addr].refCount == 0
  }

  function WithPhase(s: State, h: HandleId, p: Phase): map<HandleId, Handle>
    requires h in s.handles
  {
    s.handles[h := s.handles[h].(phase := p)]
  }

  function Apply(s: State, step: Step): State
    requires Enabled(s, step)
  {
    match step
    case LockFor(h, key, newAddr) =>
      if key in s.locks then
        var a := s.locks[key];
        var e := s.heap[a];
        s.(heap := s.heap[a := e.(refCount := e.refCount + 1)],
           handles := s.handles[h := Handle(key, a, e.generation, Live)])
      else
        s.(locks := s.locks[key := newAddr],
           heap := s.heap[newAddr := LockEntry(1, None, key, s.allocations)],
           handles := s.handles[h := Handle(key, newAddr, s.allocations, Live)],
           allocations := s.allocations + 1)
    case Acquire(h) =>
      var a := s.handles[h].addr;
      s.(heap := s.heap[a := s.heap[a].(holder := Some(h))], handles := WithPhase(s, h, Holding))
    case Release(h) =>
      var a := s.handles[h].addr;
      s.(heap := s.heap[a := s.heap[a].(holder := None)], handles := WithPhase(s, h, Live))
    case FetchSub(h) =>
      var a := s.handles[h].addr;
      var before := s.heap[a].refCount;
      s.(heap := s.heap[a := s.heap[a].(refCount := before - 1)],
         handles := WithPhase(s, h, if before == 1 then Pending else Leaving))
    case RemoveIfUnused(h) =>
      s.(locks := if Removes(s, h) then s.locks - {s.handles[h].key} else s.locks,
         handles := WithPhase(s, h, Leaving))
    case DropArc(h) =>
      s.(handles := s.handles - {h})
  }

  /** The steps can be taken one after the other from `s`. */
  predicate ValidRun(s: State, steps: seq<Step>)
    decreases |steps|
  {
    steps != [] ==> Enabled(s, steps[0]) && ValidRun(Apply(s, steps[0]), steps[1..])
  }

  function After(s: State, steps: seq<Step>): State
    requires ValidRun(s, steps)
    decreases |steps|
  {
    if steps == [] then s else After(Apply(s, steps[0]), steps[1..])
  }

  // ----- The invariant -----

  /** A handle that has not been decremented yet. */
  predicate Counted(p: Phase) {
    p.Live? || p.Holding?
  }

  function Users(s: State, a: Addr): set<HandleId> {
    set h | h in s.handles && s.handles[h].addr == a && Counted(s.handles[h].phase)
  }

  ghost predicate MapInv(s: State) {
    forall k | k in s.locks :: s.locks[k] in s.heap && s.heap[s.locks[k]].key == k
  }

  ghost predicate HandleInv(s: State) {
    forall h | h in s.handles ::
      var me := s.handles[h];
      me.addr in s.heap && s.heap[me.addr].key == me.key && s.heap[me.addr].generation == me.generation
  }

  /** Every counted handle's entry is the one the map holds for its key. */
  ghost predicate UserInv(s: State) {
    forall h | h in s.handles && Counted(s.handles[h].phase) ::
      s.handles[h].key in s.locks && s.locks[s.handles[h].key] == s.handles[h].addr
  }

  ghost predicate CountInv(s: State) {
    forall a | a in s.heap :: s.heap[a].refCount == |Users(s, a)|
  }

  ghost predicate HolderInv(s: State) {
    && (forall a | a in s.heap && s.heap[a].holder.Some? ::
          var h := s.heap[a].holder.value;
          h in s.handles && s.handles[h].addr == a && s.handles[h].phase == Holding)
    && (forall h | h in s.handles && s.handles[h].phase == Holding ::
          s.handles[h].addr in s.heap && s.heap[s.handles[h].addr].holder == Some(h))
  }

  ghost predicate PendingAt(s: State, h: HandleId, a: Addr) {
    h in s.handles && s.handles[h].phase == Pending && s.handles[h].addr == a
  }

  /** A mapped entry nobody counts on is always about to be removed by someone. */
  ghost predicate PendingInv(s: State) {
    forall k | k in s.locks && s.locks[k] in s.heap && s.heap[s.locks[k]].refCount == 0 ::
      exists h :: PendingAt(s, h, s.locks[k])
  }

  ghost predicate GenerationInv(s: State) {
    && (forall a | a in s.heap :: s.heap[a].generation < s.allocations)
    && (forall a, b | a in s.heap && b in s.heap && a != b :: s.heap[a].generation != s.heap[b].generation)
  }

  ghost predicate Inv(s: State) {
    && MapInv(s)
    && HandleInv(s)
    && UserInv(s)
    && CountInv(s)
    && HolderInv(s)
    && PendingInv(s)
    && GenerationInv(s)
  }
}
