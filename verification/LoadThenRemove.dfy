/**
 The earlier design of the removal, kept as a contrast: reading the count and removing the slot
 are two steps, neither compares the entry, and a `lock_for` can run in between.  The invariant
 of `TableLockProofs` is what the single shard-locked step buys: here a run reaches two holders.
 */
module LoadThenRemove {
  import opened Wrappers
  import opened TableLocks

  /** `condemned`: pending handles that have read a zero count and will remove their key. */
  datatype OldState = OldState(now: State, condemned: set<HandleId>)

  datatype OldStep =
    | Same(step: Step)
    | LoadZero(h: HandleId)
    | RemoveKey(h: HandleId)

  predicate OldEnabled(s: OldState, step: OldStep) {
    match step
    case Same(st) => !st.RemoveIfUnused? && Enabled(s.now, st)
    case LoadZero(h) => At(s.now, h, Pending) && s.now.heap[s.now.handles[h].addr].refCount == 0
    case RemoveKey(h) => h in s.condemned && h in s.now.handles
  }

  function OldApply(s: OldState, step: OldStep): OldState
    requires OldEnabled(s, step)
  {
    match step
    case Same(st) => s.(now := Apply(s.now, st))
    case LoadZero(h) => s.(condemned := s.condemned + {h})
    case RemoveKey(h) =>
      OldState(s.now.(locks := s.now.locks - {s.now.handles[h].key}, handles := WithPhase(s.now, h, Leaving)),
               s.condemned - {h})
  }

  ghost predicate OldReachable(s: OldState, steps: seq<OldStep>)
    decreases |steps|
  {
    if steps == [] then s == OldState(INIT, {})
    else
      var last := |steps| - 1;
      exists r :: OldReachable(r, steps[..last]) && OldEnabled(r, steps[last]) && OldApply(r, steps[last]) == s
  }

  lemma Extend(r: OldState, steps: seq<OldStep>, step: OldStep) returns (s: OldState, more: seq<OldStep>)
    requires OldReachable(r, steps) && OldEnabled(r, step)
    ensures more == steps + [step] && s == OldApply(r, step) && OldReachable(s, more)
  {
    s, more := OldApply(r, step), steps + [step];
    assert more[..|steps|] == steps;
  }

  lemma ReadsZero(key: Key) returns (s: OldState, steps: seq<OldStep>)
    ensures OldReachable(s, steps)
    ensures s.now.locks == map[key := 100]
    ensures s.now.heap == map[100 := LockEntry(0, None, key, 0)]
    ensures s.now.handles == map[0 := Handle(key, 100, 0, Pending)]
    ensures s.condemned == {0}
  {
    s, steps := OldState(INIT, {}), [];
    s, steps := Extend(s, steps, Same(LockFor(0, key, 100)));
    s, steps := Extend(s, steps, Same(FetchSub(0)));
    s, steps := Extend(s, steps, LoadZero(0));
  }

  /** Handle 1 resurrects the entry that handle 0 has condemned. */
  lemma Resurrected(key: Key) returns (s: OldState, steps: seq<OldStep>)
    ensures OldReachable(s, steps)
    ensures s.now.locks == map[key := 100]
    ensures s.now.heap == map[100 := LockEntry(1, None, key, 0)]
    ensures s.now.handles == map[0 := Handle(key, 100, 0, Pending), 1 := Handle(key, 100, 0, Live)]
    ensures s.condemned == {0}
  {
    s, steps := ReadsZero(key);
    s, steps := Extend(s, steps, Same(LockFor(1, key, 100)));
  }

  /** Handle 0 then removes the key: a counted handle is left whose entry the map no longer holds. */
  lemma LiveHandleIsEvicted(key: Key) returns (s: OldState, steps: seq<OldStep>)
    ensures OldReachable(s, steps)
    ensures s.now.locks == map[]
    ensures s.now.heap == map[100 := LockEntry(1, None, key, 0)]
    ensures s.now.handles == map[0 := Handle(key, 100, 0, Leaving), 1 := Handle(key, 100, 0, Live)]
  {
    s, steps := Resurrected(key);
    s, steps := Extend(s, steps, RemoveKey(0));
    assert s.now.locks == map[];
  }

  /** Handle 2 then gets a second entry for the same key. */
  lemma SecondEntry(key: Key) returns (s: OldState, steps: seq<OldStep>)
    ensures OldReachable(s, steps)
    ensures At(s.now, 1, Live) && s.now.handles[1].key == key && s.now.handles[1].addr == 100
    ensures At(s.now, 2, Live) && s.now.handles[2].key == key && s.now.handles[2].addr == 200
    ensures s.now.heap.Keys == {100, 200} && s.now.heap[100].holder.None? && s.now.heap[200].holder.None?
  {
    s, steps := LiveHandleIsEvicted(key);
    s, steps := Extend(s, steps, Same(LockFor(2, key, 200)));
  }

  /** And both 1 and 2 are granted "the" lock of the key. */
  lemma TwoHoldersOfOneKey(key: Key) returns (s: OldState, steps: seq<OldStep>)
    ensures OldReachable(s, steps)
    ensures At(s.now, 1, Holding) && At(s.now, 2, Holding)
    ensures s.now.handles[1].key == s.now.handles[2].key == key
  {
    s, steps := SecondEntry(key);
    s, steps := Extend(s, steps, Same(Acquire(1)));
    s, steps := Extend(s, steps, Same(Acquire(2)));
  }
}
