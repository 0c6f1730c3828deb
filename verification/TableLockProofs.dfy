/** The lock manager's invariant holds in every reachable state, and what follows from it. */
module TableLockProofs {
  import opened Wrappers
  import opened TableLocks

  // ----- One lemma per clause of the invariant and step -----

  /** The clauses that say which entry a map slot or a handle refers to. */
  ghost predicate ShapeInv(s: State) {
    MapInv(s) && HandleInv(s) && UserInv(s)
  }

  lemma LockForKeepsShape(s: State, h: HandleId, key: Key, newAddr: Addr)
    requires ShapeInv(s) && Enabled(s, LockFor(h, key, newAddr))
    ensures ShapeInv(Apply(s, LockFor(h, key, newAddr)))
  {
    if key !in s.locks {
      forall k | k in s.locks ensures s.locks[k] != newAddr { assert s.locks[k] in s.locks.Values; }
    }
  }

  lemma RemovalKeepsUsers(s: State, h: HandleId)
    requires ShapeInv(s) && CountInv(s) && Enabled(s, RemoveIfUnused(h))
    ensures UserInv(Apply(s, RemoveIfUnused(h)))
  {
    if Removes(s, h) {
      assert Users(s, s.handles[h].addr) == {};
    }
    var t := Apply(s, RemoveIfUnused(h));
    forall g | g in t.handles && Counted(t.handles[g].phase)
      ensures t.handles[g].key in t.locks && t.locks[t.handles[g].key] == t.handles[g].addr
    {
      assert g != h && t.handles[g] == s.handles[g];
      assert g in Users(s, s.handles[g].addr);
    }
  }

  lemma StepKeepsTargets(s: State, step: Step)
    requires MapInv(s) && HandleInv(s) && Enabled(s, step) && !step.LockFor?
    ensures MapInv(Apply(s, step)) && HandleInv(Apply(s, step))
  {
  }

  lemma StepKeepsShape(s: State, step: Step)
    requires ShapeInv(s) && CountInv(s) && Enabled(s, step)
    ensures ShapeInv(Apply(s, step))
  {
    if step.LockFor? {
      LockForKeepsShape(s, step.h, step.key, step.newAddr);
    } else {
      StepKeepsTargets(s, step);
      if step.RemoveIfUnused? {
        RemovalKeepsUsers(s, step.h);
      }
    }
  }

  lemma StepKeepsGeneration(s: State, step: Step)
    requires GenerationInv(s) && Enabled(s, step)
    ensures GenerationInv(Apply(s, step))
  {
  }

  lemma LockForKeepsCount(s: State, h: HandleId, key: Key, newAddr: Addr)
    requires CountInv(s) && Enabled(s, LockFor(h, key, newAddr))
    ensures CountInv(Apply(s, LockFor(h, key, newAddr)))
  {
    var t := Apply(s, LockFor(h, key, newAddr));
    var a := t.handles[h].addr;
    forall b | b in t.heap
      ensures t.heap[b].refCount == |Users(t, b)|
    {
      if b != a {
        assert Users(t, b) == Users(s, b);
      } else if key in s.locks {
        assert Users(t, b) == Users(s, b) + {h};
      } else {
        assert Users(t, b) == {h};
      }
    }
  }

  lemma FetchSubKeepsCount(s: State, h: HandleId)
    requires CountInv(s) && Enabled(s, FetchSub(h))
    ensures CountInv(Apply(s, FetchSub(h)))
  {
    var t := Apply(s, FetchSub(h));
    forall b | b in t.heap
      ensures t.heap[b].refCount == |Users(t, b)|
    {
      if b == s.handles[h].addr {
        assert h in Users(s, b);
        assert Users(t, b) == Users(s, b) - {h};
      } else {
        assert Users(t, b) == Users(s, b);
      }
    }
  }

  /** The other four steps move no handle in or out of any entry's users. */
  lemma StepKeepsUsers(s: State, step: Step, b: Addr)
    requires !step.LockFor? && !step.FetchSub? && Enabled(s, step)
    ensures Users(Apply(s, step), b) == Users(s, b)
  {
  }

  lemma StepKeepsCount(s: State, step: Step)
    requires CountInv(s) && Enabled(s, step)
    ensures CountInv(Apply(s, step))
  {
    match step
    case LockFor(h, key, newAddr) => LockForKeepsCount(s, h, key, newAddr);
    case FetchSub(h) => FetchSubKeepsCount(s, h);
    case _ =>
      forall b | b in s.heap { StepKeepsUsers(s, step, b); }
  }

  lemma StepKeepsHolder(s: State, step: Step)
    requires HandleInv(s) && HolderInv(s) && Enabled(s, step)
    ensures HolderInv(Apply(s, step))
  {
  }

  /** A pending dropper of another entry stays pending. */
  lemma PendingSurvives(s: State, step: Step, g: HandleId, a: Addr)
    requires Enabled(s, step) && PendingAt(s, g, a)
    requires !(step.RemoveIfUnused? && step.h == g)
    ensures PendingAt(Apply(s, step), g, a)
  {
  }

  lemma StepKeepsPending(s: State, step: Step)
    requires MapInv(s) && HandleInv(s) && CountInv(s) && PendingInv(s) && Enabled(s, step)
    requires MapInv(Apply(s, step))
    ensures PendingInv(Apply(s, step))
  {
    var t := Apply(s, step);
    forall k | k in t.locks && t.heap[t.locks[k]].refCount == 0
      ensures exists g :: PendingAt(t, g, t.locks[k])
    {
      if step.FetchSub? && s.handles[step.h].addr == t.locks[k] {
        assert PendingAt(t, step.h, t.locks[k]);
      } else {
        UntouchedEntry(s, step, k);
        var g :| PendingAt(s, g, s.locks[k]);
        PendingSurvives(s, step, g, s.locks[k]);
      }
    }
  }

  /** A key still mapped to a count of zero after the step was so before it, unless the step is
      the decrement that got it there; and it is not the key a removal just looked at. */
  lemma UntouchedEntry(s: State, step: Step, k: Key)
    requires MapInv(s) && HandleInv(s) && CountInv(s) && Enabled(s, step)
    requires var t := Apply(s, step); k in t.locks && t.locks[k] in t.heap && t.heap[t.locks[k]].refCount == 0
    requires !(step.FetchSub? && s.handles[step.h].addr == Apply(s, step).locks[k])
    ensures k in s.locks && s.locks[k] == Apply(s, step).locks[k] && s.heap[s.locks[k]].refCount == 0
    ensures step.RemoveIfUnused? ==> s.handles[step.h].addr != s.locks[k]
  {
    if step.LockFor? && step.key in s.locks {
      assert s.heap[s.locks[step.key]].refCount >= 0;
    }
  }

  lemma StepKeepsInv(s: State, step: Step)
    requires Inv(s) && Enabled(s, step)
    ensures Inv(Apply(s, step))
  {
    StepKeepsShape(s, step);
    StepKeepsGeneration(s, step);
    StepKeepsCount(s, step);
    StepKeepsHolder(s, step);
    StepKeepsPending(s, step);
  }

  lemma {:induction false} RunKeepsInv(s: State, steps: seq<Step>)
    requires Inv(s) && ValidRun(s, steps)
    ensures Inv(After(s, steps))
    decreases |steps|
  {
    if steps == [] {
    } else {
      StepKeepsInv(s, steps[0]);
      RunKeepsInv(Apply(s, steps[0]), steps[1..]);
    }
  }

  lemma {:induction false} Snoc(s: State, steps: seq<Step>, step: Step)
    requires ValidRun(s, steps) && Enabled(After(s, steps), step)
    ensures ValidRun(s, steps + [step])
    ensures After(s, steps + [step]) == Apply(After(s, steps), step)
    decreases |steps|
  {
    if steps == [] {
      assert steps + [step] == [step];
      assert ValidRun(Apply(s, step), []);
    } else {
      Snoc(Apply(s, steps[0]), steps[1..], step);
      assert (steps + [step])[1..] == steps[1..] + [step];
    }
  }

  // ----- What every run guarantees -----

  /** Two handles never hold guards for the same key at once: the entry of each is the one the
      map holds for the key, and that entry has one holder. */
  lemma MutualExclusion(steps: seq<Step>, g: HandleId, h: HandleId)
    requires ValidRun(INIT, steps)
    requires var s := After(INIT, steps); At(s, g, Holding) && At(s, h, Holding)
    requires var s := After(INIT, steps); s.handles[g].key == s.handles[h].key
    ensures g == h
  {
    RunKeepsInv(INIT, steps);
    HoldersAgree(After(INIT, steps), g, h);
  }

  lemma HoldersAgree(s: State, g: HandleId, h: HandleId)
    requires UserInv(s) && HolderInv(s)
    requires At(s, g, Holding) && At(s, h, Holding) && s.handles[g].key == s.handles[h].key
    ensures g == h
  {
    assert s.heap[s.handles[g].addr].holder == Some(g);
    assert s.heap[s.handles[h].addr].holder == Some(h);
  }

  /** The reference count of every entry is the number of handles not yet decremented, so a
      decrement always finds at least one and cannot underflow. */
  lemma RefCountIsExact(steps: seq<Step>)
    requires ValidRun(INIT, steps)
    ensures var s := After(INIT, steps);
            && (forall a | a in s.heap :: s.heap[a].refCount == |Users(s, a)|)
            && (forall h | Enabled(s, FetchSub(h)) :: s.heap[s.handles[h].addr].refCount >= 1)
  {
    RunKeepsInv(INIT, steps);
    var s := After(INIT, steps);
    forall h | Enabled(s, FetchSub(h))
      ensures s.heap[s.handles[h].addr].refCount >= 1
    {
      assert h in Users(s, s.handles[h].addr);
    }
  }

  /** Nothing leaks: each mapped key has a handle that is counted, or, when the count is zero,
      one that is about to remove it.  With no such handle left the map is empty. */
  lemma EveryMappedKeyHasAnOwner(steps: seq<Step>, k: Key) returns (h: HandleId)
    requires ValidRun(INIT, steps) && k in After(INIT, steps).locks
    ensures var s := After(INIT, steps);
            && h in s.handles && s.handles[h].key == k && s.handles[h].addr == s.locks[k]
            && !s.handles[h].phase.Leaving?
            && s.locks[k] in s.heap
            && (s.heap[s.locks[k]].refCount == 0 <==> s.handles[h].phase.Pending?)
  {
    RunKeepsInv(INIT, steps);
    var s := After(INIT, steps);
    var a := s.locks[k];
    if s.heap[a].refCount == 0 {
      h :| PendingAt(s, h, a);
    } else {
      assert Users(s, a) != {};
      h :| h in Users(s, a);
    }
  }

  lemma NoHandlesNoEntries(steps: seq<Step>)
    requires ValidRun(INIT, steps)
    requires forall h | h in After(INIT, steps).handles :: After(INIT, steps).handles[h].phase.Leaving?
    ensures After(INIT, steps).locks == map[]
  {
    var s := After(INIT, steps);
    if k :| k in s.locks {
      var h := EveryMappedKeyHasAnOwner(steps, k);
    }
  }

  /** Comparing addresses is sound although addresses are reused: a late dropper removes a slot
      exactly when that slot still holds the entry the handle was created on (not a later entry
      at the same address) and no counted handle for the key is left. */
  lemma RemovalIsExact(steps: seq<Step>, h: HandleId)
    requires ValidRun(INIT, steps) && Enabled(After(INIT, steps), RemoveIfUnused(h))
    ensures var s := After(INIT, steps);
            var t := Apply(s, RemoveIfUnused(h));
            var me := s.handles[h];
            && (forall k | k in s.locks && k != me.key :: k in t.locks && t.locks[k] == s.locks[k])
            && (me.key in s.locks ==>
                  && s.locks[me.key] in s.heap
                  && (me.key !in t.locks <==>
                        && s.heap[s.locks[me.key]].generation == me.generation
                        && forall g | g in s.handles && s.handles[g].key == me.key :: !Counted(s.handles[g].phase)))
  {
    RunKeepsInv(INIT, steps);
    var s := After(INIT, steps);
    var me := s.handles[h];
    if me.key in s.locks && s.locks[me.key] == me.addr {
      if g :| g in s.handles && s.handles[g].key == me.key && Counted(s.handles[g].phase) {
        assert g in Users(s, me.addr);
      } else {
        assert Users(s, me.addr) == {};
      }
    }
  }

  // ----- For use inside a larger machine -----

  /** Some run leads to `s`. */
  ghost predicate Reachable(s: State) {
    exists steps :: ValidRun(INIT, steps) && After(INIT, steps) == s
  }

  lemma InitIsReachable()
    ensures Reachable(INIT)
  {
    assert ValidRun(INIT, []) && After(INIT, []) == INIT;
  }

  lemma StepIsReachable(s: State, step: Step)
    requires Reachable(s) && Enabled(s, step)
    ensures Reachable(Apply(s, step))
  {
    var steps :| ValidRun(INIT, steps) && After(INIT, steps) == s;
    Snoc(INIT, steps, step);
  }

  lemma ReachableInv(s: State)
    requires Reachable(s)
    ensures Inv(s)
  {
    var steps :| ValidRun(INIT, steps) && After(INIT, steps) == s;
    RunKeepsInv(INIT, steps);
  }

  lemma ReachableExclusion(s: State, g: HandleId, h: HandleId)
    requires Reachable(s)
    requires At(s, g, Holding) && At(s, h, Holding) && s.handles[g].key == s.handles[h].key
    ensures g == h
  {
    var steps :| ValidRun(INIT, steps) && After(INIT, steps) == s;
    MutualExclusion(steps, g, h);
  }
}
