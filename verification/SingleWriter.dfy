/**
 The commit protocol when one process is the only writer and every put finishes before the lock
 it was issued under is released.  The lock's mutual exclusion then turns the optimistic check
 into an exact one.
 */
module SingleWriter {
  import opened Wrappers
  import opened Actions
  import opened CommitProtocol
  import opened CommitSafety
  import L = TableLocks
  import P = TableLockProofs

  /** The step keeps to the assumption: all requests arrive at one replica, nobody else appends,
      and no guard is released while the put it protects may still land. */
  predicate Sole(s: State, step: Step) {
    match step
    case Arrive(_, replica, _, _, _, _) => replica == 0
    case External(_, _) => false
    case Unwind(id, lock) => lock.Release? && id in s.reqs ==> !InFlight(s.reqs[id])
    case _ => true
  }

  predicate SoleRun(accepts: Accepts, s: State, steps: seq<Step>)
    requires ValidRun(accepts, s, steps)
    decreases |steps|
  {
    steps != [] ==> Sole(s, steps[0]) && SoleRun(accepts, Apply(accepts, s, steps[0]), steps[1..])
  }

  // ----- The invariant -----

  /** Inside the critical section, or with the put it issued there still open. */
  predicate Critical(q: Request) {
    q.pc.Locked? || q.pc.Existing? || q.pc.Opened? || InFlight(q)
  }

  ghost predicate Holds(s: State, id: RequestId, phase: L.Phase) {
    && id in s.reqs && 0 in s.locks
    && L.At(s.locks[0], id, phase) && s.locks[0].handles[id].key == s.reqs[id].table
  }

  /** Which handle a request has follows from where it is. */
  ghost predicate HandleOk(s: State, id: RequestId)
    requires id in s.reqs
  {
    var q := s.reqs[id];
    && q.replica == 0 && 0 in s.locks
    && (q.pc.Arrived? ==> id !in s.locks[0].handles)
    && (q.pc.Waiting? ==> Holds(s, id, L.Live))
    && (Critical(q) ==> Holds(s, id, L.Holding))
  }

  ghost predicate HandlesOk(s: State) {
    forall id | id in s.reqs :: HandleOk(s, id)
  }

  /** What the critical request last read is still the whole truth about the log. */
  ghost predicate Fresh(q: Request, log: seq<Entry>) {
    && (q.pc.Opened? ==> |log| == q.pc.base + 1)
    && (InFlight(q) && q.put.CreatePut? ==> log == [])
    && (InFlight(q) && q.put.AppendPut? ==> |log| == q.put.base + 1)
  }

  /** A landed put landed right behind its base. */
  ghost predicate Exact(q: Request) {
    && (q.landed.Some? && q.put.CreatePut? ==> q.landed.value == 0)
    && (q.landed.Some? && q.put.AppendPut? ==> q.landed.value == q.put.base + 1)
  }

  ghost predicate FreshOk(s: State) {
    forall id | id in s.reqs :: Fresh(s.reqs[id], Log(s, s.reqs[id].table)) && Exact(s.reqs[id])
  }

  ghost predicate LocksOk(s: State) {
    0 in s.locks && P.Reachable(s.locks[0])
  }

  /** Every handle belongs to a request. */
  ghost predicate OwnersOk(s: State) {
    0 in s.locks && forall h | h in s.locks[0].handles :: h in s.reqs
  }

  ghost predicate SoleInv(s: State) {
    LocksOk(s) && OwnersOk(s) && HandlesOk(s) && FreshOk(s)
  }

  /** Two critical requests for one table are the same request. */
  lemma OneCriticalPerTable(s: State, g: RequestId, h: RequestId)
    requires LocksOk(s) && HandlesOk(s)
    requires g in s.reqs && h in s.reqs && Critical(s.reqs[g]) && Critical(s.reqs[h])
    requires s.reqs[g].table == s.reqs[h].table
    ensures g == h
  {
    assert HandleOk(s, g) && HandleOk(s, h);
    P.ReachableExclusion(s.locks[0], g, h);
  }

  // ----- Locks and handles -----

  /** The lock action a protocol step performs, if any. */
  function LockAction(s: State, step: Step): Option<L.Step> {
    match step
    case Begin(id, newAddr) =>
      if id in s.reqs && s.reqs[id].replica in s.allowlists
         && Validate(s.reqs[id], s.allowlists[s.reqs[id].replica]).Ok?
      then Some(L.LockFor(id, Validate(s.reqs[id], s.allowlists[s.reqs[id].replica]).value.0, newAddr))
      else None
    case Acquire(id) => Some(L.Acquire(id))
    case Unwind(_, lock) => Some(lock)
    case _ => None
  }

  lemma LockFrame(accepts: Accepts, s: State, step: Step)
    requires Enabled(accepts, s, step) && 0 in s.locks
    requires !step.External? && !step.Arrive? ==> step.id in s.reqs && s.reqs[step.id].replica == 0
    ensures var t := Apply(accepts, s, step);
            var a := LockAction(s, step);
            && (a.None? ==> t.locks == s.locks)
            && (a.Some? ==> L.Enabled(s.locks[0], a.value) && t.locks == s.locks[0 := L.Apply(s.locks[0], a.value)])
  {
  }

  lemma StepKeepsLocks(accepts: Accepts, s: State, step: Step)
    requires LocksOk(s) && HandlesOk(s) && Enabled(accepts, s, step)
    ensures LocksOk(Apply(accepts, s, step))
  {
    assert !step.External? && !step.Arrive? ==> HandleOk(s, step.id);
    LockFrame(accepts, s, step);
    if LockAction(s, step).Some? {
      P.StepIsReachable(s.locks[0], LockAction(s, step).value);
    }
  }

  /** A lock action of one handle leaves every other handle alone. */
  lemma OtherHandleKept(s: L.State, step: L.Step, h: L.HandleId, phase: L.Phase)
    requires L.Enabled(s, step) && step.h != h
    ensures h in L.Apply(s, step).handles <==> h in s.handles
    ensures L.At(s, h, phase) ==> L.At(L.Apply(s, step), h, phase) && L.Apply(s, step).handles[h] == s.handles[h]
  {
  }

  lemma OthersKeepHandles(accepts: Accepts, s: State, step: Step, h: RequestId)
    requires Enabled(accepts, s, step) && HandlesOk(s) && h in s.reqs
    requires step.External? || step.id != h
    ensures h in Apply(accepts, s, step).reqs && HandleOk(Apply(accepts, s, step), h)
  {
    assert HandleOk(s, h);
    assert !step.External? && !step.Arrive? ==> HandleOk(s, step.id);
    LockFrame(accepts, s, step);
    StepFrame(accepts, s, step);
    if LockAction(s, step).Some? {
      var a := LockAction(s, step).value;
      OtherHandleKept(s.locks[0], a, h, L.Live);
      OtherHandleKept(s.locks[0], a, h, L.Holding);
    }
  }

  /** A step that does not touch the locks leaves a request in the section it was in. */
  lemma OwnHandleKept(accepts: Accepts, s: State, step: Step)
    requires Enabled(accepts, s, step) && Sole(s, step) && LockAction(s, step).None? && !step.External?
    requires if step.id in s.reqs then HandleOk(s, step.id) else 0 in s.locks && step.id !in s.locks[0].handles
    ensures HandleOk(Apply(accepts, s, step), step.id)
  {
    LockFrame(accepts, s, step);
    assert step.id in s.reqs && !step.Reject? ==>
             Apply(accepts, s, step).reqs[step.id].table == s.reqs[step.id].table;
  }

  lemma OwnHandleMoves(accepts: Accepts, s: State, step: Step)
    requires Enabled(accepts, s, step) && Sole(s, step) && LockAction(s, step).Some?
    requires step.id in s.reqs && HandleOk(s, step.id)
    ensures HandleOk(Apply(accepts, s, step), step.id)
  {
    LockFrame(accepts, s, step);
  }

  lemma OwnHandle(accepts: Accepts, s: State, step: Step)
    requires Enabled(accepts, s, step) && Sole(s, step) && !step.External?
    requires if step.id in s.reqs then HandleOk(s, step.id) else 0 in s.locks && step.id !in s.locks[0].handles
    ensures HandleOk(Apply(accepts, s, step), step.id)
  {
    if LockAction(s, step).None? {
      OwnHandleKept(accepts, s, step);
    } else {
      OwnHandleMoves(accepts, s, step);
    }
  }

  lemma StepKeepsHandles(accepts: Accepts, s: State, step: Step)
    requires Enabled(accepts, s, step) && Sole(s, step)
    requires HandlesOk(s) && OwnersOk(s)
    ensures HandlesOk(Apply(accepts, s, step))
  {
    var t := Apply(accepts, s, step);
    StepFrame(accepts, s, step);
    forall h | h in t.reqs
      ensures HandleOk(t, h)
    {
      if h == step.id {
        assert h in s.reqs ==> HandleOk(s, h);
        OwnHandle(accepts, s, step);
      } else {
        OthersKeepHandles(accepts, s, step, h);
      }
    }
  }

  lemma StepKeepsOwners(accepts: Accepts, s: State, step: Step)
    requires Enabled(accepts, s, step) && Sole(s, step) && HandlesOk(s) && OwnersOk(s)
    ensures OwnersOk(Apply(accepts, s, step))
  {
    assert !step.Arrive? ==> HandleOk(s, step.id);
    LockFrame(accepts, s, step);
    StepFrame(accepts, s, step);
    if LockAction(s, step).Some? {
      HandlesAfterLockStep(s.locks[0], LockAction(s, step).value);
    }
  }

  lemma HandlesAfterLockStep(s: L.State, step: L.Step)
    requires L.Enabled(s, step)
    ensures L.Apply(s, step).handles.Keys <= s.handles.Keys + {step.h}
  {
  }

  // ----- Freshness -----

  /** The log of a table changes only by the landing of a critical request's own put. */
  lemma WhoAppends(accepts: Accepts, s: State, step: Step, t: Table)
    requires Enabled(accepts, s, step) && Sole(s, step)
    requires Log(Apply(accepts, s, step), t) != Log(s, t)
    ensures step.FinishPut? || step.LateFinish?
    ensures step.id in s.reqs && InFlight(s.reqs[step.id]) && s.reqs[step.id].table == t
  {
  }

  lemma OthersStayFresh(accepts: Accepts, s: State, step: Step, h: RequestId)
    requires Enabled(accepts, s, step) && Sole(s, step) && SoleInv(s)
    requires h in s.reqs && step.id != h
    ensures var t := Apply(accepts, s, step);
            h in t.reqs && Fresh(t.reqs[h], Log(t, t.reqs[h].table)) && Exact(t.reqs[h])
  {
    StepFrame(accepts, s, step);
    var t := Apply(accepts, s, step);
    var q := s.reqs[h];
    if Log(t, q.table) != Log(s, q.table) {
      WhoAppends(accepts, s, step, q.table);
      if Critical(q) {
        OneCriticalPerTable(s, step.id, h);
      }
    }
  }

  lemma StepperStaysFresh(accepts: Accepts, s: State, step: Step)
    requires Enabled(accepts, s, step) && Sole(s, step) && !step.External?
    requires step.id in s.reqs ==>
               var q := s.reqs[step.id];
               && Fresh(q, Log(s, q.table)) && Exact(q)
               && RequestOk(accepts, step.id, q, Log(s, q.table))
    ensures var q := Apply(accepts, s, step).reqs[step.id];
            Fresh(q, Log(Apply(accepts, s, step), q.table)) && Exact(q)
  {
  }

  lemma StepKeepsFresh(accepts: Accepts, s: State, step: Step)
    requires Enabled(accepts, s, step) && Sole(s, step) && SoleInv(s) && RequestsOk(accepts, s)
    ensures FreshOk(Apply(accepts, s, step))
  {
    var t := Apply(accepts, s, step);
    StepFrame(accepts, s, step);
    forall h | h in t.reqs
      ensures Fresh(t.reqs[h], Log(t, t.reqs[h].table)) && Exact(t.reqs[h])
    {
      if h == step.id {
        StepperStaysFresh(accepts, s, step);
      } else {
        OthersStayFresh(accepts, s, step, h);
      }
    }
  }

  lemma {:induction false} StepKeepsSoleInv(accepts: Accepts, s: State, step: Step)
    requires Enabled(accepts, s, step) && Sole(s, step) && SoleInv(s) && RequestsOk(accepts, s)
    ensures SoleInv(Apply(accepts, s, step))
  {
    StepKeepsLocks(accepts, s, step);
    StepKeepsOwners(accepts, s, step);
    StepKeepsHandles(accepts, s, step);
    StepKeepsFresh(accepts, s, step);
  }

  lemma {:induction false} SoleRunKeepsInv(accepts: Accepts, s: State, steps: seq<Step>)
    requires Inv(accepts, s) && SoleInv(s) && ValidRun(accepts, s, steps) && SoleRun(accepts, s, steps)
    ensures Inv(accepts, After(accepts, s, steps)) && SoleInv(After(accepts, s, steps))
    decreases |steps|
  {
    if steps == [] {
    } else {
      StepKeepsSoleInv(accepts, s, steps[0]);
      StepKeepsRequests(accepts, s, steps[0]);
      StepKeepsValidated(accepts, s, steps[0]);
      SoleRunKeepsInv(accepts, Apply(accepts, s, steps[0]), steps[1..]);
    }
  }

  lemma SoleInvOfRun(accepts: Accepts, s0: State, steps: seq<Step>)
    requires Init(s0) && 0 in s0.locks && ValidRun(accepts, s0, steps) && SoleRun(accepts, s0, steps)
    ensures Inv(accepts, After(accepts, s0, steps)) && SoleInv(After(accepts, s0, steps))
  {
    InitIsInv(accepts, s0);
    P.InitIsReachable();
    SoleRunKeepsInv(accepts, s0, steps);
  }

  // ----- What every such run guarantees -----

  /** No lost updates: a commit that expected version `e` and was told `v` is at exactly `e + 1`,
      with exactly its mapped actions. */
  lemma {:induction false} NoLostUpdates(accepts: Accepts, s0: State, steps: seq<Step>, id: RequestId, v: nat)
    requires Init(s0) && 0 in s0.locks && ValidRun(accepts, s0, steps) && SoleRun(accepts, s0, steps)
    requires var s := After(accepts, s0, steps); Answered(s, id, Committed(v)) && s.reqs[id].expected.Some?
    ensures var s := After(accepts, s0, steps);
            var q := s.reqs[id];
            && v == q.expected.value + 1
            && v < |Log(s, q.table)| && Log(s, q.table)[v] == Entry(Some(id), q.actions)
            && MapActions(q.wire) == Ok(q.actions)
  {
    SoleInvOfRun(accepts, s0, steps);
    var s := After(accepts, s0, steps);
    var q := s.reqs[id];
    assert RequestOk(accepts, id, q, Log(s, q.table));
    assert RequestValidated(q, s.allowlists);
    assert Exact(q);
  }

  /** A create race cannot be lost: ABORTED always answers an expected version, and always means
      that nothing was appended. */
  lemma {:induction false} NoLostCreateRace(accepts: Accepts, s0: State, steps: seq<Step>, id: RequestId, e: int,
                                            a: nat)
    requires Init(s0) && 0 in s0.locks && ValidRun(accepts, s0, steps) && SoleRun(accepts, s0, steps)
    requires Answered(After(accepts, s0, steps), id, Aborted(e, a))
    ensures var s := After(accepts, s0, steps);
            && s.reqs[id].expected == Some(e)
            && forall t, w | 0 <= w < |Log(s, t)| :: Log(s, t)[w].author != Some(id)
  {
    SoleInvOfRun(accepts, s0, steps);
    var s := After(accepts, s0, steps);
    var q := s.reqs[id];
    assert RequestOk(accepts, id, q, Log(s, q.table));
    assert Exact(q);
    OwnEntries(accepts, s, id);
  }

  /** Any number of requests may wait for a table, but only one is between its exists-check and
      the end of its put. */
  lemma {:induction false} CriticalSectionIsExclusive(accepts: Accepts, s0: State, steps: seq<Step>, g: RequestId,
                                                      h: RequestId)
    requires Init(s0) && 0 in s0.locks && ValidRun(accepts, s0, steps) && SoleRun(accepts, s0, steps)
    requires var s := After(accepts, s0, steps);
             && g in s.reqs && h in s.reqs && Critical(s.reqs[g]) && Critical(s.reqs[h])
             && s.reqs[g].table == s.reqs[h].table
    ensures g == h
  {
    SoleInvOfRun(accepts, s0, steps);
    OneCriticalPerTable(After(accepts, s0, steps), g, h);
  }
}
