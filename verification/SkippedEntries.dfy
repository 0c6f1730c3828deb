/**
 Why a commit can land later than right behind the version it was checked against, with any number
 of replicas, cancellations, late puts and writers outside the service.  The lock leaves exactly
 three causes: an entry a put skipped was written from outside the service, by another replica, or
 by a put of the same replica that outlived its handler.
 */
module SkippedEntries {
  import opened CommitProtocol
  import opened CommitSafety
  import opened SingleWriter
  import L = TableLocks
  import P = TableLockProofs

  // ----- The lock, on every replica -----

  ghost predicate HoldsOn(s: State, id: RequestId, phase: L.Phase) {
    && id in s.reqs && s.reqs[id].replica in s.locks
    && L.At(s.locks[s.reqs[id].replica], id, phase)
    && s.locks[s.reqs[id].replica].handles[id].key == s.reqs[id].table
  }

  /** The handler is between the grant of its guard and its reply. */
  predicate InSection(pc: Pc) {
    pc.Locked? || pc.Existing? || pc.Opened? || pc.Putting?
  }

  ghost predicate GuardOk(s: State, id: RequestId)
    requires id in s.reqs
  {
    && s.reqs[id].replica in s.locks
    && (s.reqs[id].pc.Waiting? ==> HoldsOn(s, id, L.Live))
    && (InSection(s.reqs[id].pc) ==> HoldsOn(s, id, L.Holding))
  }

  ghost predicate GuardsOk(s: State) {
    && (forall r | r in s.locks :: P.Reachable(s.locks[r]))
    && (forall id | id in s.reqs :: GuardOk(s, id))
  }

  /** A step changes the lock state of at most one replica, by one action of the stepping request. */
  lemma ReplicaLockFrame(accepts: Accepts, s: State, step: Step)
    requires Enabled(accepts, s, step)
    requires !step.External? && !step.Arrive? ==> step.id in s.reqs && s.reqs[step.id].replica in s.locks
    ensures var t := Apply(accepts, s, step);
            var a := LockAction(s, step);
            && (a.None? ==> t.locks == s.locks)
            && (a.Some? ==>
                  && !step.External? && !step.Arrive? && a.value.h == step.id
                  && var r := s.reqs[step.id].replica;
                  && L.Enabled(s.locks[r], a.value) && t.locks == s.locks[r := L.Apply(s.locks[r], a.value)])
  {
  }

  lemma OthersKeepGuard(accepts: Accepts, s: State, step: Step, h: RequestId)
    requires Enabled(accepts, s, step) && h in s.reqs && GuardOk(s, h) && (step.External? || step.id != h)
    requires !step.External? && !step.Arrive? ==> step.id in s.reqs && s.reqs[step.id].replica in s.locks
    ensures h in Apply(accepts, s, step).reqs && GuardOk(Apply(accepts, s, step), h)
  {
    ReplicaLockFrame(accepts, s, step);
    StepFrame(accepts, s, step);
    var a := LockAction(s, step);
    if a.Some? && s.reqs[step.id].replica == s.reqs[h].replica {
      OtherHandleKept(s.locks[s.reqs[h].replica], a.value, h, L.Live);
      OtherHandleKept(s.locks[s.reqs[h].replica], a.value, h, L.Holding);
    }
  }

  lemma OwnGuardKept(accepts: Accepts, s: State, step: Step)
    requires Enabled(accepts, s, step) && !step.External? && LockAction(s, step).None?
    requires !step.Arrive? ==> GuardOk(s, step.id)
    ensures step.id in Apply(accepts, s, step).reqs && GuardOk(Apply(accepts, s, step), step.id)
  {
    ReplicaLockFrame(accepts, s, step);
  }

  lemma OwnGuardMoves(accepts: Accepts, s: State, step: Step)
    requires Enabled(accepts, s, step) && (step.Begin? || step.Acquire? || step.Unwind?)
    requires step.id in s.reqs && GuardOk(s, step.id)
    ensures step.id in Apply(accepts, s, step).reqs && GuardOk(Apply(accepts, s, step), step.id)
  {
    ReplicaLockFrame(accepts, s, step);
  }

  lemma OwnGuard(accepts: Accepts, s: State, step: Step)
    requires Enabled(accepts, s, step) && !step.External?
    requires !step.Arrive? ==> GuardOk(s, step.id)
    ensures step.id in Apply(accepts, s, step).reqs && GuardOk(Apply(accepts, s, step), step.id)
  {
    if LockAction(s, step).None? {
      OwnGuardKept(accepts, s, step);
    } else {
      OwnGuardMoves(accepts, s, step);
    }
  }

  lemma StepKeepsReachable(accepts: Accepts, s: State, step: Step)
    requires Enabled(accepts, s, step) && GuardsOk(s)
    ensures forall r | r in Apply(accepts, s, step).locks :: P.Reachable(Apply(accepts, s, step).locks[r])
  {
    assert !step.External? && !step.Arrive? ==> GuardOk(s, step.id);
    ReplicaLockFrame(accepts, s, step);
    if LockAction(s, step).Some? {
      P.StepIsReachable(s.locks[s.reqs[step.id].replica], LockAction(s, step).value);
    }
  }

  lemma StepKeepsGuards(accepts: Accepts, s: State, step: Step)
    requires Enabled(accepts, s, step) && GuardsOk(s)
    ensures GuardsOk(Apply(accepts, s, step))
  {
    var t := Apply(accepts, s, step);
    StepKeepsReachable(accepts, s, step);
    StepFrame(accepts, s, step);
    assert !step.External? && !step.Arrive? ==> GuardOk(s, step.id);
    forall h | h in t.reqs
      ensures GuardOk(t, h)
    {
      if !step.External? && h == step.id {
        OwnGuard(accepts, s, step);
      } else {
        assert GuardOk(s, h);
        OthersKeepGuard(accepts, s, step, h);
      }
    }
  }

  /** On one replica, two requests for one table are not both between their locks and replies. */
  lemma {:induction false} SectionIsExclusive(s: State, g: RequestId, h: RequestId)
    requires GuardsOk(s) && g in s.reqs && h in s.reqs && InSection(s.reqs[g].pc) && InSection(s.reqs[h].pc)
    requires s.reqs[g].table == s.reqs[h].table && s.reqs[g].replica == s.reqs[h].replica
    ensures g == h
  {
    assert GuardOk(s, g) && GuardOk(s, h);
    P.ReachableExclusion(s.locks[s.reqs[g].replica], g, h);
  }

  // ----- What a put can have skipped -----

  /** The handler ended without knowing what its put would come to. */
  predicate Gone(pc: Pc) {
    pc.Cancelled? || (pc.Replied? && pc.reply.Internal?)
  }

  /** The entry is none of replica `r`'s own doing under its lock. */
  predicate Foreign(reqs: map<RequestId, Request>, e: Entry, r: ReplicaId) {
    e.author.Some? ==>
      && e.author.value in reqs
      && (reqs[e.author.value].replica != r || Gone(reqs[e.author.value].pc))
  }

  /** The versions before this one were known to the request when it issued its put. */
  function Since(q: Request): nat {
    if q.pc.Opened? then q.pc.base + 1 else if q.put.AppendPut? then q.put.base + 1 else 0
  }

  /** The end of the versions it did not know of: where it landed, or where it would land now. */
  function Until(q: Request, log: seq<Entry>): nat {
    if q.pc.Opened? || q.pc.Putting? then |log|
    else if q.pc.Replied? && !q.pc.reply.Internal? && q.landed.Some? then q.landed.value
    else 0
  }

  ghost predicate GapOk(s: State, id: RequestId)
    requires id in s.reqs
  {
    var q := s.reqs[id];
    var log := Log(s, q.table);
    Until(q, log) <= |log| && forall i | Since(q) <= i < Until(q, log) :: Foreign(s.reqs, log[i], q.replica)
  }

  ghost predicate GapsOk(s: State) {
    forall id | id in s.reqs :: GapOk(s, id)
  }

  lemma ForeignStays(accepts: Accepts, s: State, step: Step, e: Entry, r: ReplicaId)
    requires Enabled(accepts, s, step) && Foreign(s.reqs, e, r)
    ensures Foreign(Apply(accepts, s, step).reqs, e, r)
  {
    StepFrame(accepts, s, step);
  }

  /** What lands in the log of `q` while `q` is in its section is foreign to its replica. */
  lemma NewEntriesAreForeign(accepts: Accepts, s: State, step: Step, h: RequestId, i: nat)
    requires Enabled(accepts, s, step) && GuardsOk(s) && h in s.reqs && InSection(s.reqs[h].pc)
    requires step.External? || step.id != h
    requires var log := Log(Apply(accepts, s, step), s.reqs[h].table);
             |Log(s, s.reqs[h].table)| <= i < |log|
    ensures Foreign(Apply(accepts, s, step).reqs, Log(Apply(accepts, s, step), s.reqs[h].table)[i], s.reqs[h].replica)
  {
    if step.FinishPut? && s.reqs[step.id].table == s.reqs[h].table && s.reqs[step.id].replica == s.reqs[h].replica {
      SectionIsExclusive(s, step.id, h);
    }
  }

  lemma OthersKeepGap(accepts: Accepts, s: State, step: Step, h: RequestId)
    requires Enabled(accepts, s, step) && GuardsOk(s) && h in s.reqs && GapOk(s, h)
    requires step.External? || step.id != h
    ensures h in Apply(accepts, s, step).reqs && GapOk(Apply(accepts, s, step), h)
  {
    var t, q := Apply(accepts, s, step), s.reqs[h];
    StepFrame(accepts, s, step);
    LogGrowsInStep(accepts, s, step, q.table);
    forall i | Since(q) <= i < Until(q, Log(t, q.table))
      ensures Foreign(t.reqs, Log(t, q.table)[i], q.replica)
    {
      if i < |Log(s, q.table)| {
        ForeignStays(accepts, s, step, Log(s, q.table)[i], q.replica);
      } else {
        NewEntriesAreForeign(accepts, s, step, h, i);
      }
    }
  }

  /** The stepping request: its unknown versions are those it had before, or none. */
  lemma OwnRange(accepts: Accepts, s: State, step: Step)
    requires Enabled(accepts, s, step) && !step.External? && !step.Arrive?
    requires RequestOk(accepts, step.id, s.reqs[step.id], Log(s, s.reqs[step.id].table)) && GapOk(s, step.id)
    ensures var t := Apply(accepts, s, step);
            var q, q' := s.reqs[step.id], t.reqs[step.id];
            && Until(q', Log(t, q'.table)) <= |Log(t, q'.table)|
            && (Since(q') < Until(q', Log(t, q'.table)) ==>
                  && Since(q') == Since(q) && Until(q', Log(t, q'.table)) == Until(q, Log(s, q.table))
                  && q'.table == q.table && q'.replica == q.replica)
  {
  }

  lemma OwnGap(accepts: Accepts, s: State, step: Step)
    requires Enabled(accepts, s, step) && !step.External?
    requires !step.Arrive? ==>
               GapOk(s, step.id) && RequestOk(accepts, step.id, s.reqs[step.id], Log(s, s.reqs[step.id].table))
    ensures step.id in Apply(accepts, s, step).reqs && GapOk(Apply(accepts, s, step), step.id)
  {
    if !step.Arrive? {
      var t := Apply(accepts, s, step);
      var q := t.reqs[step.id];
      OwnRange(accepts, s, step);
      LogGrowsInStep(accepts, s, step, q.table);
      forall i | Since(q) <= i < Until(q, Log(t, q.table))
        ensures Foreign(t.reqs, Log(t, q.table)[i], q.replica)
      {
        ForeignStays(accepts, s, step, Log(s, q.table)[i], q.replica);
      }
    }
  }

  lemma StepKeepsGaps(accepts: Accepts, s: State, step: Step)
    requires Enabled(accepts, s, step) && GuardsOk(s) && GapsOk(s) && RequestsOk(accepts, s)
    ensures GapsOk(Apply(accepts, s, step))
  {
    var t := Apply(accepts, s, step);
    StepFrame(accepts, s, step);
    forall h | h in t.reqs
      ensures GapOk(t, h)
    {
      if !step.External? && h == step.id {
        OwnGap(accepts, s, step);
      } else {
        OthersKeepGap(accepts, s, step, h);
      }
    }
  }

  lemma {:induction false} RunKeepsGaps(accepts: Accepts, s: State, steps: seq<Step>)
    requires Inv(accepts, s) && GuardsOk(s) && GapsOk(s) && ValidRun(accepts, s, steps)
    ensures GapsOk(After(accepts, s, steps))
    decreases |steps|
  {
    if steps == [] {
    } else {
      StepKeepsGaps(accepts, s, steps[0]);
      StepKeepsGuards(accepts, s, steps[0]);
      StepKeepsRequests(accepts, s, steps[0]);
      StepKeepsValidated(accepts, s, steps[0]);
      RunKeepsGaps(accepts, Apply(accepts, s, steps[0]), steps[1..]);
    }
  }

  lemma GapsOfRun(accepts: Accepts, s0: State, steps: seq<Step>)
    requires Init(s0) && ValidRun(accepts, s0, steps)
    ensures Inv(accepts, After(accepts, s0, steps)) && GapsOk(After(accepts, s0, steps))
  {
    InitIsInv(accepts, s0);
    P.InitIsReachable();
    RunKeepsGaps(accepts, s0, steps);
    RunKeepsInv(accepts, s0, steps);
  }

  // ----- What every run guarantees -----

  /** In every run: a commit that expected version `e` and was told `v` skipped only entries that
      were written outside the service, by another replica, or by a put of its own replica that
      outlived its handler; `CommitRaces` has a run for each.  With none of these, `v` is `e + 1`. */
  lemma {:induction false} SkippedEntriesAreForeign(accepts: Accepts, s0: State, steps: seq<Step>, id: RequestId,
                                                    v: nat)
    requires Init(s0) && ValidRun(accepts, s0, steps)
    requires var s := After(accepts, s0, steps); Answered(s, id, Committed(v)) && s.reqs[id].expected.Some?
    ensures var s := After(accepts, s0, steps);
            var q := s.reqs[id];
            && 0 <= q.expected.value < v < |Log(s, q.table)|
            && forall i | q.expected.value < i < v :: Foreign(s.reqs, Log(s, q.table)[i], q.replica)
  {
    GapsOfRun(accepts, s0, steps);
    var s := After(accepts, s0, steps);
    var q := s.reqs[id];
    assert RequestOk(accepts, id, q, Log(s, q.table)) && GapOk(s, id);
  }

  /** The same for a lost create race: every version before the one that the loser is told is such
      an entry, so a race is never lost to a handler of the same replica. */
  lemma {:induction false} LostRacesAreForeign(accepts: Accepts, s0: State, steps: seq<Step>, id: RequestId, e: int,
                                               a: nat)
    requires Init(s0) && ValidRun(accepts, s0, steps)
    requires var s := After(accepts, s0, steps); Answered(s, id, Aborted(e, a)) && s.reqs[id].expected.None?
    ensures var s := After(accepts, s0, steps);
            var q := s.reqs[id];
            && 1 <= a < |Log(s, q.table)|
            && forall i | 0 <= i < a :: Foreign(s.reqs, Log(s, q.table)[i], q.replica)
  {
    GapsOfRun(accepts, s0, steps);
    var s := After(accepts, s0, steps);
    assert RequestOk(accepts, id, s.reqs[id], Log(s, s.reqs[id].table)) && GapOk(s, id);
  }
}
