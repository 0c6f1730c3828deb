/**
 When a request with an expected version is answered ABORTED, told from the run that led to the
 answer.
 */
module VersionConflicts {
  import opened CommitProtocol
  import opened CommitSafety
  import opened MissingTables

  /** Step `j` opens the table for the request, and finds it at version `a`. */
  ghost predicate OpensAt(accepts: Accepts, s: State, steps: seq<Step>, id: RequestId, j: nat, a: nat)
    requires ValidRun(accepts, s, steps)
  {
    && j < |steps| && steps[j] == Open(id, true)
    && ValidRun(accepts, s, steps[..j])
    && var mid := After(accepts, s, steps[..j]);
    && PcIs(mid, id, Existing) && |Log(mid, mid.reqs[id].table)| == a + 1
  }

  /** Step `k` compares the version it found with the expected one. */
  ghost predicate ChecksAt(accepts: Accepts, s: State, steps: seq<Step>, id: RequestId, k: nat, a: nat)
    requires ValidRun(accepts, s, steps)
  {
    && k < |steps| && steps[k] == CheckVersion(id)
    && ValidRun(accepts, s, steps[..k])
    && PcIs(After(accepts, s, steps[..k]), id, Opened(a))
  }

  lemma LaterOpen(accepts: Accepts, s: State, steps: seq<Step>, id: RequestId, j: nat, a: nat)
    requires ValidRun(accepts, s, steps) && steps != []
    requires OpensAt(accepts, Apply(accepts, s, steps[0]), steps[1..], id, j, a)
    ensures OpensAt(accepts, s, steps, id, j + 1, a)
  {
    assert steps[..j + 1][0] == steps[0] && steps[..j + 1][1..] == steps[1..][..j];
  }

  lemma LaterCheck(accepts: Accepts, s: State, steps: seq<Step>, id: RequestId, k: nat, a: nat)
    requires ValidRun(accepts, s, steps) && steps != []
    requires ChecksAt(accepts, Apply(accepts, s, steps[0]), steps[1..], id, k, a)
    ensures ChecksAt(accepts, s, steps, id, k + 1, a)
  {
    assert steps[..k + 1][0] == steps[0] && steps[..k + 1][1..] == steps[1..][..k];
  }

  // ----- One step -----

  /** The version check is behind the request. */
  predicate Compared(pc: Pc) {
    Passed(pc) && !pc.Existing? && !pc.Opened?
  }

  lemma StepAndSnapshot(accepts: Accepts, s: State, step: Step, id: RequestId, a: nat)
    requires Enabled(accepts, s, step)
    ensures var t := Apply(accepts, s, step);
            PcIs(t, id, Opened(a)) && !PcIs(s, id, Opened(a)) ==>
              step == Open(id, true) && PcIs(s, id, Existing) && |Log(s, s.reqs[id].table)| == a + 1
  {
    StepFrame(accepts, s, step);
  }

  ghost predicate ToldConflict(s: State, id: RequestId, a: nat) {
    id in s.reqs && s.reqs[id].expected.Some? && s.reqs[id].pc == Replied(Aborted(s.reqs[id].expected.value, a))
  }

  /** Only the version check tells of a conflict, exactly when the versions differ, and nothing
      takes it back. */
  lemma StepAndConflict(accepts: Accepts, s: State, step: Step, id: RequestId, a: nat)
    requires Enabled(accepts, s, step)
    requires id in s.reqs ==> PutOk(s.reqs[id], Log(s, s.reqs[id].table))
    ensures var t := Apply(accepts, s, step);
            && (id in s.reqs && Compared(s.reqs[id].pc) ==>
                  && id in t.reqs && Compared(t.reqs[id].pc)
                  && (ToldConflict(t, id, a) <==> ToldConflict(s, id, a)))
            && (ToldConflict(t, id, a) && !ToldConflict(s, id, a) ==>
                  && step == CheckVersion(id) && PcIs(s, id, Opened(a))
                  && s.reqs[id].expected.Some? && s.reqs[id].expected.value != a)
            && (step == CheckVersion(id) && PcIs(s, id, Opened(a)) && s.reqs[id].expected.Some? ==>
                  Compared(t.reqs[id].pc) && (ToldConflict(t, id, a) <==> s.reqs[id].expected.value != a))
  {
    StepFrame(accepts, s, step);
  }

  lemma StepKeepsExpected(accepts: Accepts, s: State, step: Step, id: RequestId)
    requires Enabled(accepts, s, step) && id in s.reqs
    ensures id in Apply(accepts, s, step).reqs && Apply(accepts, s, step).reqs[id].expected == s.reqs[id].expected
  {
    StepFrame(accepts, s, step);
  }

  // ----- Runs -----

  lemma {:induction false} RunKeepsExpected(accepts: Accepts, s: State, steps: seq<Step>, id: RequestId)
    requires ValidRun(accepts, s, steps) && id in s.reqs
    ensures id in After(accepts, s, steps).reqs && After(accepts, s, steps).reqs[id].expected == s.reqs[id].expected
    decreases |steps|
  {
    if steps == [] {
    } else {
      StepKeepsExpected(accepts, s, steps[0], id);
      RunKeepsExpected(accepts, Apply(accepts, s, steps[0]), steps[1..], id);
    }
  }

  lemma {:induction false} ConflictIsFinal(accepts: Accepts, s: State, steps: seq<Step>, id: RequestId, a: nat)
    requires Inv(accepts, s) && ValidRun(accepts, s, steps) && id in s.reqs && Compared(s.reqs[id].pc)
    ensures ToldConflict(After(accepts, s, steps), id, a) <==> ToldConflict(s, id, a)
    decreases |steps|
  {
    if steps == [] {
    } else {
      assert RequestOk(accepts, id, s.reqs[id], Log(s, s.reqs[id].table));
      StepAndConflict(accepts, s, steps[0], id, a);
      StepKeepsRequests(accepts, s, steps[0]);
      StepKeepsValidated(accepts, s, steps[0]);
      ConflictIsFinal(accepts, Apply(accepts, s, steps[0]), steps[1..], id, a);
    }
  }

  /** A request that holds a snapshot of version `a` has opened the table at that version. */
  lemma {:induction false} MomentOfOpen(accepts: Accepts, s: State, steps: seq<Step>, id: RequestId, a: nat)
    returns (j: nat)
    requires ValidRun(accepts, s, steps) && !PcIs(s, id, Opened(a)) && PcIs(After(accepts, s, steps), id, Opened(a))
    ensures OpensAt(accepts, s, steps, id, j, a)
    decreases |steps|
  {
    StepAndSnapshot(accepts, s, steps[0], id, a);
    var t := Apply(accepts, s, steps[0]);
    if PcIs(t, id, Opened(a)) && !PcIs(s, id, Opened(a)) {
      j := 0;
      assert steps[..0] == [];
    } else {
      var i := MomentOfOpen(accepts, t, steps[1..], id, a);
      j := i + 1;
      LaterOpen(accepts, s, steps, id, i, a);
    }
  }

  /** A request that was told of a conflict was told so by its version check. */
  lemma {:induction false} MomentOfCheck(accepts: Accepts, s: State, steps: seq<Step>, id: RequestId, a: nat)
    returns (k: nat)
    requires Inv(accepts, s) && ValidRun(accepts, s, steps)
    requires !ToldConflict(s, id, a) && ToldConflict(After(accepts, s, steps), id, a)
    ensures ChecksAt(accepts, s, steps, id, k, a) && After(accepts, s, steps).reqs[id].expected.value != a
    decreases |steps|
  {
    assert id in s.reqs ==> RequestOk(accepts, id, s.reqs[id], Log(s, s.reqs[id].table));
    StepAndConflict(accepts, s, steps[0], id, a);
    var t := Apply(accepts, s, steps[0]);
    if ToldConflict(t, id, a) {
      k := 0;
      assert steps[..0] == [];
      RunKeepsExpected(accepts, s, steps, id);
    } else {
      StepKeepsRequests(accepts, s, steps[0]);
      StepKeepsValidated(accepts, s, steps[0]);
      var i := MomentOfCheck(accepts, t, steps[1..], id, a);
      k := i + 1;
      LaterCheck(accepts, s, steps, id, i, a);
    }
  }

  lemma CheckDecides(accepts: Accepts, s0: State, steps: seq<Step>, id: RequestId, k: nat, a: nat)
    requires Init(s0) && ValidRun(accepts, s0, steps) && ChecksAt(accepts, s0, steps, id, k, a)
    requires id in After(accepts, s0, steps).reqs && After(accepts, s0, steps).reqs[id].expected.Some?
    ensures ToldConflict(After(accepts, s0, steps), id, a) <==>
            After(accepts, s0, steps).reqs[id].expected.value != a
  {
    RunSplits(accepts, s0, steps, k);
    var mid := After(accepts, s0, steps[..k]);
    InvOfRun(accepts, s0, steps[..k]);
    assert RequestOk(accepts, id, mid.reqs[id], Log(mid, mid.reqs[id].table));
    assert steps[k..][0] == steps[k];
    RunKeepsExpected(accepts, mid, steps[k..], id);
    StepAndConflict(accepts, mid, steps[k], id, a);
    StepKeepsRequests(accepts, mid, steps[k]);
    StepKeepsValidated(accepts, mid, steps[k]);
    ConflictIsFinal(accepts, Apply(accepts, mid, steps[k]), steps[k..][1..], id, a);
  }

  // ----- What every run guarantees -----

  /** In every run: a request with an expected version is told of a conflict with version `a`
      exactly when its version check ran on a snapshot of version `a`, and `a` is not the expected
      version, be it later or earlier; and such a snapshot was the table's latest version at the
      moment the request opened the table under its lock. */
  lemma {:induction false} MeaningOfConflict(accepts: Accepts, s0: State, steps: seq<Step>, id: RequestId, a: nat)
    requires Init(s0) && ValidRun(accepts, s0, steps)
    requires id in After(accepts, s0, steps).reqs && After(accepts, s0, steps).reqs[id].expected.Some?
    ensures ToldConflict(After(accepts, s0, steps), id, a) <==>
            && After(accepts, s0, steps).reqs[id].expected.value != a
            && exists k: nat :: ChecksAt(accepts, s0, steps, id, k, a)
    ensures forall k: nat | ChecksAt(accepts, s0, steps, id, k, a) ::
              exists j: nat :: OpensAt(accepts, s0, steps[..k], id, j, a)
  {
    if ToldConflict(After(accepts, s0, steps), id, a) {
      InitIsInv(accepts, s0);
      var k := MomentOfCheck(accepts, s0, steps, id, a);
    }
    if k: nat :| ChecksAt(accepts, s0, steps, id, k, a) {
      CheckDecides(accepts, s0, steps, id, k, a);
    }
    forall k: nat | ChecksAt(accepts, s0, steps, id, k, a)
      ensures exists j: nat :: OpensAt(accepts, s0, steps[..k], id, j, a)
    {
      var j := MomentOfOpen(accepts, s0, steps[..k], id, a);
    }
  }
}
