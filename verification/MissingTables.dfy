/**
 When a request is answered FAILED_PRECONDITION, told from the run that led to the answer.
 */
module MissingTables {
  import opened CommitProtocol
  import opened CommitSafety

  /** A run can be cut anywhere. */
  lemma {:induction false} RunSplits(accepts: Accepts, s: State, steps: seq<Step>, k: nat)
    requires ValidRun(accepts, s, steps) && k <= |steps|
    ensures ValidRun(accepts, s, steps[..k])
    ensures var mid := After(accepts, s, steps[..k]);
            ValidRun(accepts, mid, steps[k..]) && After(accepts, mid, steps[k..]) == After(accepts, s, steps)
    decreases k
  {
    if k == 0 {
      assert steps[..k] == [] && steps[k..] == steps;
    } else {
      RunSplits(accepts, Apply(accepts, s, steps[0]), steps[1..], k - 1);
      assert steps[..k][1..] == steps[1..][..k - 1] && steps[k..] == steps[1..][k - 1..];
    }
  }

  /** The exists-check is behind the request. */
  predicate Passed(pc: Pc) {
    !pc.Arrived? && !pc.Waiting? && !pc.Locked?
  }

  /** In the state before step `k` the request holds its lock, its table has no log and it is not
      one that could create it; and step `k` is its exists-check. */
  ghost predicate FoundMissing(accepts: Accepts, s: State, steps: seq<Step>, id: RequestId, k: nat)
    requires ValidRun(accepts, s, steps)
  {
    && k < |steps| && steps[k] == CheckExists(id, true)
    && ValidRun(accepts, s, steps[..k])
    && var mid := After(accepts, s, steps[..k]);
    && PcIs(mid, id, Locked) && Log(mid, mid.reqs[id].table) == [] && !CanCreate(mid.reqs[id])
  }

  /** Only the exists-check gives the answer, and nothing takes it back. */
  lemma StepAndAnswer(accepts: Accepts, s: State, step: Step, id: RequestId)
    requires Enabled(accepts, s, step)
    ensures var t := Apply(accepts, s, step);
            && (id in s.reqs && Passed(s.reqs[id].pc) ==>
                  && id in t.reqs && Passed(t.reqs[id].pc)
                  && (Answered(t, id, FailedPrecondition) <==> Answered(s, id, FailedPrecondition)))
            && (Answered(t, id, FailedPrecondition) && !Answered(s, id, FailedPrecondition) ==>
                  && step == CheckExists(id, true) && PcIs(s, id, Locked)
                  && Log(s, s.reqs[id].table) == [] && !CanCreate(s.reqs[id]))
  {
    StepFrame(accepts, s, step);
  }

  lemma {:induction false} AnswerIsFinal(accepts: Accepts, s: State, steps: seq<Step>, id: RequestId)
    requires ValidRun(accepts, s, steps) && id in s.reqs && Passed(s.reqs[id].pc)
    ensures Answered(After(accepts, s, steps), id, FailedPrecondition) <==> Answered(s, id, FailedPrecondition)
    decreases |steps|
  {
    if steps == [] {
    } else {
      StepAndAnswer(accepts, s, steps[0], id);
      AnswerIsFinal(accepts, Apply(accepts, s, steps[0]), steps[1..], id);
    }
  }

  /** The moment of the answer. */
  lemma {:induction false} MomentOfAnswer(accepts: Accepts, s: State, steps: seq<Step>, id: RequestId) returns (k: nat)
    requires ValidRun(accepts, s, steps)
    requires !Answered(s, id, FailedPrecondition) && Answered(After(accepts, s, steps), id, FailedPrecondition)
    ensures FoundMissing(accepts, s, steps, id, k)
    decreases |steps|
  {
    StepAndAnswer(accepts, s, steps[0], id);
    var t := Apply(accepts, s, steps[0]);
    if Answered(t, id, FailedPrecondition) {
      k := 0;
      assert steps[..0] == [];
    } else {
      var j := MomentOfAnswer(accepts, t, steps[1..], id);
      k := j + 1;
      LaterMoment(accepts, s, steps, id, j);
    }
  }

  lemma LaterMoment(accepts: Accepts, s: State, steps: seq<Step>, id: RequestId, j: nat)
    requires ValidRun(accepts, s, steps) && steps != []
    requires FoundMissing(accepts, Apply(accepts, s, steps[0]), steps[1..], id, j)
    ensures FoundMissing(accepts, s, steps, id, j + 1)
  {
    assert steps[..j + 1][0] == steps[0] && steps[..j + 1][1..] == steps[1..][..j];
  }

  lemma MissingIsAnswered(accepts: Accepts, s: State, steps: seq<Step>, id: RequestId, k: nat)
    requires ValidRun(accepts, s, steps) && FoundMissing(accepts, s, steps, id, k)
    ensures Answered(After(accepts, s, steps), id, FailedPrecondition)
  {
    RunSplits(accepts, s, steps, k);
    var mid := After(accepts, s, steps[..k]);
    assert steps[k..][0] == steps[k];
    AnswerIsFinal(accepts, Apply(accepts, mid, steps[k]), steps[k..][1..], id);
  }

  /** In every run: a request is answered FAILED_PRECONDITION exactly when its exists-check, under
      the lock, found no log for its table and the request could not create one, because it has an
      expected version or lacks a protocol or metadata action. */
  lemma {:induction false} MeaningOfFailedPrecondition(accepts: Accepts, s0: State, steps: seq<Step>, id: RequestId)
    requires Init(s0) && ValidRun(accepts, s0, steps)
    ensures Answered(After(accepts, s0, steps), id, FailedPrecondition) <==>
            exists k: nat :: FoundMissing(accepts, s0, steps, id, k)
  {
    if Answered(After(accepts, s0, steps), id, FailedPrecondition) {
      var k := MomentOfAnswer(accepts, s0, steps, id);
    }
    if k: nat :| FoundMissing(accepts, s0, steps, id, k) {
      MissingIsAnswered(accepts, s0, steps, id, k);
    }
  }
}
