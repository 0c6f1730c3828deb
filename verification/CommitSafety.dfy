/**
 What holds in every run of the commit protocol, with any number of replicas, cancellations,
 late puts and writers outside the service.
 */
module CommitSafety {
  import opened Wrappers
  import opened Actions
  import opened Allowlist
  import opened CommitProtocol

  // ----- The invariant -----

  /** The put was issued after the checks that allow it, against a version the log has. */
  ghost predicate PutOk(q: Request, log: seq<Entry>) {
    match q.put
    case NoPut => true
    case CreatePut => q.expected.None? && HasTableDefinition(q.actions)
    case AppendPut(base) => base < |log| && (q.expected.Some? ==> q.expected.value == base)
  }

  /** Every entry the put skipped over was accepted by the conflict check. */
  ghost predicate SkippedOk(accepts: Accepts, q: Request, log: seq<Entry>, v: nat)
    requires q.put.AppendPut?
  {
    v <= |log| && forall i | q.put.base < i < v :: accepts(BuildOperation(q.actions), q.actions, log[i].actions)
  }

  ghost predicate ReplyOk(q: Request, log: seq<Entry>, reply: Reply) {
    match reply
    case Committed(v) => q.landed == Some(v) && !q.put.NoPut? && (q.put.CreatePut? ==> v == 0)
    case Aborted(e, a) =>
      if q.expected.Some? then q.put.NoPut? && e == q.expected.value && e != a && a < |log|
      else q.put.CreatePut? && e == 0 && a >= 1 && q.landed == Some(a)
    case FailedPrecondition => q.put.NoPut? && !CanCreate(q)
    case InvalidArgument => q.put.NoPut?
    case Denied => q.put.NoPut?
    case Internal(inFlight) => inFlight ==> !q.put.NoPut? && q.landed.None?
  }

  ghost predicate PcOk(q: Request, log: seq<Entry>) {
    match q.pc
    case Putting => !q.put.NoPut? && q.landed.None?
    case Cancelled(inFlight) => inFlight ==> !q.put.NoPut? && q.landed.None?
    case Replied(reply) => ReplyOk(q, log, reply)
    case Opened(base) => q.put.NoPut? && base < |log|
    case _ => q.put.NoPut?
  }

  ghost predicate LandedOk(accepts: Accepts, id: RequestId, q: Request, log: seq<Entry>) {
    && (q.put.NoPut? ==> q.landed.None?)
    && (q.landed.Some? ==>
          var v := q.landed.value;
          && v < |log| && log[v] == Entry(Some(id), q.actions)
          && (q.put.AppendPut? ==> q.put.base < v && SkippedOk(accepts, q, log, v)))
  }

  ghost predicate RequestOk(accepts: Accepts, id: RequestId, q: Request, log: seq<Entry>) {
    PutOk(q, log) && PcOk(q, log) && LandedOk(accepts, id, q, log)
  }

  ghost predicate AuthorOk(s: State, t: Table, v: nat)
    requires v < |Log(s, t)| && Log(s, t)[v].author.Some?
  {
    var id := Log(s, t)[v].author.value;
    id in s.reqs && s.reqs[id].table == t && s.reqs[id].landed == Some(v)
  }

  ghost predicate AuthorsOk(s: State) {
    forall t, v | 0 <= v < |Log(s, t)| && Log(s, t)[v].author.Some? :: AuthorOk(s, t, v)
  }

  ghost predicate RequestsOk(accepts: Accepts, s: State) {
    forall id | id in s.reqs :: RequestOk(accepts, id, s.reqs[id], Log(s, s.reqs[id].table))
  }

  ghost predicate RequestValidated(q: Request, allowlists: map<ReplicaId, Option<seq<string>>>) {
    && q.replica in allowlists
    && (q.pc.Waiting? || q.pc.Locked? || q.pc.Existing? || q.pc.Opened? || q.pc.Putting? || !q.put.NoPut? ==>
          Validate(q, allowlists[q.replica]) == Ok((q.table, q.actions)))
  }

  /** A request past validation has the table and actions that validation gave it. */
  ghost predicate ValidatedOk(s: State) {
    forall id | id in s.reqs :: RequestValidated(s.reqs[id], s.allowlists)
  }

  ghost predicate Inv(accepts: Accepts, s: State) {
    RequestsOk(accepts, s) && AuthorsOk(s) && ValidatedOk(s)
  }

  // ----- One request against its log -----

  /** What is known of a request survives any append. */
  lemma RequestOkGrows(accepts: Accepts, id: RequestId, q: Request, log: seq<Entry>, e: Entry)
    requires RequestOk(accepts, id, q, log)
    ensures RequestOk(accepts, id, q, log + [e])
  {
  }

  predicate InFlight(q: Request) {
    q.pc.Putting? || PutOutlives(q.pc)
  }

  /** The request after its put landed at the end of `log`, about to take position `pc`. */
  function Landed(q: Request, log: seq<Entry>, pc: Pc): Request {
    q.(landed := Some(|log|), pc := pc)
  }

  lemma LandedRequestOk(accepts: Accepts, id: RequestId, q: Request, log: seq<Entry>, pc: Pc, acknowledged: bool)
    requires RequestOk(accepts, id, q, log) && InFlight(q) && CanLand(accepts, q, log)
    requires pc == Cancelled(false) || pc == Replied(Internal(false))
             || pc == Replied(ReplyTo(q.put, |log|, true, acknowledged))
    ensures RequestOk(accepts, id, Landed(q, log, pc), log + [Entry(Some(id), q.actions)])
  {
  }

  // ----- Two effects on the state cover all steps -----

  /** A request moves without touching the log. */
  lemma MoveKeepsInv(accepts: Accepts, s: State, t: State, id: RequestId, q: Request)
    requires RequestsOk(accepts, s) && AuthorsOk(s)
    requires t.logs == s.logs && t.reqs == s.reqs[id := q]
    requires RequestOk(accepts, id, q, Log(s, q.table))
    requires id in s.reqs ==> q.landed == s.reqs[id].landed && (q.landed.Some? ==> q.table == s.reqs[id].table)
    ensures RequestsOk(accepts, t) && AuthorsOk(t)
  {
    assert forall tt :: Log(t, tt) == Log(s, tt);
    forall tt, v | 0 <= v < |Log(t, tt)| && Log(t, tt)[v].author.Some?
      ensures AuthorOk(t, tt, v)
    {
      assert AuthorOk(s, tt, v);
    }
  }

  /** An entry is appended to `tb`. */
  lemma AppendKeepsRequests(accepts: Accepts, s: State, t: State, tb: Table, e: Entry)
    requires RequestsOk(accepts, s)
    requires t.logs == s.logs[tb := Log(s, tb) + [e]]
    requires forall id | id in t.reqs && e.author != Some(id) :: id in s.reqs && t.reqs[id] == s.reqs[id]
    requires e.author.Some? && e.author.value in t.reqs ==>
               var q := t.reqs[e.author.value];
               q.table == tb && RequestOk(accepts, e.author.value, q, Log(s, tb) + [e])
    ensures RequestsOk(accepts, t)
  {
    forall id | id in t.reqs
      ensures RequestOk(accepts, id, t.reqs[id], Log(t, t.reqs[id].table))
    {
      var q := t.reqs[id];
      if e.author != Some(id) {
        RequestOkGrows(accepts, id, q, Log(s, q.table), e);
        assert Log(t, q.table) == Log(s, q.table) || Log(t, q.table) == Log(s, q.table) + [e];
      }
    }
  }

  lemma AppendKeepsAuthors(s: State, t: State, tb: Table, e: Entry)
    requires AuthorsOk(s)
    requires t.logs == s.logs[tb := Log(s, tb) + [e]]
    requires forall id | id in s.reqs && e.author != Some(id) :: id in t.reqs && t.reqs[id] == s.reqs[id]
    requires e.author.Some? ==>
               var id := e.author.value;
               && id in s.reqs && s.reqs[id].landed.None?
               && id in t.reqs && t.reqs[id].table == tb && t.reqs[id].landed == Some(|Log(s, tb)|)
    ensures AuthorsOk(t)
  {
    forall tt, v | 0 <= v < |Log(t, tt)| && Log(t, tt)[v].author.Some?
      ensures AuthorOk(t, tt, v)
    {
      if !(tt == tb && v == |Log(s, tb)|) {
        assert Log(t, tt)[v] == Log(s, tt)[v];
        assert AuthorOk(s, tt, v);
      }
    }
  }

  // ----- Each step -----

  /** `t` is `s` after the put of `id` landed and its handler took position `pc`. */
  lemma LandKeepsInv(accepts: Accepts, s: State, t: State, id: RequestId, pc: Pc, acknowledged: bool)
    requires RequestsOk(accepts, s) && AuthorsOk(s)
    requires id in s.reqs && InFlight(s.reqs[id]) && CanLand(accepts, s.reqs[id], Log(s, s.reqs[id].table))
    requires pc == Cancelled(false) || pc == Replied(Internal(false))
             || pc == Replied(ReplyTo(s.reqs[id].put, |Log(s, s.reqs[id].table)|, true, acknowledged))
    requires t == SetReq(Land(s, id), id, Land(s, id).reqs[id].(pc := pc))
    ensures RequestsOk(accepts, t) && AuthorsOk(t)
  {
    var q := s.reqs[id];
    var log := Log(s, q.table);
    var e := Entry(Some(id), q.actions);
    assert RequestOk(accepts, id, q, log);
    LandedRequestOk(accepts, id, q, log, pc, acknowledged);
    assert t.reqs == s.reqs[id := Landed(q, log, pc)];
    AppendKeepsRequests(accepts, s, t, q.table, e);
    AppendKeepsAuthors(s, t, q.table, e);
  }

  lemma FinishPutKeepsInv(accepts: Accepts, s: State, id: RequestId, lands: bool, acknowledged: bool)
    requires RequestsOk(accepts, s) && AuthorsOk(s) && Enabled(accepts, s, FinishPut(id, lands, acknowledged))
    ensures var t := Apply(accepts, s, FinishPut(id, lands, acknowledged)); RequestsOk(accepts, t) && AuthorsOk(t)
  {
    var t := Apply(accepts, s, FinishPut(id, lands, acknowledged));
    var q := s.reqs[id];
    if lands {
      LandKeepsInv(accepts, s, t, id, Replied(ReplyTo(q.put, |Log(s, q.table)|, true, acknowledged)), acknowledged);
    } else {
      assert RequestOk(accepts, id, q, Log(s, q.table));
      MoveKeepsInv(accepts, s, t, id, t.reqs[id]);
    }
  }

  lemma LateFinishKeepsInv(accepts: Accepts, s: State, id: RequestId, lands: bool)
    requires RequestsOk(accepts, s) && AuthorsOk(s) && Enabled(accepts, s, LateFinish(id, lands))
    ensures var t := Apply(accepts, s, LateFinish(id, lands)); RequestsOk(accepts, t) && AuthorsOk(t)
  {
    var t := Apply(accepts, s, LateFinish(id, lands));
    if lands {
      LandKeepsInv(accepts, s, t, id, Decided(s.reqs[id].pc), false);
    } else {
      assert RequestOk(accepts, id, s.reqs[id], Log(s, s.reqs[id].table));
      MoveKeepsInv(accepts, s, t, id, t.reqs[id]);
    }
  }

  /** The steps that neither append nor create a request leave its state consistent. */
  lemma MovedRequestOk(accepts: Accepts, s: State, step: Step)
    requires Enabled(accepts, s, step)
    requires !step.FinishPut? && !step.LateFinish? && !step.External? && !step.Arrive?
    requires RequestOk(accepts, step.id, s.reqs[step.id], Log(s, s.reqs[step.id].table))
    ensures var q := Apply(accepts, s, step).reqs[step.id];
            && RequestOk(accepts, step.id, q, Log(s, q.table))
            && q.landed == s.reqs[step.id].landed && (q.landed.Some? ==> q.table == s.reqs[step.id].table)
  {
  }

  lemma MovesKeepInv(accepts: Accepts, s: State, step: Step)
    requires !step.FinishPut? && !step.LateFinish? && !step.External? && !step.Arrive?
    requires RequestsOk(accepts, s) && AuthorsOk(s) && Enabled(accepts, s, step)
    ensures RequestsOk(accepts, Apply(accepts, s, step)) && AuthorsOk(Apply(accepts, s, step))
  {
    var t := Apply(accepts, s, step);
    MovedRequestOk(accepts, s, step);
    MoveKeepsInv(accepts, s, t, step.id, t.reqs[step.id]);
  }

  lemma StepKeepsRequests(accepts: Accepts, s: State, step: Step)
    requires RequestsOk(accepts, s) && AuthorsOk(s) && Enabled(accepts, s, step)
    ensures RequestsOk(accepts, Apply(accepts, s, step)) && AuthorsOk(Apply(accepts, s, step))
  {
    if step.FinishPut? {
      FinishPutKeepsInv(accepts, s, step.id, step.lands, step.acknowledged);
    } else if step.LateFinish? {
      LateFinishKeepsInv(accepts, s, step.id, step.lands);
    } else if step.External? {
      var t, e := Apply(accepts, s, step), Entry(None, step.entry);
      AppendKeepsRequests(accepts, s, t, step.table, e);
      AppendKeepsAuthors(s, t, step.table, e);
    } else if step.Arrive? {
      var t := Apply(accepts, s, step);
      MoveKeepsInv(accepts, s, t, step.id, t.reqs[step.id]);
    } else {
      MovesKeepInv(accepts, s, step);
    }
  }

  /** Only the stepping request changes, and no step changes the configuration. */
  lemma StepFrame(accepts: Accepts, s: State, step: Step)
    requires Enabled(accepts, s, step)
    ensures var t := Apply(accepts, s, step);
            && t.allowlists == s.allowlists
            && (step.External? ==> t.reqs == s.reqs)
            && (!step.External? ==> step.id in t.reqs && t.reqs == s.reqs[step.id := t.reqs[step.id]])
  {
  }

  lemma StepKeepsRequestValidated(accepts: Accepts, s: State, step: Step)
    requires Enabled(accepts, s, step) && !step.External?
    requires step.id in s.reqs ==> RequestValidated(s.reqs[step.id], s.allowlists)
    ensures RequestValidated(Apply(accepts, s, step).reqs[step.id], s.allowlists)
  {
  }

  lemma StepKeepsValidated(accepts: Accepts, s: State, step: Step)
    requires ValidatedOk(s) && Enabled(accepts, s, step)
    ensures ValidatedOk(Apply(accepts, s, step))
  {
    StepFrame(accepts, s, step);
    if !step.External? {
      StepKeepsRequestValidated(accepts, s, step);
    }
  }

  lemma {:induction false} RunKeepsInv(accepts: Accepts, s: State, steps: seq<Step>)
    requires Inv(accepts, s) && ValidRun(accepts, s, steps)
    ensures Inv(accepts, After(accepts, s, steps))
    decreases |steps|
  {
    if steps == [] {
    } else {
      StepKeepsRequests(accepts, s, steps[0]);
      StepKeepsValidated(accepts, s, steps[0]);
      RunKeepsInv(accepts, Apply(accepts, s, steps[0]), steps[1..]);
    }
  }

  lemma InitIsInv(accepts: Accepts, s: State)
    requires Init(s)
    ensures Inv(accepts, s)
  {
  }

  lemma InvOfRun(accepts: Accepts, s: State, steps: seq<Step>)
    requires Init(s) && ValidRun(accepts, s, steps)
    ensures Inv(accepts, After(accepts, s, steps))
  {
    InitIsInv(accepts, s);
    RunKeepsInv(accepts, s, steps);
  }

  // ----- What every run guarantees -----

  /** Versions are never reused or rewritten: what a log held it keeps, at the same versions. */
  lemma {:induction false} LogsOnlyGrow(accepts: Accepts, s: State, steps: seq<Step>, t: Table)
    requires ValidRun(accepts, s, steps)
    ensures Log(s, t) <= Log(After(accepts, s, steps), t)
    decreases |steps|
  {
    if steps == [] {
    } else {
      LogGrowsInStep(accepts, s, steps[0], t);
      LogsOnlyGrow(accepts, Apply(accepts, s, steps[0]), steps[1..], t);
    }
  }

  lemma LogGrowsInStep(accepts: Accepts, s: State, step: Step, t: Table)
    requires Enabled(accepts, s, step)
    ensures Log(s, t) <= Log(Apply(accepts, s, step), t)
  {
  }

  predicate Answered(s: State, id: RequestId, reply: Reply) {
    id in s.reqs && s.reqs[id].pc == Replied(reply)
  }

  /** With any number of replicas: a reply with version `v` means that the request's own mapped
      actions, and nothing else of it, are in the log of its table at `v`.  If it expected `e`,
      then `v` is later than `e`, and the conflict check accepted each entry in between. */
  lemma {:induction false} CommittedMeansInLog(accepts: Accepts, s0: State, steps: seq<Step>, id: RequestId, v: nat)
    requires Init(s0) && ValidRun(accepts, s0, steps) && Answered(After(accepts, s0, steps), id, Committed(v))
    ensures var s := After(accepts, s0, steps);
            var q := s.reqs[id];
            && q.ensured == Ok(q.table) && MapActions(q.wire) == Ok(q.actions)
            && v < |Log(s, q.table)|
            && (forall t, w | 0 <= w < |Log(s, t)| ::
                  Log(s, t)[w].author == Some(id) <==> t == q.table && w == v)
            && Log(s, q.table)[v].actions == q.actions
            && (q.expected.Some? ==>
                  && 0 <= q.expected.value < v
                  && forall i | q.expected.value < i < v ::
                       accepts(BuildOperation(q.actions), q.actions, Log(s, q.table)[i].actions))
  {
    InvOfRun(accepts, s0, steps);
    var s := After(accepts, s0, steps);
    var q := s.reqs[id];
    assert RequestOk(accepts, id, q, Log(s, q.table));
    assert RequestValidated(q, s.allowlists);
    OwnEntries(accepts, s, id);
  }

  /** The entries a request authored are exactly the one it knows it landed. */
  lemma OwnEntries(accepts: Accepts, s: State, id: RequestId)
    requires RequestsOk(accepts, s) && AuthorsOk(s) && id in s.reqs
    ensures forall t, w | 0 <= w < |Log(s, t)| ::
              Log(s, t)[w].author == Some(id) <==> t == s.reqs[id].table && Some(w) == s.reqs[id].landed
  {
    var q := s.reqs[id];
    assert RequestOk(accepts, id, q, Log(s, q.table));
    forall t, w | 0 <= w < |Log(s, t)| && Log(s, t)[w].author == Some(id)
      ensures t == q.table && Some(w) == q.landed
    {
      assert AuthorOk(s, t, w);
    }
  }

  /** Distinct requests never own the same version. */
  lemma {:induction false} DistinctVersions(accepts: Accepts, s0: State, steps: seq<Step>, id: RequestId, v: nat,
                                            id': RequestId, v': nat)
    requires Init(s0) && ValidRun(accepts, s0, steps) && id != id'
    requires var s := After(accepts, s0, steps); Answered(s, id, Committed(v)) && Answered(s, id', Committed(v'))
    requires var s := After(accepts, s0, steps); s.reqs[id].table == s.reqs[id'].table
    ensures v != v'
  {
    CommittedMeansInLog(accepts, s0, steps, id, v);
    CommittedMeansInLog(accepts, s0, steps, id', v');
  }

  /** Across all replicas at most one creating request per table is told it succeeded.  It is told
      version 0, and that entry is its own, with a protocol and a metadata action. */
  lemma {:induction false} SingleCreator(accepts: Accepts, s0: State, steps: seq<Step>, id: RequestId, v: nat)
    requires Init(s0) && ValidRun(accepts, s0, steps) && Answered(After(accepts, s0, steps), id, Committed(v))
    requires After(accepts, s0, steps).reqs[id].put.CreatePut?
    ensures var s := After(accepts, s0, steps);
            var q := s.reqs[id];
            && v == 0
            && Log(s, q.table) != [] && Log(s, q.table)[0] == Entry(Some(id), q.actions)
            && HasTableDefinition(q.actions)
            && (forall g, w: nat |
                  Answered(s, g, Committed(w)) && s.reqs[g].put.CreatePut? && s.reqs[g].table == q.table ::
                  g == id)
  {
    InvOfRun(accepts, s0, steps);
    var s := After(accepts, s0, steps);
    var q := s.reqs[id];
    assert RequestOk(accepts, id, q, Log(s, q.table));
    forall g, w: nat | Answered(s, g, Committed(w)) && s.reqs[g].put.CreatePut? && s.reqs[g].table == q.table
      ensures g == id
    {
      assert RequestOk(accepts, g, s.reqs[g], Log(s, q.table));
    }
  }

  /** ABORTED with an expected version: nothing of the request is in any log, and the version
      reported is a version of the table other than the expected one.  ABORTED without one: the
      request lost a create race, and its actions are in the log, at the reported version, which
      is not 0. */
  lemma {:induction false} MeaningOfAborted(accepts: Accepts, s0: State, steps: seq<Step>, id: RequestId, e: int,
                                            a: nat)
    requires Init(s0) && ValidRun(accepts, s0, steps) && Answered(After(accepts, s0, steps), id, Aborted(e, a))
    ensures var s := After(accepts, s0, steps);
            var q := s.reqs[id];
            && a < |Log(s, q.table)|
            && (q.expected.Some? ==>
                  && q.expected.value == e != a
                  && forall t, w | 0 <= w < |Log(s, t)| :: Log(s, t)[w].author != Some(id))
            && (q.expected.None? ==>
                  && q.put.CreatePut? && e == 0 && a >= 1
                  && Log(s, q.table)[a] == Entry(Some(id), q.actions) && HasTableDefinition(q.actions))
  {
    InvOfRun(accepts, s0, steps);
    var s := After(accepts, s0, steps);
    var q := s.reqs[id];
    assert RequestOk(accepts, id, q, Log(s, q.table));
    OwnEntries(accepts, s, id);
  }

  // ----- Which requests are rejected -----

  /** A request that fails validation is answered with that failure, and only such a request is. */
  ghost predicate RejectionOk(q: Request, allowlists: map<ReplicaId, Option<seq<string>>>) {
    q.pc.Replied? && q.replica in allowlists ==>
      match Validate(q, allowlists[q.replica])
      case Err(reply) => q.pc.reply == reply
      case Ok(_) => !q.pc.reply.Denied? && !q.pc.reply.InvalidArgument?
  }

  ghost predicate RejectionsOk(s: State) {
    forall id | id in s.reqs :: RejectionOk(s.reqs[id], s.allowlists)
  }

  lemma StepKeepsRejection(accepts: Accepts, s: State, step: Step)
    requires Enabled(accepts, s, step) && !step.External? && !step.Arrive?
    requires RequestValidated(s.reqs[step.id], s.allowlists) && RejectionOk(s.reqs[step.id], s.allowlists)
    ensures RejectionOk(Apply(accepts, s, step).reqs[step.id], s.allowlists)
  {
  }

  lemma StepKeepsRejections(accepts: Accepts, s: State, step: Step)
    requires Enabled(accepts, s, step) && ValidatedOk(s) && RejectionsOk(s)
    ensures RejectionsOk(Apply(accepts, s, step))
  {
    var t := Apply(accepts, s, step);
    StepFrame(accepts, s, step);
    if !step.External? && !step.Arrive? {
      StepKeepsRejection(accepts, s, step);
    }
    forall id | id in t.reqs
      ensures RejectionOk(t.reqs[id], t.allowlists)
    {
      assert id in s.reqs ==> RejectionOk(s.reqs[id], s.allowlists);
    }
  }

  lemma {:induction false} RunKeepsRejections(accepts: Accepts, s: State, steps: seq<Step>)
    requires ValidatedOk(s) && RejectionsOk(s) && ValidRun(accepts, s, steps)
    ensures RejectionsOk(After(accepts, s, steps))
    decreases |steps|
  {
    if steps == [] {
    } else {
      StepKeepsRejections(accepts, s, steps[0]);
      StepKeepsValidated(accepts, s, steps[0]);
      RunKeepsRejections(accepts, Apply(accepts, s, steps[0]), steps[1..]);
    }
  }

  /** A table definition is a protocol action and a metadata action, anywhere in the list. */
  lemma TableDefinitionMeans(actions: seq<Action>)
    ensures HasTableDefinition(actions) <==>
            (exists a | a in actions :: a.ProtocolAction?) && (exists a | a in actions :: a.MetadataAction?)
  {
    FindProtocolMeans(actions);
    FindMetadataMeans(actions);
  }

  /** The URI is one the allowlist does not admit: as sent, if it names a scheme, or normalized. */
  predicate UriDenied(q: Request, allowlist: Option<seq<string>>) {
    || (HasScheme(q.rawUri) && !IsAllowed(q.rawUri, allowlist))
    || (q.ensured.Ok? && !IsAllowed(q.ensured.value, allowlist))
  }

  /** The URI does not normalize, or some action cannot be logged. */
  predicate Malformed(q: Request) {
    q.ensured.Err? || exists w | w in q.wire :: Unmappable(w)
  }

  lemma ValidateMeans(q: Request, allowlist: Option<seq<string>>)
    ensures Validate(q, allowlist) == Err(Denied) <==> UriDenied(q, allowlist)
    ensures Validate(q, allowlist) == Err(InvalidArgument) <==> !UriDenied(q, allowlist) && Malformed(q)
    ensures Validate(q, allowlist).Ok? ==>
              && q.ensured == Ok(Validate(q, allowlist).value.0)
              && MapActions(q.wire) == Ok(Validate(q, allowlist).value.1)
  {
    MapActionsMeans(q.wire);
  }

  /** A request is answered PERMISSION_DENIED exactly when its URI is not admitted, and otherwise
      INVALID_ARGUMENT exactly when its URI or actions are malformed, whatever happens around it.
      FAILED_PRECONDITION is told only to a request that could not have created a table.  None of
      the three leaves a trace in any log. */
  lemma {:induction false} MeaningOfRejections(accepts: Accepts, s0: State, steps: seq<Step>, id: RequestId,
                                               reply: Reply)
    requires Init(s0) && ValidRun(accepts, s0, steps) && Answered(After(accepts, s0, steps), id, reply)
    ensures var s := After(accepts, s0, steps);
            var q := s.reqs[id];
            && q.replica in s.allowlists
            && (reply.Denied? <==> UriDenied(q, s.allowlists[q.replica]))
            && (reply.InvalidArgument? <==> !UriDenied(q, s.allowlists[q.replica]) && Malformed(q))
            && (reply.FailedPrecondition? ==> q.expected.Some? || !HasTableDefinition(q.actions))
            && (reply.FailedPrecondition? || reply.InvalidArgument? || reply.Denied? ==>
                  forall t, w | 0 <= w < |Log(s, t)| :: Log(s, t)[w].author != Some(id))
  {
    InvOfRun(accepts, s0, steps);
    RunKeepsRejections(accepts, s0, steps);
    var s := After(accepts, s0, steps);
    var q := s.reqs[id];
    assert RequestOk(accepts, id, q, Log(s, q.table));
    assert RequestValidated(q, s.allowlists) && RejectionOk(q, s.allowlists);
    ValidateMeans(q, s.allowlists[q.replica]);
    OwnEntries(accepts, s, id);
  }

  /** No request reaches the log of a table its replica's allowlist does not admit. */
  lemma {:induction false} OnlyAllowedTablesAreWritten(accepts: Accepts, s0: State, steps: seq<Step>, t: Table, v: nat)
    requires Init(s0) && ValidRun(accepts, s0, steps)
    requires var s := After(accepts, s0, steps); v < |Log(s, t)| && Log(s, t)[v].author.Some?
    ensures var s := After(accepts, s0, steps);
            var id := Log(s, t)[v].author.value;
            && id in s.reqs && s.reqs[id].replica in s.allowlists
            && IsAllowed(t, s.allowlists[s.reqs[id].replica])
            && Log(s, t)[v].actions == s.reqs[id].actions
  {
    InvOfRun(accepts, s0, steps);
    var s := After(accepts, s0, steps);
    assert AuthorOk(s, t, v);
    var id := Log(s, t)[v].author.value;
    assert RequestOk(accepts, id, s.reqs[id], Log(s, t));
    assert RequestValidated(s.reqs[id], s.allowlists);
  }
}
