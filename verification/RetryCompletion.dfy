/**
 The writers of `RetryClients` do finish: as long as storage works and nobody is cancelled, a run
 that has not finished can go on (no deadlock), and by `RetryTermination` it cannot go on forever.
 */
module RetryCompletion {
  import opened Wrappers
  import opened Actions
  import opened Allowlist
  import opened CommitProtocol
  import opened CommitSafety
  import opened SingleWriter
  import opened RetryClients
  import opened RetryBound
  import opened RetryTermination
  import L = TableLocks
  import P = TableLockProofs

  // ----- Runs without failures -----

  /** Reads and puts succeed and no handler is cancelled. */
  predicate Smooth(m: Move) {
    match m
    case ReadFails(_) => false
    case Serve(Cancel(_)) => false
    case Serve(CheckExists(_, readable)) => readable
    case Serve(Open(_, readable)) => readable
    case Serve(FinishPut(_, _, acknowledged)) => acknowledged
    case _ => true
  }

  predicate SmoothMoves(ms: seq<Move>) {
    forall m | m in ms :: Smooth(m)
  }

  /** The table is admitted and every writer's actions can be mapped. */
  predicate Writable(w: World) {
    && 0 in w.server.allowlists
    && NormalizeAndCheck(w.rawUri, Ok(w.table), w.server.allowlists[0]).Ok?
    && forall c | c in w.clients :: MapActions(w.clients[c].wire).Ok?
  }

  ghost predicate SmoothRequest(w: World, q: Request) {
    && q.rawUri == w.rawUri && !q.pc.Cancelled?
    && (q.pc.Replied? ==> q.pc.reply.Committed? || q.pc.reply.Aborted?)
  }

  ghost predicate SmoothInv(w: World) {
    && Writable(w)
    && (forall id | id in w.server.reqs :: SmoothRequest(w, w.server.reqs[id]))
    && (forall c | c in w.clients :: w.clients[c].pc != Failed)
  }

  /** A writer's request is valid, and if it is past validation it is for the writers' table. */
  lemma RequestIsValid(accepts: Accepts, w: World, id: RequestId)
    requires WorldInv(accepts, w) && SmoothInv(w) && id in w.server.reqs
    ensures var q := w.server.reqs[id];
            && q.replica == 0 && Validate(q, w.server.allowlists[0]).Ok?
            && Validate(q, w.server.allowlists[0]).value.0 == w.table
            && (q.pc.Waiting? || q.pc.Locked? || q.pc.Existing? || q.pc.Opened? || !q.put.NoPut? ==> q.table == w.table)
  {
    assert AttemptOk(w, id) && HandleOk(w.server, id) && RequestValidated(w.server.reqs[id], w.server.allowlists);
    assert SmoothRequest(w, w.server.reqs[id]);
  }

  lemma ServeKeepsSmooth(accepts: Accepts, s: State, step: Step)
    requires Enabled(accepts, s, step) && Smooth(Serve(step)) && !step.Arrive? && !step.External?
    requires var q := s.reqs[step.id];
             && q.replica in s.allowlists && Validate(q, s.allowlists[q.replica]).Ok?
             && (q.pc.Locked? ==> Log(s, q.table) != [])
             && !q.pc.Cancelled? && (q.pc.Replied? ==> q.pc.reply.Committed? || q.pc.reply.Aborted?)
    ensures var q := Apply(accepts, s, step).reqs[step.id];
            && q.rawUri == s.reqs[step.id].rawUri && !q.pc.Cancelled?
            && (q.pc.Replied? ==> q.pc.reply.Committed? || q.pc.reply.Aborted?)
  {
  }

  /** One request is new or has moved, and is still in order. */
  lemma SmoothWith(w: World, s: State, id: RequestId)
    requires SmoothInv(w) && s.allowlists == w.server.allowlists
    requires id in s.reqs && s.reqs == w.server.reqs[id := s.reqs[id]] && SmoothRequest(w, s.reqs[id])
    ensures SmoothInv(w.(server := s))
  {
    var u := w.(server := s);
    forall h | h in s.reqs
      ensures SmoothRequest(u, s.reqs[h])
    {
      assert h != id ==> SmoothRequest(w, w.server.reqs[h]);
    }
  }

  lemma ServeMoveKeepsSmooth(accepts: Accepts, w: World, step: Step)
    requires CanMove(accepts, w, Serve(step)) && Smooth(Serve(step)) && WorldInv(accepts, w) && SmoothInv(w)
    ensures SmoothInv(MoveTo(accepts, w, Serve(step)))
  {
    StepFrame(accepts, w.server, step);
    assert SmoothRequest(w, w.server.reqs[step.id]);
    RequestIsValid(accepts, w, step.id);
    TableIsThere(accepts, w);
    ServeKeepsSmooth(accepts, w.server, step);
    SmoothWith(w, Apply(accepts, w.server, step), step.id);
  }

  lemma TableIsThere(accepts: Accepts, w: World)
    requires WorldInv(accepts, w)
    ensures Log(w.server, w.table) != []
  {
  }

  lemma SubmitKeepsSmooth(accepts: Accepts, w: World, c: ClientId, id: RequestId)
    requires CanMove(accepts, w, Submit(c, id)) && SmoothInv(w)
    ensures SmoothInv(MoveTo(accepts, w, Submit(c, id)))
  {
    var s := Apply(accepts, w.server, Submission(w, c, id));
    SmoothWith(w, s, id);
    var u := MoveTo(accepts, w, Submit(c, id));
    assert forall h | h in u.server.reqs :: SmoothRequest(w.(server := s), u.server.reqs[h]);
  }

  lemma ClientMoveKeepsSmooth(w: World, c: ClientId, k: Client)
    requires SmoothInv(w) && c in w.clients && k.wire == w.clients[c].wire && k.pc != Failed
    ensures SmoothInv(SetClient(w, c, k))
  {
    var u := SetClient(w, c, k);
    forall h | h in u.server.reqs
      ensures SmoothRequest(u, u.server.reqs[h])
    {
      assert SmoothRequest(w, w.server.reqs[h]);
    }
  }

  lemma MoveKeepsSmooth(accepts: Accepts, w: World, m: Move)
    requires CanMove(accepts, w, m) && Smooth(m) && WorldInv(accepts, w) && SmoothInv(w)
    ensures SmoothInv(MoveTo(accepts, w, m))
  {
    match m
    case Serve(step) => ServeMoveKeepsSmooth(accepts, w, step);
    case Submit(c, id) => SubmitKeepsSmooth(accepts, w, c, id);
    case ReadVersion(c) => ClientMoveKeepsSmooth(w, c, MoveTo(accepts, w, m).clients[c]);
    case Receive(c) =>
      assert SmoothRequest(w, w.server.reqs[w.clients[c].attempt.value]);
      ClientMoveKeepsSmooth(w, c, MoveTo(accepts, w, m).clients[c]);
  }

  lemma {:induction false} SmoothRunKeepsInv(accepts: Accepts, w: World, ms: seq<Move>)
    requires WorldInv(accepts, w) && SmoothInv(w) && ValidMoves(accepts, w, ms) && SmoothMoves(ms)
    ensures WorldInv(accepts, AfterMoves(accepts, w, ms)) && SmoothInv(AfterMoves(accepts, w, ms))
    decreases |ms|
  {
    if ms == [] {
    } else {
      MoveKeepsSmooth(accepts, w, ms[0]);
      RetryClients.MoveKeepsInv(accepts, w, ms[0]);
      SmoothRunKeepsInv(accepts, MoveTo(accepts, w, ms[0]), ms[1..]);
    }
  }

  // ----- No deadlock -----

  lemma {:induction false} UpperBound(ns: set<nat>) returns (n: nat)
    ensures forall x | x in ns :: x < n
  {
    n := 0;
    if ns == {} {
    } else {
      var x :| x in ns;
      var rest := ns - {x};
      n := UpperBound(rest);
      n := n + x + 1;
      assert forall y | y in ns :: y == x || y in rest;
    }
  }

  lemma UnusedAddress(ls: L.State) returns (a: L.Addr)
    ensures !L.Referenced(ls, a)
  {
    var handleAddrs := set h | h in ls.handles :: ls.handles[h].addr;
    a := UpperBound(ls.locks.Values + handleAddrs);
    assert forall h | h in ls.handles :: ls.handles[h].addr in handleAddrs;
  }

  /** What deadlock freedom needs to know of a request. */
  ghost predicate Going(s: State, id: RequestId) {
    && id in s.reqs && 0 in s.locks && HandleOk(s, id) && !PutOutlives(s.reqs[id].pc) && !s.reqs[id].pc.Cancelled?
    && s.reqs[id].replica in s.allowlists && Validate(s.reqs[id], s.allowlists[s.reqs[id].replica]).Ok?
    && (s.reqs[id].pc.Existing? ==> Log(s, s.reqs[id].table) != [])
    && PcOk(s.reqs[id], Log(s, s.reqs[id].table)) && Fresh(s.reqs[id], Log(s, s.reqs[id].table))
  }

  lemma IsGoing(accepts: Accepts, w: World, id: RequestId)
    requires WorldInv(accepts, w) && SmoothInv(w) && id in w.server.reqs
    ensures Going(w.server, id)
  {
    var q := w.server.reqs[id];
    RequestIsValid(accepts, w, id);
    assert SmoothRequest(w, q) && HandleOk(w.server, id) && RequestValidated(q, w.server.allowlists);
    assert RequestOk(accepts, id, q, Log(w.server, q.table)) && Fresh(q, Log(w.server, q.table));
  }

  predicate Proceeds(accepts: Accepts, s: State, step: Step) {
    !step.Arrive? && Enabled(accepts, s, step) && Sole(s, step) && Smooth(Serve(step))
  }

  lemma CriticalProceeds(accepts: Accepts, s: State, id: RequestId) returns (step: Step)
    requires Going(s, id) && Critical(s.reqs[id])
    ensures Proceeds(accepts, s, step)
  {
    match s.reqs[id].pc
    case Locked => step := CheckExists(id, true);
    case Existing => step := Open(id, true);
    case Opened(_) => step := CheckVersion(id);
    case Putting => step := FinishPut(id, true, true);
  }

  lemma ArrivedProceeds(accepts: Accepts, s: State, id: RequestId) returns (step: Step)
    requires Going(s, id) && s.reqs[id].pc.Arrived? && L.MapInv(s.locks[0])
    ensures Proceeds(accepts, s, step)
  {
    var a := UnusedAddress(s.locks[0]);
    step := Begin(id, a);
  }

  /** Whoever holds the lock a request waits for can go on. */
  lemma HolderProceeds(accepts: Accepts, s: State, h: RequestId) returns (step: Step)
    requires Going(s, h) && L.At(s.locks[0], h, L.Holding)
    ensures Proceeds(accepts, s, step)
  {
    if Critical(s.reqs[h]) {
      step := CriticalProceeds(accepts, s, h);
    } else {
      step := Unwind(h, L.Release(h));
    }
  }

  lemma WaitingProceeds(accepts: Accepts, s: State, id: RequestId) returns (step: Step)
    requires Going(s, id) && s.reqs[id].pc.Waiting?
    requires L.HolderInv(s.locks[0]) && OwnersOk(s) && forall h | h in s.reqs :: Going(s, h)
    ensures Proceeds(accepts, s, step)
  {
    var ls := s.locks[0];
    var e := ls.heap[ls.handles[id].addr];
    if e.holder.None? {
      step := Acquire(id);
    } else {
      assert Going(s, e.holder.value);
      step := HolderProceeds(accepts, s, e.holder.value);
    }
  }

  lemma LockFacts(ls: L.State)
    requires P.Reachable(ls)
    ensures L.MapInv(ls) && L.HolderInv(ls)
  {
    P.ReachableInv(ls);
  }

  /** As long as a request has not been answered, some request can take a step. */
  lemma ServerProceeds(accepts: Accepts, w: World, id: RequestId) returns (step: Step)
    requires WorldInv(accepts, w) && SmoothInv(w) && id in w.server.reqs && !w.server.reqs[id].pc.Replied?
    ensures Proceeds(accepts, w.server, step)
  {
    var s := w.server;
    forall h | h in s.reqs
      ensures Going(s, h)
    {
      IsGoing(accepts, w, h);
    }
    LockFacts(s.locks[0]);
    step := OneProceeds(accepts, s, id);
  }

  lemma OneProceeds(accepts: Accepts, s: State, id: RequestId) returns (step: Step)
    requires id in s.reqs && !s.reqs[id].pc.Replied? && forall h | h in s.reqs :: Going(s, h)
    requires 0 in s.locks && L.MapInv(s.locks[0]) && L.HolderInv(s.locks[0]) && OwnersOk(s)
    ensures Proceeds(accepts, s, step)
  {
    assert Going(s, id);
    if s.reqs[id].pc.Arrived? {
      step := ArrivedProceeds(accepts, s, id);
    } else if s.reqs[id].pc.Waiting? {
      step := WaitingProceeds(accepts, s, id);
    } else {
      step := CriticalProceeds(accepts, s, id);
    }
  }

  /** No deadlock: while a writer has not finished, some move can be made. */
  lemma NextMove(accepts: Accepts, w: World, c: ClientId) returns (m: Move)
    requires WorldInv(accepts, w) && SmoothInv(w) && c in w.clients && w.clients[c].pc != Finished
    ensures CanMove(accepts, w, m) && Smooth(m)
  {
    assert ClientOk(w, c);
    match w.clients[c].pc
    case Reading => m := ReadVersion(c);
    case Ready =>
      var id := UpperBound(w.server.reqs.Keys);
      assert id !in w.server.reqs;
      m := Submit(c, id);
    case Awaiting =>
      if w.server.reqs[w.clients[c].attempt.value].pc.Replied? {
        m := Receive(c);
      } else {
        var step := ServerProceeds(accepts, w, w.clients[c].attempt.value);
        m := Serve(step);
      }
  }

  // ----- Completion -----

  ghost predicate AllDone(w: World) {
    forall c | c in w.clients :: w.clients[c].pc == Finished
  }

  /** A run without failures that cannot be continued has served every writer. */
  lemma {:induction false} StuckMeansDone(accepts: Accepts, w0: World, ms: seq<Move>)
    requires Start(w0) && Writable(w0) && ValidMoves(accepts, w0, ms) && SmoothMoves(ms)
    requires forall m | Smooth(m) :: !CanMove(accepts, AfterMoves(accepts, w0, ms), m)
    ensures AllDone(AfterMoves(accepts, w0, ms))
  {
    var w := AfterMoves(accepts, w0, ms);
    SmoothRunOfStart(accepts, w0, ms);
    if c :| c in w.clients && w.clients[c].pc != Finished {
      var m := NextMove(accepts, w, c);
      assert false;
    }
  }

  /** So N writers end with exactly N new versions, one each, after at most N(N-1)/2 aborts. */
  lemma {:induction false} EveryWriterLandsOnce(accepts: Accepts, w0: World, ms: seq<Move>)
    returns (order: seq<ClientId>)
    requires Start(w0) && Writable(w0) && ValidMoves(accepts, w0, ms) && SmoothMoves(ms)
    requires forall m | Smooth(m) :: !CanMove(accepts, AfterMoves(accepts, w0, ms), m)
    ensures var w := AfterMoves(accepts, w0, ms);
            && w.clients.Keys == w0.clients.Keys && AllLanded(w, order)
            && |Log(w.server, w0.table)| == |Log(w0.server, w0.table)| + |w0.clients|
            && WithinBounds(w, |w0.clients.Keys|)
  {
    StuckMeansDone(accepts, w0, ms);
    RetriesAreBounded(accepts, w0, ms);
    order := AllFinished(accepts, w0, ms);
  }

  lemma SmoothRunOfStart(accepts: Accepts, w0: World, ms: seq<Move>)
    requires Start(w0) && Writable(w0) && ValidMoves(accepts, w0, ms) && SmoothMoves(ms)
    ensures WorldInv(accepts, AfterMoves(accepts, w0, ms)) && SmoothInv(AfterMoves(accepts, w0, ms))
  {
    StartIsInv(accepts, w0);
    SmoothRunKeepsInv(accepts, w0, ms);
  }

  lemma {:induction false} OneMoreMove(accepts: Accepts, w: World, ms: seq<Move>, m: Move)
    requires ValidMoves(accepts, w, ms) && CanMove(accepts, AfterMoves(accepts, w, ms), m)
    ensures ValidMoves(accepts, w, ms + [m])
    ensures AfterMoves(accepts, w, ms + [m]) == MoveTo(accepts, AfterMoves(accepts, w, ms), m)
    decreases |ms|
  {
    if ms == [] {
      assert ValidMoves(accepts, MoveTo(accepts, w, m), []);
      assert ms + [m] == [m] && [m][1..] == [];
    } else {
      OneMoreMove(accepts, MoveTo(accepts, w, ms[0]), ms[1..], m);
      assert (ms + [m])[1..] == ms[1..] + [m];
    }
  }

  /** Wherever a run without failures stands, it can be completed so that every writer has
      finished; and no scheduling can put that off beyond the bound of `RunsAreBounded`. */
  lemma {:induction false} SmoothRunsComplete(accepts: Accepts, w0: World, ms: seq<Move>) returns (all: seq<Move>)
    requires Start(w0) && Writable(w0) && ValidMoves(accepts, w0, ms) && SmoothMoves(ms)
    ensures ms <= all && ValidMoves(accepts, w0, all) && SmoothMoves(all)
    ensures AllDone(AfterMoves(accepts, w0, all))
    decreases 7 * |w0.clients| * (|w0.clients| + 1) + 1 - |ms|
  {
    var w := AfterMoves(accepts, w0, ms);
    all := ms;
    if c :| c in w.clients && w.clients[c].pc != Finished {
      SmoothRunOfStart(accepts, w0, ms);
      var m := NextMove(accepts, w, c);
      OneMoreMove(accepts, w0, ms, m);
      RunsAreBounded(accepts, w0, ms);
      all := SmoothRunsComplete(accepts, w0, ms + [m]);
    }
  }
}
