/**
 The bound of `RetryBound` is attained: for any set of writers there is a run in which they are
 told ABORTED exactly N(N-1)/2 times.  All read, one lands, the others are aborted, and so on.
 */
module RetryWorstCase {
  import opened Wrappers
  import opened Actions
  import opened CommitProtocol
  import opened CommitRuns
  import opened RetryClients
  import opened RetryBound
  import opened RetryCompletion
  import L = TableLocks

  // ----- Runs of the writers, one after the other -----

  /** No move leads out of `inv`. */
  ghost predicate Closed(accepts: Accepts, inv: World -> bool) {
    forall w, m | inv(w) && CanMove(accepts, w, m) :: inv(MoveTo(accepts, w, m))
  }

  /** `u` can be reached from `w`: it is in every closed set of worlds that `w` is in. */
  ghost predicate CanGo(accepts: Accepts, w: World, u: World) {
    forall inv: World -> bool | Closed(accepts, inv) && inv(w) :: inv(u)
  }

  lemma Goes(accepts: Accepts, w: World, m: Move)
    requires CanMove(accepts, w, m)
    ensures CanGo(accepts, w, MoveTo(accepts, w, m))
  {
  }

  lemma GoesOn(accepts: Accepts, w: World, u: World, v: World)
    requires CanGo(accepts, w, u) && CanGo(accepts, u, v)
    ensures CanGo(accepts, w, v)
  {
  }

  /** What can be reached is reached by some moves. */
  lemma GoesBySomeMoves(accepts: Accepts, w: World, u: World) returns (ms: seq<Move>)
    requires CanGo(accepts, w, u)
    ensures ValidMoves(accepts, w, ms) && AfterMoves(accepts, w, ms) == u
  {
    var reached := v => exists ms :: ValidMoves(accepts, w, ms) && AfterMoves(accepts, w, ms) == v;
    forall v, m | reached(v) && CanMove(accepts, v, m)
      ensures reached(MoveTo(accepts, v, m))
    {
      var ms :| ValidMoves(accepts, w, ms) && AfterMoves(accepts, w, ms) == v;
      OneMoreMove(accepts, w, ms, m);
    }
    assert ValidMoves(accepts, w, []) && AfterMoves(accepts, w, []) == w;
    assert Closed(accepts, reached) && reached(w);
    ms :| ValidMoves(accepts, w, ms) && AfterMoves(accepts, w, ms) == u;
  }

  /** Steps of a handler before its reply, which `Sole` never restricts. */
  predicate Unrestricted(steps: seq<Step>) {
    forall step | step in steps :: !step.Arrive? && !step.External? && !step.Unwind?
  }

  lemma {:induction false} Served(accepts: Accepts, w: World, steps: seq<Step>, t: State)
    requires Leads(accepts, w.server, steps, t) && Unrestricted(steps)
    ensures CanGo(accepts, w, w.(server := t))
    decreases |steps|
  {
    if steps == [] {
    } else {
      var r := FirstStep(accepts, w.server, steps, t);
      assert steps[0] in steps && forall step | step in steps[1..] :: step in steps;
      Goes(accepts, w, Serve(steps[0]));
      Served(accepts, w.(server := r), steps[1..], t);
      GoesOn(accepts, w, w.(server := r), w.(server := t));
    }
  }

  // ----- The lock, with one request at a time -----

  predicate Idle(ls: L.State) {
    ls.handles == map[] && ls.locks == map[]
  }

  lemma IdleIsGrantable(ls: L.State, h: L.HandleId, key: L.Key)
    requires Idle(ls)
    ensures Grantable(ls, h, key, 0)
  {
  }

  /** The only handle, in the given phase, on the only mapped entry. */
  predicate Alone(ls: L.State, h: L.HandleId, key: L.Key, phase: L.Phase) {
    && h in ls.handles && ls.handles == map[h := L.Handle(key, 0, ls.handles[h].generation, phase)]
    && 0 in ls.heap && ls.locks == map[key := 0]
    && ls.heap[0].refCount == if L.Counted(phase) then 1 else 0
  }

  lemma LocksAlone(ls: L.State, h: L.HandleId, key: L.Key)
    requires Idle(ls) && Grantable(ls, h, key, 0)
    ensures Alone(LockedBy(ls, h, key, 0), h, key, L.Holding)
  {
  }

  lemma ReleasesAlone(ls: L.State, h: L.HandleId, key: L.Key)
    requires Alone(ls, h, key, L.Holding)
    ensures L.Enabled(ls, L.Release(h))
    ensures Alone(L.Apply(ls, L.Release(h)), h, key, L.Live)
  {
  }

  lemma DecrementsAlone(ls: L.State, h: L.HandleId, key: L.Key)
    requires Alone(ls, h, key, L.Live)
    ensures L.Enabled(ls, L.FetchSub(h))
    ensures Alone(L.Apply(ls, L.FetchSub(h)), h, key, L.Pending)
  {
  }

  lemma RemovesAlone(ls: L.State, h: L.HandleId, key: L.Key)
    requires Alone(ls, h, key, L.Pending)
    ensures L.Enabled(ls, L.RemoveIfUnused(h))
    ensures var t := L.Apply(ls, L.RemoveIfUnused(h));
            L.Enabled(t, L.DropArc(h)) && Idle(L.Apply(t, L.DropArc(h)))
  {
  }

  /** The server is `s` except for the lock of its one replica. */
  function WithLock(s: State, ls: L.State): State {
    s.(locks := s.locks[0 := ls])
  }

  lemma Unwinds(accepts: Accepts, w: World, id: RequestId, lock: L.Step)
    requires id in w.server.reqs && w.server.reqs[id].replica == 0 && w.server.reqs[id].pc.Replied?
    requires !PutOutlives(w.server.reqs[id].pc)
    requires 0 in w.server.locks && Unwinding(lock) && lock.h == id && L.Enabled(w.server.locks[0], lock)
    ensures CanGo(accepts, w, w.(server := WithLock(w.server, L.Apply(w.server.locks[0], lock))))
  {
    Goes(accepts, w, Serve(Unwind(id, lock)));
  }

  lemma UnwindsTwice(accepts: Accepts, w: World, id: RequestId, a: L.Step, b: L.Step)
    requires id in w.server.reqs && w.server.reqs[id].replica == 0 && w.server.reqs[id].pc.Replied?
    requires !PutOutlives(w.server.reqs[id].pc)
    requires 0 in w.server.locks && Unwinding(a) && a.h == id && L.Enabled(w.server.locks[0], a)
    requires Unwinding(b) && b.h == id && L.Enabled(L.Apply(w.server.locks[0], a), b)
    ensures CanGo(accepts, w, w.(server := WithLock(w.server, L.Apply(L.Apply(w.server.locks[0], a), b))))
  {
    var s := w.server;
    var l1 := L.Apply(s.locks[0], a);
    var u := w.(server := WithLock(s, l1));
    Unwinds(accepts, w, id, a);
    Unwinds(accepts, u, id, b);
    assert WithLock(u.server, L.Apply(l1, b)).locks == WithLock(s, L.Apply(l1, b)).locks;
    GoesOn(accepts, w, u, w.(server := WithLock(s, L.Apply(l1, b))));
  }

  /** An answered request lets go of everything. */
  lemma LetsGo(accepts: Accepts, w: World, id: RequestId, key: L.Key) returns (ls: L.State)
    requires id in w.server.reqs && w.server.reqs[id].replica == 0 && w.server.reqs[id].pc.Replied?
    requires !PutOutlives(w.server.reqs[id].pc)
    requires 0 in w.server.locks && Alone(w.server.locks[0], id, key, L.Holding)
    ensures CanGo(accepts, w, w.(server := WithLock(w.server, ls))) && Idle(ls)
  {
    var l0 := w.server.locks[0];
    ReleasesAlone(l0, id, key);
    var l1 := L.Apply(l0, L.Release(id));
    DecrementsAlone(l1, id, key);
    var l2 := L.Apply(l1, L.FetchSub(id));
    RemovesAlone(l2, id, key);
    UnwindsTwice(accepts, w, id, L.Release(id), L.FetchSub(id));
    var u := w.(server := WithLock(w.server, l2));
    UnwindsTwice(accepts, u, id, L.RemoveIfUnused(id), L.DropArc(id));
    ls := L.Apply(L.Apply(l2, L.RemoveIfUnused(id)), L.DropArc(id));
    assert WithLock(u.server, ls).locks == WithLock(w.server, ls).locks;
    GoesOn(accepts, w, u, w.(server := WithLock(w.server, ls)));
  }

  // ----- One attempt, with nobody else about -----

  /** No request is being served. */
  ghost predicate Quiet(w: World) {
    && 0 in w.server.locks && Idle(w.server.locks[0])
    && Writable(w) && Log(w.server, w.table) != []
  }

  /** `u` has the same table, clients and configuration. */
  predicate SameSetting(w: World, u: World) {
    && u.table == w.table && u.rawUri == w.rawUri && u.base == w.base
    && u.server.allowlists == w.server.allowlists && u.clients.Keys == w.clients.Keys
  }

  /** The request of client `c` once its message is validated. */
  function RequestOf(w: World, c: ClientId): Request
    requires c in w.clients && MapActions(w.clients[c].wire).Ok?
  {
    Request(0, w.rawUri, Ok(w.table), Some(w.clients[c].seen), w.clients[c].wire,
            w.table, MapActions(w.clients[c].wire).value, Arrived, NoPut, None)
  }

  lemma Submits(accepts: Accepts, w: World, c: ClientId) returns (id: RequestId, u: World)
    requires Quiet(w) && ClientAt(w, c, Ready)
    ensures CanGo(accepts, w, u) && id !in w.server.reqs
    ensures u.clients == w.clients[c := w.clients[c].(pc := Awaiting, attempt := Some(id))]
    ensures SameSetting(w, u) && u.server.logs == w.server.logs && u.server.locks == w.server.locks
    ensures Uncontended(u.server, id, 0) && Validated(u.server, id) == RequestOf(w, c)
  {
    id := UpperBound(w.server.reqs.Keys);
    assert id !in w.server.reqs.Keys;
    Goes(accepts, w, Submit(c, id));
    u := MoveTo(accepts, w, Submit(c, id));
    IdleIsGrantable(u.server.locks[0], id, w.table);
  }

  /** The request has been checked and holds the lock; everything else is as it was. */
  ghost predicate CheckedAlone(w: World, u: World, id: RequestId, q: Request) {
    && SameSetting(w, u) && u.server.logs == w.server.logs
    && id in u.server.reqs && u.server.reqs[id] == Checked(q, Log(w.server, w.table))
    && 0 in u.server.locks && Alone(u.server.locks[0], id, w.table, L.Holding)
  }

  lemma IsChecked(accepts: Accepts, w: World, id: RequestId) returns (u: World)
    requires 0 in w.server.locks && Idle(w.server.locks[0]) && Uncontended(w.server, id, 0)
    requires Validated(w.server, id).table == w.table && Validated(w.server, id).replica == 0
    ensures CanGo(accepts, w, u) && u.clients == w.clients
    ensures CheckedAlone(w, u, id, Validated(w.server, id))
  {
    var t := AfterChecks(w.server, id, 0);
    u := w.(server := t);
    UncontendedIsChecked(accepts, w.server, id, 0);
    Served(accepts, w, ChecksRun(w.server, id, 0), t);
    LocksAlone(w.server.locks[0], id, w.table);
  }

  lemma SubmitsAndIsChecked(accepts: Accepts, w: World, c: ClientId) returns (id: RequestId, u: World)
    requires Quiet(w) && ClientAt(w, c, Ready)
    ensures CanGo(accepts, w, u)
    ensures u.clients == w.clients[c := w.clients[c].(pc := Awaiting, attempt := Some(id))]
    ensures CheckedAlone(w, u, id, RequestOf(w, c))
  {
    var v;
    id, v := Submits(accepts, w, c);
    u := IsChecked(accepts, v, id);
    GoesOn(accepts, w, v, u);
  }

  /** The answer is received, after the lock has been let go. */
  lemma Receives(accepts: Accepts, w: World, c: ClientId, id: RequestId) returns (u: World)
    requires ClientAt(w, c, Awaiting) && w.clients[c].attempt == Some(id) && id in w.server.reqs
    requires w.server.reqs[id].replica == 0 && w.server.reqs[id].pc.Replied? && !PutOutlives(w.server.reqs[id].pc)
    requires 0 in w.server.locks && Alone(w.server.locks[0], id, w.table, L.Holding)
    ensures CanGo(accepts, w, u) && SameSetting(w, u) && u.server.logs == w.server.logs
    ensures 0 in u.server.locks && Idle(u.server.locks[0])
    ensures u.clients == w.clients[c := AfterReply(w.clients[c], w.server.reqs[id].pc.reply)]
  {
    var ls := LetsGo(accepts, w, id, w.table);
    var v := w.(server := WithLock(w.server, ls));
    Goes(accepts, v, Receive(c));
    u := MoveTo(accepts, v, Receive(c));
    GoesOn(accepts, w, v, u);
  }

  lemma StillQuiet(w: World, u: World)
    requires Quiet(w) && SameSetting(w, u) && Log(u.server, u.table) != []
    requires 0 in u.server.locks && Idle(u.server.locks[0])
    requires forall c | c in w.clients :: u.clients[c].wire == w.clients[c].wire
    ensures Quiet(u)
  {
  }

  /** Only the clients in `who` have moved. */
  ghost predicate OnlyMoved(w: World, u: World, who: set<ClientId>) {
    && SameSetting(w, u)
    && (forall c | c in w.clients :: u.clients[c].wire == w.clients[c].wire)
    && (forall c | c in w.clients && c !in who :: u.clients[c] == w.clients[c])
  }

  /** One client has a new record. */
  lemma OneMoved(w: World, u: World, c: ClientId)
    requires SameSetting(w, u) && c in w.clients && c in u.clients && u.clients == w.clients[c := u.clients[c]]
    requires u.clients[c].wire == w.clients[c].wire
    ensures OnlyMoved(w, u, {c})
  {
  }

  /** The clients in `who` have moved, and nothing is going on again. */
  ghost predicate Advanced(accepts: Accepts, w: World, u: World, who: set<ClientId>) {
    CanGo(accepts, w, u) && Quiet(u) && OnlyMoved(w, u, who)
  }

  /** `c` is at `pc`, with `n` aborts more than before. */
  predicate CameTo(w: World, u: World, c: ClientId, pc: ClientPc, n: nat) {
    c in w.clients && ClientAt(u, c, pc) && u.clients[c].aborts == w.clients[c].aborts + n
  }

  /** An answer and its effect on the client that was waiting for it. */
  lemma Answers(accepts: Accepts, w: World, v: World, c: ClientId, id: RequestId) returns (u: World)
    requires CanGo(accepts, w, v) && SameSetting(w, v) && c in w.clients
    requires v.clients == w.clients[c := w.clients[c].(pc := Awaiting, attempt := Some(id))]
    requires id in v.server.reqs && v.server.reqs[id].replica == 0
    requires v.server.reqs[id].pc.Replied? && !PutOutlives(v.server.reqs[id].pc)
    requires 0 in v.server.locks && Alone(v.server.locks[0], id, v.table, L.Holding)
    ensures CanGo(accepts, w, u) && SameSetting(w, u) && u.server.logs == v.server.logs
    ensures 0 in u.server.locks && Idle(u.server.locks[0])
    ensures u.clients == w.clients[c := AfterReply(v.clients[c], v.server.reqs[id].pc.reply)]
  {
    u := Receives(accepts, v, c, id);
    GoesOn(accepts, w, v, u);
  }

  /** A client that is behind is told so. */
  lemma AttemptAborts(accepts: Accepts, w: World, c: ClientId) returns (u: World)
    requires Quiet(w) && ClientAt(w, c, Ready) && w.clients[c].seen != |Log(w.server, w.table)| - 1
    ensures Advanced(accepts, w, u, {c}) && CameTo(w, u, c, Reading, 1)
    ensures Log(u.server, u.table) == Log(w.server, w.table)
  {
    var id, v := SubmitsAndIsChecked(accepts, w, c);
    u := Answers(accepts, w, v, c, id);
    OneMoved(w, u, c);
    StillQuiet(w, u);
  }

  lemma Lands(accepts: Accepts, w: World, id: RequestId) returns (u: World)
    requires PcIs(w.server, id, Putting) && w.server.reqs[id].table == w.table
    requires w.server.reqs[id].put.AppendPut? && w.server.reqs[id].put.base + 1 == |Log(w.server, w.table)|
    ensures CanGo(accepts, w, u) && SameSetting(w, u) && u.clients == w.clients && u.server.locks == w.server.locks
    ensures Log(u.server, u.table) != [] && |Log(u.server, u.table)| == |Log(w.server, w.table)| + 1
    ensures PcIs(u.server, id, Replied(Committed(|Log(w.server, w.table)|)))
    ensures u.server.reqs[id].replica == w.server.reqs[id].replica
  {
    Goes(accepts, w, Serve(FinishPut(id, true, true)));
    u := MoveTo(accepts, w, Serve(FinishPut(id, true, true)));
  }

  lemma ChecksAndLands(accepts: Accepts, w: World, c: ClientId) returns (id: RequestId, u: World)
    requires Quiet(w) && ClientAt(w, c, Ready) && w.clients[c].seen == |Log(w.server, w.table)| - 1
    ensures CanGo(accepts, w, u) && SameSetting(w, u)
    ensures u.clients == w.clients[c := w.clients[c].(pc := Awaiting, attempt := Some(id))]
    ensures PcIs(u.server, id, Replied(Committed(|Log(w.server, w.table)|))) && u.server.reqs[id].replica == 0
    ensures 0 in u.server.locks && Alone(u.server.locks[0], id, u.table, L.Holding)
    ensures Log(u.server, u.table) != [] && |Log(u.server, u.table)| == |Log(w.server, w.table)| + 1
  {
    var v;
    id, v := SubmitsAndIsChecked(accepts, w, c);
    u := Lands(accepts, v, id);
    GoesOn(accepts, w, v, u);
  }

  /** A client that is up to date lands. */
  lemma AttemptLands(accepts: Accepts, w: World, c: ClientId) returns (u: World)
    requires Quiet(w) && ClientAt(w, c, Ready) && w.clients[c].seen == |Log(w.server, w.table)| - 1
    ensures Advanced(accepts, w, u, {c}) && CameTo(w, u, c, Finished, 0)
    ensures |Log(u.server, u.table)| == |Log(w.server, w.table)| + 1
  {
    var id, v := ChecksAndLands(accepts, w, c);
    u := Answers(accepts, w, v, c, id);
    OneMoved(w, u, c);
    StillQuiet(w, u);
  }

  // ----- Rounds -----

  lemma NobodyAdvanced(accepts: Accepts, w: World)
    requires Quiet(w)
    ensures Advanced(accepts, w, w, {})
  {
  }

  lemma AdvancedTwice(accepts: Accepts, w: World, v: World, u: World, a: set<ClientId>, b: set<ClientId>)
    requires Advanced(accepts, w, v, a) && Advanced(accepts, v, u, b)
    ensures Advanced(accepts, w, u, a + b)
  {
    GoesOn(accepts, w, v, u);
    OnlyMovedTwice(w, v, u, a, b);
  }

  lemma OnlyMovedTwice(w: World, v: World, u: World, a: set<ClientId>, b: set<ClientId>)
    requires OnlyMoved(w, v, a) && OnlyMoved(v, u, b)
    ensures OnlyMoved(w, u, a + b)
  {
  }

  /** A client that has not moved keeps its record. */
  lemma Unmoved(w: World, u: World, who: set<ClientId>, c: ClientId)
    requires OnlyMoved(w, u, who) && c in w.clients && c !in who
    ensures c in u.clients && u.clients[c] == w.clients[c]
  {
  }

  /** `c` has read the current version. */
  predicate UpToDate(w: World, c: ClientId) {
    ClientAt(w, c, Ready) && w.clients[c].seen == |Log(w.server, w.table)| - 1
  }

  /** `c` has read an earlier version. */
  predicate Behind(w: World, c: ClientId) {
    ClientAt(w, c, Ready) && w.clients[c].seen != |Log(w.server, w.table)| - 1
  }

  lemma OneReads(accepts: Accepts, w: World, c: ClientId) returns (u: World)
    requires Quiet(w) && ClientAt(w, c, Reading)
    ensures Advanced(accepts, w, u, {c}) && CameTo(w, u, c, Ready, 0) && UpToDate(u, c)
    ensures Log(u.server, u.table) == Log(w.server, w.table)
  {
    Goes(accepts, w, ReadVersion(c));
    u := MoveTo(accepts, w, ReadVersion(c));
    OneMoved(w, u, c);
    StillQuiet(w, u);
  }

  /** All read the same version. */
  lemma {:induction false} AllRead(accepts: Accepts, w: World, who: set<ClientId>) returns (u: World)
    requires Quiet(w) && forall c | c in who :: ClientAt(w, c, Reading)
    ensures Advanced(accepts, w, u, who) && Log(u.server, u.table) == Log(w.server, w.table)
    ensures forall c | c in who :: UpToDate(u, c) && CameTo(w, u, c, Ready, 0)
    decreases |who|
  {
    if who == {} {
      u := w;
      NobodyAdvanced(accepts, w);
    } else {
      var c :| c in who;
      var rest := who - {c};
      var v := OneReads(accepts, w, c);
      forall d | d in rest
        ensures ClientAt(v, d, Reading) && v.clients[d] == w.clients[d]
      {
        Unmoved(w, v, {c}, d);
      }
      u := AllRead(accepts, v, rest);
      Unmoved(v, u, rest, c);
      AdvancedTwice(accepts, w, v, u, {c}, rest);
      assert {c} + rest == who;
      forall d | d in who
        ensures UpToDate(u, d) && CameTo(w, u, d, Ready, 0)
      {
        assert d == c || (d in rest && UpToDate(u, d) && CameTo(v, u, d, Ready, 0));
      }
    }
  }

  /** All who are behind are aborted, once each. */
  lemma {:induction false} AllAbort(accepts: Accepts, w: World, who: set<ClientId>) returns (u: World)
    requires Quiet(w) && forall c | c in who :: Behind(w, c)
    ensures Advanced(accepts, w, u, who) && forall c | c in who :: CameTo(w, u, c, Reading, 1)
    decreases |who|
  {
    if who == {} {
      u := w;
      NobodyAdvanced(accepts, w);
    } else {
      var c :| c in who;
      var rest := who - {c};
      var v := AttemptAborts(accepts, w, c);
      forall d | d in rest
        ensures Behind(v, d) && v.clients[d] == w.clients[d]
      {
        Unmoved(w, v, {c}, d);
      }
      u := AllAbort(accepts, v, rest);
      Unmoved(v, u, rest, c);
      AdvancedTwice(accepts, w, v, u, {c}, rest);
      assert {c} + rest == who;
      forall d | d in who
        ensures CameTo(w, u, d, Reading, 1)
      {
        assert d == c || (d in rest && CameTo(v, u, d, Reading, 1));
      }
    }
  }

  /** All read and one lands, which leaves the others behind. */
  lemma OneLands(accepts: Accepts, w: World, who: set<ClientId>, c: ClientId) returns (u: World)
    requires Quiet(w) && c in who && forall d | d in who :: ClientAt(w, d, Reading)
    ensures Advanced(accepts, w, u, who) && CameTo(w, u, c, Finished, 0)
    ensures forall d | d in who - {c} :: Behind(u, d) && CameTo(w, u, d, Ready, 0)
  {
    var v := AllRead(accepts, w, who);
    assert UpToDate(v, c) && CameTo(w, v, c, Ready, 0);
    u := AttemptLands(accepts, v, c);
    AdvancedTwice(accepts, w, v, u, who, {c});
    assert who + {c} == who;
    forall d | d in who - {c}
      ensures Behind(u, d) && CameTo(w, u, d, Ready, 0)
    {
      assert UpToDate(v, d) && CameTo(w, v, d, Ready, 0);
      Unmoved(v, u, {c}, d);
    }
  }

  /** One round: all read, one lands, the others are aborted. */
  lemma Round(accepts: Accepts, w: World, who: set<ClientId>, c: ClientId) returns (u: World)
    requires Quiet(w) && c in who && forall d | d in who :: ClientAt(w, d, Reading)
    ensures Advanced(accepts, w, u, who) && CameTo(w, u, c, Finished, 0)
    ensures forall d | d in who - {c} :: CameTo(w, u, d, Reading, 1)
  {
    var rest := who - {c};
    var v := OneLands(accepts, w, who, c);
    u := AllAbort(accepts, v, rest);
    AdvancedTwice(accepts, w, v, u, who, rest);
    Unmoved(v, u, rest, c);
    assert who + rest == who;
    forall d | d in rest
      ensures CameTo(w, u, d, Reading, 1)
    {
      assert CameTo(w, v, d, Ready, 0) && CameTo(v, u, d, Reading, 1);
    }
  }

  // ----- The count -----

  ghost function Aborts(w: World): nat {
    Sum(AbortTally(w), w.clients.Keys)
  }

  /** One more for each client in `who`. */
  lemma {:induction false} SumOfMore(k: Tally, k': Tally, all: set<ClientId>, who: set<ClientId>)
    requires who <= all <= k.Keys && all <= k'.Keys
    requires forall c | c in all :: k'[c] == k[c] + if c in who then 1 else 0
    ensures Sum(k', all) == Sum(k, all) + |who|
    decreases |all|
  {
    if all == {} {
      assert who == {};
    } else {
      var c :| c in all;
      SumWithout(k, all, c);
      SumWithout(k', all, c);
      SumOfMore(k, k', all - {c}, who - {c});
    }
  }

  lemma RoundAborts(w: World, u: World, who: set<ClientId>, c: ClientId)
    requires OnlyMoved(w, u, who) && c in who && CameTo(w, u, c, Finished, 0)
    requires forall d | d in who - {c} :: CameTo(w, u, d, Reading, 1)
    ensures Aborts(u) == Aborts(w) + |who - {c}|
  {
    var rest := who - {c};
    forall d | d in w.clients
      ensures AbortTally(u)[d] == AbortTally(w)[d] + if d in rest then 1 else 0
    {
      if d in rest {
        assert CameTo(w, u, d, Reading, 1);
      }
    }
    assert forall d | d in rest :: CameTo(w, u, d, Reading, 1);
    SumOfMore(AbortTally(w), AbortTally(u), w.clients.Keys, rest);
  }

  lemma CountedRound(accepts: Accepts, w: World, who: set<ClientId>, c: ClientId) returns (u: World)
    requires Quiet(w) && c in who && forall d | d in who :: ClientAt(w, d, Reading)
    ensures Advanced(accepts, w, u, who)
    ensures |who| == |who - {c}| + 1 && Aborts(u) + Triangle(|who - {c}|) == Aborts(w) + Triangle(|who|)
    ensures ClientAt(u, c, Finished) && forall d | d in who - {c} :: ClientAt(u, d, Reading)
  {
    u := Round(accepts, w, who, c);
    RoundAborts(w, u, who, c);
    forall d | d in who - {c}
      ensures ClientAt(u, d, Reading)
    {
      assert CameTo(w, u, d, Reading, 1);
    }
  }

  lemma RoundThenRounds(accepts: Accepts, w: World, v: World, u: World, who: set<ClientId>, c: ClientId)
    requires c in who && Advanced(accepts, w, v, who) && Advanced(accepts, v, u, who - {c})
    requires ClientAt(v, c, Finished) && forall d | d in who - {c} :: ClientAt(u, d, Finished)
    ensures Advanced(accepts, w, u, who) && forall d | d in who :: ClientAt(u, d, Finished)
  {
    Unmoved(v, u, who - {c}, c);
    AdvancedTwice(accepts, w, v, u, who, who - {c});
    assert who + (who - {c}) == who;
    forall d | d in who
      ensures ClientAt(u, d, Finished)
    {
      assert d == c || d in who - {c};
    }
  }

  /** Round after round until all in `who` have finished. */
  lemma {:induction false} Rounds(accepts: Accepts, w: World, who: set<ClientId>) returns (u: World)
    requires Quiet(w) && forall c | c in who :: ClientAt(w, c, Reading)
    ensures Advanced(accepts, w, u, who) && Aborts(u) == Aborts(w) + Triangle(|who|)
    ensures forall c | c in who :: ClientAt(u, c, Finished)
    decreases |who|
  {
    if who == {} {
      u := w;
      NobodyAdvanced(accepts, w);
    } else {
      var c :| c in who;
      var v := CountedRound(accepts, w, who, c);
      u := Rounds(accepts, v, who - {c});
      RoundThenRounds(accepts, w, v, u, who, c);
    }
  }

  lemma StartIsQuiet(w: World)
    requires Start(w) && Writable(w)
    ensures Quiet(w) && Aborts(w) == 0
  {
    SumAtMost(AbortTally(w), w.clients.Keys, 0);
  }

  /** `n` writers have received ABORTED exactly n(n-1)/2 times. */
  ghost predicate AttainsBound(w: World, n: nat) {
    2 * Aborts(w) == n * (n - 1)
  }

  lemma TriangleAttainsBound(w: World, n: nat)
    requires Aborts(w) == Triangle(n)
    ensures AttainsBound(w, n)
  {
    TriangleIsHalfSquare(n);
  }

  lemma WorstWorld(accepts: Accepts, w0: World) returns (u: World)
    requires Start(w0) && Writable(w0)
    ensures CanGo(accepts, w0, u) && u.clients.Keys == w0.clients.Keys && AllDone(u)
    ensures AttainsBound(u, |w0.clients.Keys|)
  {
    StartIsQuiet(w0);
    u := Rounds(accepts, w0, w0.clients.Keys);
    TriangleAttainsBound(u, |w0.clients.Keys|);
    assert forall c | c in u.clients :: ClientAt(u, c, Finished);
  }

  /** For any set of N writers that the server accepts there is a run in which all of them finish
      and ABORTED is received N(N-1)/2 times: the bound of `RetriesAreBounded` is exact. */
  lemma {:induction false} BoundIsAttained(accepts: Accepts, w0: World) returns (ms: seq<Move>)
    requires Start(w0) && Writable(w0)
    ensures ValidMoves(accepts, w0, ms)
    ensures var w := AfterMoves(accepts, w0, ms);
            AllDone(w) && w.clients.Keys == w0.clients.Keys && AttainsBound(w, |w0.clients.Keys|)
  {
    var u := WorstWorld(accepts, w0);
    ms := GoesBySomeMoves(accepts, w0, u);
  }
}
