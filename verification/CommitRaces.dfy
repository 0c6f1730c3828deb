/**
 One run for each thing that `SkippedEntries` leaves open: a commit that expected version 0 and is
 answered with version 2 because of a writer outside the service, of another replica, or of a put
 that outlived its handler's lock; and a create race that is lost.
 */
module CommitRaces {
  import opened Wrappers
  import opened Actions
  import opened CommitProtocol
  import opened CommitRuns
  import opened SkippedEntries
  import L = TableLocks

  function AcceptAll(): Accepts {
    (op, mine, theirs) => true
  }

  ghost predicate CanReach(s: State, t: State) {
    exists steps :: Leads(AcceptAll(), s, steps, t)
  }

  lemma Takes(s: State, step: Step)
    requires Enabled(AcceptAll(), s, step)
    ensures CanReach(s, Apply(AcceptAll(), s, step))
  {
    OneStep(AcceptAll(), s, step);
  }

  lemma Then(s: State, t: State, u: State)
    requires CanReach(s, t) && CanReach(t, u)
    ensures CanReach(s, u)
  {
    var a :| Leads(AcceptAll(), s, a, t);
    var b :| Leads(AcceptAll(), t, b, u);
    RunThenRun(AcceptAll(), s, a, t, b, u);
  }

  // ----- A request up to its put -----

  const EMPTY_COMMIT := Entry(None, [])

  /** Two replicas that admit every table, and one table. */
  function Scene(table: Table, log: seq<Entry>): State {
    State(map[0 := None, 1 := None], map[0 := L.INIT, 1 := L.INIT], map[], map[table := log])
  }

  /** An empty commit against version 0, with its put issued. */
  function Attempt(replica: ReplicaId, table: Table): Request {
    Request(replica, table, Ok(table), Some(0), [], table, [], Putting, AppendPut(0), None)
  }

  /** A commit that creates the table, with its put issued. */
  function Creation(replica: ReplicaId, table: Table, p: Protocol, m: Metadata): Request {
    Request(replica, table, Ok(table), None, [WireProtocol(Ok(p)), WireMetadata(Ok(m))],
            table, [ProtocolAction(p), MetadataAction(m)], Putting, CreatePut, None)
  }

  /** The message of a request, as it arrives. */
  function Arrival(id: RequestId, q: Request): Step {
    Arrive(id, q.replica, q.rawUri, q.ensured, q.expected, q.wire)
  }

  function Unserved(q: Request): Request {
    q.(table := "", actions := [], pc := Arrived, put := NoPut, landed := None)
  }

  /** Nothing keeps the request from issuing its put on a log like this. */
  ghost predicate WillPut(s: State, id: RequestId, q: Request, newAddr: L.Addr) {
    && id !in s.reqs && q.replica in s.allowlists && s.allowlists[q.replica] == None
    && q.ensured == Ok(q.table) && MapActions(q.wire) == Ok(q.actions)
    && q.replica in s.locks && Grantable(s.locks[q.replica], id, q.table, newAddr)
    && q == Checked(Unserved(q).(table := q.table, actions := q.actions), Log(s, q.table))
  }

  function Issued(s: State, id: RequestId, q: Request, newAddr: L.Addr): State
    requires q.replica in s.locks && Grantable(s.locks[q.replica], id, q.table, newAddr)
  {
    s.(reqs := s.reqs[id := q],
       locks := s.locks[q.replica := LockedBy(s.locks[q.replica], id, q.table, newAddr)])
  }

  lemma ArrivesUncontended(s: State, id: RequestId, q: Request, newAddr: L.Addr) returns (t: State)
    requires WillPut(s, id, q, newAddr)
    ensures CanReach(s, t) && t == SetReq(s, id, Unserved(q)) && Uncontended(t, id, newAddr)
    ensures Validated(t, id) == Unserved(q).(table := q.table, actions := q.actions)
  {
    Takes(s, Arrival(id, q));
    t := SetReq(s, id, Unserved(q));
    assert Validate(Unserved(q), None) == Ok((q.table, q.actions));
  }

  lemma ReachesPut(s: State, id: RequestId, q: Request, newAddr: L.Addr)
    requires WillPut(s, id, q, newAddr)
    ensures CanReach(s, Issued(s, id, q, newAddr))
  {
    var t := ArrivesUncontended(s, id, q, newAddr);
    UncontendedPuts(t, id, newAddr);
    IssuedIsChecked(s, t, id, q, newAddr);
    Then(s, t, Issued(s, id, q, newAddr));
  }

  lemma UncontendedPuts(s: State, id: RequestId, newAddr: L.Addr)
    requires Uncontended(s, id, newAddr)
    ensures CanReach(s, AfterChecks(s, id, newAddr))
  {
    UncontendedIsChecked(AcceptAll(), s, id, newAddr);
  }

  lemma IssuedIsChecked(s: State, t: State, id: RequestId, q: Request, newAddr: L.Addr)
    requires WillPut(s, id, q, newAddr) && t == SetReq(s, id, Unserved(q)) && Uncontended(t, id, newAddr)
    requires Validated(t, id) == Unserved(q).(table := q.table, actions := q.actions)
    ensures AfterChecks(t, id, newAddr) == Issued(s, id, q, newAddr)
  {
    assert AfterChecks(t, id, newAddr).reqs == Issued(s, id, q, newAddr).reqs;
  }

  /** A put that is issued can land and be answered. */
  lemma Finishes(s: State, id: RequestId) returns (t: State)
    requires PcIs(s, id, Putting) && !s.reqs[id].put.NoPut?
    ensures CanReach(s, t)
    ensures var q := s.reqs[id];
            var v := |Log(s, q.table)|;
            && t.reqs == s.reqs[id := q.(landed := Some(v), pc := Replied(ReplyTo(q.put, v, true, true)))]
            && Log(t, q.table) == Log(s, q.table) + [Entry(Some(id), q.actions)]
  {
    Takes(s, FinishPut(id, true, true));
    t := Apply(AcceptAll(), s, FinishPut(id, true, true));
  }

  /** So can one whose handler has ended. */
  lemma FinishesLate(s: State, id: RequestId) returns (t: State)
    requires id in s.reqs && PutOutlives(s.reqs[id].pc) && !s.reqs[id].put.NoPut?
    ensures CanReach(s, t)
    ensures var q := s.reqs[id];
            && t.reqs == s.reqs[id := q.(landed := Some(|Log(s, q.table)|), pc := Decided(q.pc))]
            && Log(t, q.table) == Log(s, q.table) + [Entry(Some(id), q.actions)]
  {
    Takes(s, LateFinish(id, true));
    t := Apply(AcceptAll(), s, LateFinish(id, true));
  }

  lemma OthersAppend(s: State, table: Table, actions: seq<Action>) returns (t: State)
    ensures CanReach(s, t) && t.reqs == s.reqs && Log(t, table) == Log(s, table) + [Entry(None, actions)]
  {
    Takes(s, External(table, actions));
    t := Apply(AcceptAll(), s, External(table, actions));
  }

  lemma FirstGrant(table: Table, id: RequestId)
    ensures Grantable(L.INIT, id, table, 0)
  {
  }

  /** The first request of the scene. */
  function First(table: Table, log: seq<Entry>, q: Request): State
    requires q.replica < 2 && q.table == table
  {
    FirstGrant(table, 1);
    Issued(Scene(table, log), 1, q, 0)
  }

  lemma SceneIsInit(table: Table, log: seq<Entry>)
    requires forall e | e in log :: e.author == None
    ensures Init(Scene(table, log))
  {
  }

  lemma AttemptPuts(table: Table)
    ensures CanReach(Scene(table, [EMPTY_COMMIT]), First(table, [EMPTY_COMMIT], Attempt(0, table)))
  {
    FirstGrant(table, 1);
    assert MapActions([]) == Ok([]);
    ReachesPut(Scene(table, [EMPTY_COMMIT]), 1, Attempt(0, table), 0);
  }

  // ----- The three causes -----

  /** The request that expected version 0 is told version 2. */
  ghost predicate Skips(t: State, id: RequestId, table: Table) {
    && PcIs(t, id, Replied(Committed(2))) && t.reqs[id].expected == Some(0) && t.reqs[id].table == table
    && |Log(t, table)| == 3
  }

  lemma OutsideFirst(table: Table, s: State) returns (t: State)
    requires Log(s, table) == [EMPTY_COMMIT] && PcIs(s, 1, Putting) && s.reqs[1] == Attempt(0, table)
    ensures CanReach(s, t) && Skips(t, 1, table) && Log(t, table)[1].author == None
  {
    var s1 := OthersAppend(s, table, []);
    t := Finishes(s1, 1);
    Then(s, s1, t);
  }

  /** A writer outside the service gets in between. */
  lemma OutsideWriter(table: Table) returns (s: State, t: State)
    ensures Init(s) && CanReach(s, t) && Skips(t, 1, table) && Log(t, table)[1].author == None
  {
    s := Scene(table, [EMPTY_COMMIT]);
    SceneIsInit(table, [EMPTY_COMMIT]);
    AttemptPuts(table);
    var s1 := First(table, [EMPTY_COMMIT], Attempt(0, table));
    t := OutsideFirst(table, s1);
    Then(s, s1, t);
  }

  lemma SecondReplicaPuts(table: Table) returns (t: State)
    ensures CanReach(Scene(table, [EMPTY_COMMIT]), t) && Log(t, table) == [EMPTY_COMMIT]
    ensures t.reqs == map[1 := Attempt(0, table), 2 := Attempt(1, table)]
  {
    var s := First(table, [EMPTY_COMMIT], Attempt(0, table));
    AttemptPuts(table);
    FirstGrant(table, 2);
    assert MapActions([]) == Ok([]);
    ReachesPut(s, 2, Attempt(1, table), 0);
    t := Issued(s, 2, Attempt(1, table), 0);
    Then(Scene(table, [EMPTY_COMMIT]), s, t);
  }

  lemma OtherFirst(table: Table, s: State) returns (t: State)
    requires Log(s, table) == [EMPTY_COMMIT] && s.reqs == map[1 := Attempt(0, table), 2 := Attempt(1, table)]
    ensures CanReach(s, t) && Skips(t, 1, table)
    ensures Log(t, table)[1].author == Some(2) && 2 in t.reqs && t.reqs[2].replica != t.reqs[1].replica
  {
    var s1 := Finishes(s, 2);
    t := Finishes(s1, 1);
    Then(s, s1, t);
  }

  /** Another replica, with a lock of its own, gets in between. */
  lemma OtherReplica(table: Table) returns (s: State, t: State)
    ensures Init(s) && CanReach(s, t) && Skips(t, 1, table)
    ensures Log(t, table)[1].author == Some(2) && 2 in t.reqs && t.reqs[2].replica != t.reqs[1].replica
  {
    s := Scene(table, [EMPTY_COMMIT]);
    SceneIsInit(table, [EMPTY_COMMIT]);
    var s1 := SecondReplicaPuts(table);
    t := OtherFirst(table, s1);
    Then(s, s1, t);
  }

  /** How a handler can end with its put undecided: dropped, or told of a failure. */
  function Ending(cancelled: bool): Step {
    if cancelled then Cancel(1) else FinishPut(1, false, false)
  }

  lemma ReleasedIsGrantable(table: Table)
    ensures Grantable(L.INIT, 1, table, 0)
    ensures var ls := LockedBy(L.INIT, 1, table, 0);
            && L.Enabled(ls, L.Release(1)) && Grantable(L.Apply(ls, L.Release(1)), 2, table, 1)
  {
  }

  /** The first request ends and lets go of the lock; its put is still in flight. */
  lemma LetsGo(table: Table, cancelled: bool) returns (t: State)
    ensures var s := First(table, [EMPTY_COMMIT], Attempt(0, table));
            && CanReach(s, t) && t.logs == s.logs && t.allowlists == s.allowlists
            && t.reqs.Keys == {1} && t.reqs[1] == Attempt(0, table).(pc := t.reqs[1].pc)
            && PutOutlives(t.reqs[1].pc) && t.reqs[1].pc.Cancelled? == cancelled
            && 0 in t.locks && Grantable(t.locks[0], 2, table, 1)
  {
    ReleasedIsGrantable(table);
    var s := First(table, [EMPTY_COMMIT], Attempt(0, table));
    var s1 := Apply(AcceptAll(), s, Ending(cancelled));
    Takes(s, Ending(cancelled));
    t := Apply(AcceptAll(), s1, Unwind(1, L.Release(1)));
    Takes(s1, Unwind(1, L.Release(1)));
    Then(s, s1, t);
  }

  /** The second request, on the same replica, passes its own check at version 0. */
  lemma SecondPuts(table: Table, s: State) returns (t: State)
    requires s.logs == map[table := [EMPTY_COMMIT]] && s.allowlists == map[0 := None, 1 := None]
    requires s.reqs.Keys == {1} && 0 in s.locks && Grantable(s.locks[0], 2, table, 1)
    ensures CanReach(s, t) && t.logs == s.logs && t.reqs == s.reqs[2 := Attempt(0, table)]
  {
    assert MapActions([]) == Ok([]);
    ReachesPut(s, 2, Attempt(0, table), 1);
    t := Issued(s, 2, Attempt(0, table), 1);
  }

  lemma LateThenSecond(table: Table, s: State) returns (t: State)
    requires s.logs == map[table := [EMPTY_COMMIT]] && s.reqs.Keys == {1, 2}
    requires PutOutlives(s.reqs[1].pc) && s.reqs[1] == Attempt(0, table).(pc := s.reqs[1].pc)
    requires s.reqs[2] == Attempt(0, table)
    ensures CanReach(s, t) && Skips(t, 2, table)
    ensures Log(t, table)[1].author == Some(1) && 1 in t.reqs && t.reqs[1].replica == t.reqs[2].replica
    ensures Gone(t.reqs[1].pc) && t.reqs[1].pc.Cancelled? == s.reqs[1].pc.Cancelled?
  {
    var s1 := FinishesLate(s, 1);
    t := Finishes(s1, 2);
    Then(s, s1, t);
  }

  /** The put of request 1 outlives its lock, because its handler was cancelled or was told of a
      failure, and lands first; request 2, which expected version 0, is answered with version 2.
      So `NoLostUpdates` fails without the assumption that a put is decided before its lock is
      released. */
  lemma LatePut(table: Table, cancelled: bool) returns (s: State, t: State)
    ensures Init(s) && CanReach(s, t) && Skips(t, 2, table)
    ensures Log(t, table)[1].author == Some(1) && 1 in t.reqs && t.reqs[1].replica == t.reqs[2].replica
    ensures Gone(t.reqs[1].pc) && t.reqs[1].pc.Cancelled? == cancelled
  {
    s := Scene(table, [EMPTY_COMMIT]);
    SceneIsInit(table, [EMPTY_COMMIT]);
    AttemptPuts(table);
    var s1 := First(table, [EMPTY_COMMIT], Attempt(0, table));
    var s2 := LetsGo(table, cancelled);
    var s3 := SecondPuts(table, s2);
    t := LateThenSecond(table, s3);
    Then(s, s1, s2);
    Then(s, s2, s3);
    Then(s, s3, t);
  }

  // ----- An answer that says nothing -----

  lemma EndsUnacknowledged(table: Table, lands: bool) returns (t: State)
    ensures CanReach(First(table, [EMPTY_COMMIT], Attempt(0, table)), t)
    ensures PcIs(t, 1, Replied(Internal(!lands)))
    ensures Log(t, table) == [EMPTY_COMMIT] + if lands then [Entry(Some(1), [])] else []
  {
    var s := First(table, [EMPTY_COMMIT], Attempt(0, table));
    Takes(s, FinishPut(1, lands, false));
    t := Apply(AcceptAll(), s, FinishPut(1, lands, false));
  }

  /** INTERNAL leaves it open whether the commit landed: there are runs with and without its entry. */
  lemma InternalIsAmbiguous(table: Table) returns (s: State, t: State, u: State)
    ensures Init(s) && CanReach(s, t) && CanReach(s, u)
    ensures PcIs(t, 1, Replied(Internal(false))) && Log(t, table) == [EMPTY_COMMIT] + [Entry(Some(1), [])]
    ensures PcIs(u, 1, Replied(Internal(true))) && Log(u, table) == [EMPTY_COMMIT]
  {
    s := Scene(table, [EMPTY_COMMIT]);
    SceneIsInit(table, [EMPTY_COMMIT]);
    AttemptPuts(table);
    var s1 := First(table, [EMPTY_COMMIT], Attempt(0, table));
    t := EndsUnacknowledged(table, true);
    u := EndsUnacknowledged(table, false);
    Then(s, s1, t);
    Then(s, s1, u);
  }

  // ----- A lost create race -----

  lemma CreationMaps(table: Table, replica: ReplicaId, p: Protocol, m: Metadata)
    ensures var q := Creation(replica, table, p, m);
            MapActions(q.wire) == Ok(q.actions) && HasTableDefinition(q.actions)
  {
    var q := Creation(replica, table, p, m);
    MapActionsIsPointwise(q.wire);
    assert MapActions(q.wire).value == q.actions;
    assert q.actions[1..][0] == MetadataAction(m);
  }

  lemma BothCreate(table: Table, p: Protocol, m: Metadata) returns (t: State)
    ensures CanReach(Scene(table, []), t) && t.logs == map[table := []]
    ensures t.reqs == map[1 := Creation(0, table, p, m), 2 := Creation(1, table, p, m)]
  {
    var q, q' := Creation(0, table, p, m), Creation(1, table, p, m);
    FirstGrant(table, 1);
    FirstGrant(table, 2);
    CreationMaps(table, 0, p, m);
    CreationMaps(table, 1, p, m);
    var s1 := First(table, [], q);
    ReachesPut(Scene(table, []), 1, q, 0);
    ReachesPut(s1, 2, q', 0);
    t := Issued(s1, 2, q', 0);
    Then(Scene(table, []), s1, t);
  }

  lemma BothLand(table: Table, p: Protocol, m: Metadata, s: State) returns (t: State)
    requires Log(s, table) == [] && s.reqs == map[1 := Creation(0, table, p, m), 2 := Creation(1, table, p, m)]
    ensures CanReach(s, t)
    ensures PcIs(t, 1, Replied(Committed(0))) && PcIs(t, 2, Replied(Aborted(0, 1)))
    ensures |Log(t, table)| == 2 && Log(t, table)[1] == Entry(Some(2), [ProtocolAction(p), MetadataAction(m)])
  {
    var s1 := Finishes(s, 1);
    t := Finishes(s1, 2);
    Then(s, s1, t);
  }

  /** Two replicas find no table and both create it: the winner is told version 0, the loser is
      told ABORTED, and the loser's actions are in the log all the same, at version 1. */
  lemma LostCreateRace(table: Table, p: Protocol, m: Metadata) returns (s: State, t: State)
    ensures Init(s) && CanReach(s, t)
    ensures PcIs(t, 1, Replied(Committed(0))) && PcIs(t, 2, Replied(Aborted(0, 1)))
    ensures |Log(t, table)| == 2 && Log(t, table)[1] == Entry(Some(2), [ProtocolAction(p), MetadataAction(m)])
  {
    s := Scene(table, []);
    SceneIsInit(table, []);
    var s1 := BothCreate(table, p, m);
    t := BothLand(table, p, m, s1);
    Then(s, s1, t);
  }
}
