/**
 The client side of the protocol: any number of writers, each reading the current version,
 committing against it, and starting over when the reply is ABORTED.  The server is the whole
 commit protocol under the single-writer assumption; clients and server interleave freely.
 */
module RetryClients {
  import opened Wrappers
  import opened Actions
  import opened CommitProtocol
  import opened CommitSafety
  import opened SingleWriter

  type ClientId = nat

  datatype ClientPc = Reading | Ready | Awaiting | Finished | Failed

  /** `seen`: the latest version the client was told of.  `attempt`: its request in progress, or
      its last one.  `aborts`: how often it was told ABORTED. */
  datatype Client = Client(wire: seq<WireAction>, pc: ClientPc, seen: nat, attempt: Option<RequestId>, aborts: nat)

  /** `base` is the version the table had when the writers started; `owner` is history. */
  datatype World = World(
    table: Table, rawUri: string, base: nat,
    server: State, clients: map<ClientId, Client>, owner: map<RequestId, ClientId>)

  datatype Move =
    | ReadVersion(c: ClientId)
    | ReadFails(c: ClientId)
    | Submit(c: ClientId, id: RequestId)
    | Receive(c: ClientId)
    | Serve(step: Step)

  predicate ClientAt(w: World, c: ClientId, pc: ClientPc) {
    c in w.clients && w.clients[c].pc == pc
  }

  function Submission(w: World, c: ClientId, id: RequestId): Step
    requires c in w.clients
  {
    Arrive(id, 0, w.rawUri, Ok(w.table), Some(w.clients[c].seen), w.clients[c].wire)
  }

  predicate CanMove(accepts: Accepts, w: World, m: Move) {
    match m
    case ReadVersion(c) => ClientAt(w, c, Reading) && Log(w.server, w.table) != []
    case ReadFails(c) => ClientAt(w, c, Reading)
    case Submit(c, id) => ClientAt(w, c, Ready) && Enabled(accepts, w.server, Submission(w, c, id))
    case Receive(c) =>
      && ClientAt(w, c, Awaiting) && w.clients[c].attempt.Some?
      && w.clients[c].attempt.value in w.server.reqs && w.server.reqs[w.clients[c].attempt.value].pc.Replied?
    case Serve(step) => !step.Arrive? && Enabled(accepts, w.server, step) && Sole(w.server, step)
  }

  function AfterReply(k: Client, reply: Reply): Client {
    match reply
    case Committed(_) => k.(pc := Finished)
    case Aborted(_, actual) => k.(pc := Reading, seen := actual, attempt := None, aborts := k.aborts + 1)
    case _ => k.(pc := Failed)
  }

  function SetClient(w: World, c: ClientId, k: Client): World {
    w.(clients := w.clients[c := k])
  }

  function MoveTo(accepts: Accepts, w: World, m: Move): World
    requires CanMove(accepts, w, m)
  {
    match m
    case ReadVersion(c) => SetClient(w, c, w.clients[c].(pc := Ready, seen := |Log(w.server, w.table)| - 1))
    case ReadFails(c) => SetClient(w, c, w.clients[c].(pc := Failed))
    case Submit(c, id) =>
      SetClient(w.(server := Apply(accepts, w.server, Submission(w, c, id)), owner := w.owner[id := c]),
                c, w.clients[c].(pc := Awaiting, attempt := Some(id)))
    case Receive(c) =>
      SetClient(w, c, AfterReply(w.clients[c], w.server.reqs[w.clients[c].attempt.value].pc.reply))
    case Serve(step) => w.(server := Apply(accepts, w.server, step))
  }

  predicate ValidMoves(accepts: Accepts, w: World, ms: seq<Move>)
    decreases |ms|
  {
    ms != [] ==> CanMove(accepts, w, ms[0]) && ValidMoves(accepts, MoveTo(accepts, w, ms[0]), ms[1..])
  }

  function AfterMoves(accepts: Accepts, w: World, ms: seq<Move>): World
    requires ValidMoves(accepts, w, ms)
    decreases |ms|
  {
    if ms == [] then w else AfterMoves(accepts, MoveTo(accepts, w, ms[0]), ms[1..])
  }

  /** An existing table, a fresh server, and writers about to read for the first time. */
  ghost predicate Start(w: World) {
    && Init(w.server) && 0 in w.server.locks
    && |Log(w.server, w.table)| == w.base + 1
    && w.owner == map[]
    && forall c | c in w.clients ::
         && w.clients[c].pc == Reading && w.clients[c].seen == w.base
         && w.clients[c].attempt == None && w.clients[c].aborts == 0
  }

  // ----- The invariant -----

  ghost predicate ServerOk(accepts: Accepts, w: World) {
    && Inv(accepts, w.server) && SoleInv(w.server)
    && w.base < |Log(w.server, w.table)|
  }

  /** One request of a client, against the log of the table.  Unless it was told ABORTED, it is the
      client's current attempt. */
  ghost predicate AttemptOk(w: World, id: RequestId)
    requires id in w.server.reqs
  {
    var q := w.server.reqs[id];
    && id in w.owner && w.owner[id] in w.clients
    && q.ensured == Ok(w.table) && q.wire == w.clients[w.owner[id]].wire
    && q.expected.Some? && w.base <= q.expected.value < |Log(w.server, w.table)|
    && (q.pc.Replied? && q.pc.reply.Aborted? ==> q.expected.value < q.pc.reply.actual < |Log(w.server, w.table)|)
    && (!(q.pc.Replied? && q.pc.reply.Aborted?) ==> w.clients[w.owner[id]].attempt == Some(id))
  }

  ghost predicate AttemptsOk(w: World) {
    forall id | id in w.server.reqs :: AttemptOk(w, id)
  }

  ghost predicate ClientOk(w: World, c: ClientId)
    requires c in w.clients
  {
    var k := w.clients[c];
    && w.base <= k.seen < |Log(w.server, w.table)|
    && k.aborts <= k.seen - w.base
    && (k.pc.Reading? || k.pc.Ready? ==> k.attempt.None?)
    && (k.pc.Awaiting? || k.pc.Finished? ==> k.attempt.Some?)
    && (k.attempt.Some? ==>
          var id := k.attempt.value;
          && id in w.server.reqs && id in w.owner && w.owner[id] == c && w.server.reqs[id].expected == Some(k.seen)
          && (k.pc.Finished? ==> w.server.reqs[id].landed.Some?))
  }

  ghost predicate ClientsOk(w: World) {
    forall c | c in w.clients :: ClientOk(w, c)
  }

  /** Since the start only requests have appended. */
  ghost predicate AuthoredOk(w: World) {
    forall v | w.base < v < |Log(w.server, w.table)| :: Log(w.server, w.table)[v].author.Some?
  }

  ghost predicate WorldInv(accepts: Accepts, w: World) {
    ServerOk(accepts, w) && AttemptsOk(w) && ClientsOk(w) && AuthoredOk(w)
  }

  // ----- A server step -----

  /** What a server step can do to one request, as its client sees it. */
  lemma StepOnRequest(accepts: Accepts, s: State, step: Step, id: RequestId)
    requires Enabled(accepts, s, step) && !step.Arrive? && id in s.reqs
    ensures var q := s.reqs[id];
            var t := Apply(accepts, s, step);
            && id in t.reqs
            && var q' := t.reqs[id];
            && q'.ensured == q.ensured && q'.wire == q.wire && q'.expected == q.expected
            && (q'.landed != q.landed ==> InFlight(q))
            && (q.pc.Replied? ==>
                  q'.pc.Replied? && (q.pc.reply.Internal? <==> q'.pc.reply.Internal?)
                  && (!q.pc.reply.Internal? ==> q'.pc == q.pc))
  {
    StepFrame(accepts, s, step);
  }

  /** A request that is told ABORTED in this step is told a version later than it expected. */
  lemma NewAbort(accepts: Accepts, s: State, step: Step, id: RequestId, table: Table)
    requires Enabled(accepts, s, step) && !step.Arrive? && id in s.reqs && !s.reqs[id].pc.Replied?
    requires var q := s.reqs[id];
             && q.ensured == Ok(table) && q.expected.Some? && q.expected.value < |Log(s, table)|
             && PutOk(q, Log(s, q.table)) && PcOk(q, Log(s, q.table))
             && RequestValidated(q, s.allowlists) && Fresh(q, Log(s, q.table))
    requires var q := Apply(accepts, s, step).reqs[id]; q.pc.Replied? && q.pc.reply.Aborted?
    ensures s.reqs[id].expected.value < Apply(accepts, s, step).reqs[id].pc.reply.actual < |Log(s, table)|
  {
    var q := s.reqs[id];
    if step.CheckVersion? && step.id == id {
      assert Validate(q, s.allowlists[q.replica]) == Ok((q.table, q.actions));
    }
  }

  lemma ServeKeepsAttempts(accepts: Accepts, w: World, step: Step)
    requires CanMove(accepts, w, Serve(step)) && ServerOk(accepts, w) && AttemptsOk(w) && ClientsOk(w)
    ensures AttemptsOk(MoveTo(accepts, w, Serve(step)))
  {
    var u := MoveTo(accepts, w, Serve(step));
    StepFrame(accepts, w.server, step);
    LogGrowsInStep(accepts, w.server, step, w.table);
    forall id | id in u.server.reqs
      ensures AttemptOk(u, id)
    {
      assert AttemptOk(w, id);
      var q := w.server.reqs[id];
      assert RequestOk(accepts, id, q, Log(w.server, q.table)) && RequestValidated(q, w.server.allowlists)
             && Fresh(q, Log(w.server, q.table));
      ServeKeepsAttempt(accepts, w, step, id);
    }
  }

  lemma ServeKeepsAttempt(accepts: Accepts, w: World, step: Step, id: RequestId)
    requires CanMove(accepts, w, Serve(step)) && id in w.server.reqs && AttemptOk(w, id)
    requires var q := w.server.reqs[id];
             && PutOk(q, Log(w.server, q.table)) && PcOk(q, Log(w.server, q.table))
             && RequestValidated(q, w.server.allowlists) && Fresh(q, Log(w.server, q.table))
    requires Log(w.server, w.table) <= Log(Apply(accepts, w.server, step), w.table)
    ensures id in Apply(accepts, w.server, step).reqs
    ensures AttemptOk(MoveTo(accepts, w, Serve(step)), id)
  {
    var s := w.server;
    var q := s.reqs[id];
    StepOnRequest(accepts, s, step, id);
    var q' := Apply(accepts, s, step).reqs[id];
    if q'.pc.Replied? && q'.pc.reply.Aborted? && !q.pc.Replied? {
      NewAbort(accepts, s, step, id, w.table);
    }
  }

  lemma ServeKeepsClients(accepts: Accepts, w: World, step: Step)
    requires CanMove(accepts, w, Serve(step)) && RequestsOk(accepts, w.server) && ClientsOk(w)
    ensures ClientsOk(MoveTo(accepts, w, Serve(step)))
  {
    var u := MoveTo(accepts, w, Serve(step));
    LogGrowsInStep(accepts, w.server, step, w.table);
    forall c | c in u.clients
      ensures ClientOk(u, c)
    {
      assert ClientOk(w, c);
      if w.clients[c].attempt.Some? {
        var id := w.clients[c].attempt.value;
        StepOnRequest(accepts, w.server, step, id);
        assert RequestOk(accepts, id, w.server.reqs[id], Log(w.server, w.server.reqs[id].table));
      }
    }
  }

  lemma ServeKeepsAuthored(accepts: Accepts, w: World, step: Step)
    requires CanMove(accepts, w, Serve(step)) && AuthoredOk(w)
    ensures AuthoredOk(MoveTo(accepts, w, Serve(step)))
  {
    LogGrowsInStep(accepts, w.server, step, w.table);
    NewEntryHasAuthor(accepts, w.server, step, w.table);
  }

  lemma NewEntryHasAuthor(accepts: Accepts, s: State, step: Step, t: Table)
    requires Enabled(accepts, s, step) && !step.External?
    ensures forall v | |Log(s, t)| <= v < |Log(Apply(accepts, s, step), t)| ::
              Log(Apply(accepts, s, step), t)[v].author.Some?
  {
  }

  lemma ServeKeepsServer(accepts: Accepts, w: World, step: Step)
    requires Enabled(accepts, w.server, step) && Sole(w.server, step) && ServerOk(accepts, w)
    ensures ServerOk(accepts, w.(server := Apply(accepts, w.server, step)))
  {
    StepKeepsSoleInv(accepts, w.server, step);
    StepKeepsRequests(accepts, w.server, step);
    StepKeepsValidated(accepts, w.server, step);
    LogGrowsInStep(accepts, w.server, step, w.table);
  }

  // ----- A client move -----

  /** A client that changes its own record, with the server as it is.  Its requests must not
      depend on what it forgets. */
  lemma ClientMoveKeepsAttempts(w: World, c: ClientId, k: Client)
    requires AttemptsOk(w) && c in w.clients && k.wire == w.clients[c].wire
    requires k.attempt != w.clients[c].attempt ==>
               forall id | id in w.server.reqs && w.clients[c].attempt == Some(id) ::
                 w.server.reqs[id].pc.Replied? && w.server.reqs[id].pc.reply.Aborted?
    ensures AttemptsOk(SetClient(w, c, k))
  {
    var u := SetClient(w, c, k);
    forall id | id in u.server.reqs
      ensures AttemptOk(u, id)
    {
      assert AttemptOk(w, id);
    }
  }

  lemma ClientMoveKeepsClients(w: World, c: ClientId, k: Client)
    requires ClientsOk(w) && c in w.clients && ClientOk(SetClient(w, c, k), c)
    ensures ClientsOk(SetClient(w, c, k))
  {
    var u := SetClient(w, c, k);
    forall d | d in u.clients
      ensures ClientOk(u, d)
    {
      assert d != c ==> ClientOk(w, d);
    }
  }

  lemma ReadKeepsInv(accepts: Accepts, w: World, m: Move)
    requires m.ReadVersion? || m.ReadFails?
    requires CanMove(accepts, w, m) && AttemptsOk(w) && ClientsOk(w)
    ensures AttemptsOk(MoveTo(accepts, w, m)) && ClientsOk(MoveTo(accepts, w, m))
  {
    var k := MoveTo(accepts, w, m).clients[m.c];
    assert ClientOk(w, m.c);
    ClientMoveKeepsAttempts(w, m.c, k);
    ClientMoveKeepsClients(w, m.c, k);
  }

  lemma ReceiveKeepsInv(accepts: Accepts, w: World, c: ClientId)
    requires CanMove(accepts, w, Receive(c)) && RequestsOk(accepts, w.server) && AttemptsOk(w) && ClientsOk(w)
    ensures AttemptsOk(MoveTo(accepts, w, Receive(c))) && ClientsOk(MoveTo(accepts, w, Receive(c)))
  {
    var k := MoveTo(accepts, w, Receive(c)).clients[c];
    var id := w.clients[c].attempt.value;
    assert ClientOk(w, c) && AttemptOk(w, id);
    assert RequestOk(accepts, id, w.server.reqs[id], Log(w.server, w.server.reqs[id].table));
    ClientMoveKeepsAttempts(w, c, k);
    ClientMoveKeepsClients(w, c, k);
  }

  lemma SubmitKeepsAttempts(accepts: Accepts, w: World, c: ClientId, id: RequestId)
    requires CanMove(accepts, w, Submit(c, id)) && AttemptsOk(w) && ClientsOk(w)
    ensures AttemptsOk(MoveTo(accepts, w, Submit(c, id)))
  {
    var u := MoveTo(accepts, w, Submit(c, id));
    assert Log(u.server, w.table) == Log(w.server, w.table);
    assert ClientOk(w, c);
    forall g | g in u.server.reqs
      ensures AttemptOk(u, g)
    {
      assert g != id ==> AttemptOk(w, g);
    }
  }

  lemma SubmitKeepsClients(accepts: Accepts, w: World, c: ClientId, id: RequestId)
    requires CanMove(accepts, w, Submit(c, id)) && ClientsOk(w)
    ensures ClientsOk(MoveTo(accepts, w, Submit(c, id)))
  {
    var u := MoveTo(accepts, w, Submit(c, id));
    assert Log(u.server, w.table) == Log(w.server, w.table);
    assert ClientOk(w, c);
    forall d | d in u.clients
      ensures ClientOk(u, d)
    {
      assert ClientOk(w, d);
    }
  }

  lemma SubmitKeepsInv(accepts: Accepts, w: World, c: ClientId, id: RequestId)
    requires CanMove(accepts, w, Submit(c, id)) && WorldInv(accepts, w)
    ensures WorldInv(accepts, MoveTo(accepts, w, Submit(c, id)))
  {
    ServeKeepsServer(accepts, w, Submission(w, c, id));
    SubmitKeepsAttempts(accepts, w, c, id);
    SubmitKeepsClients(accepts, w, c, id);
  }

  lemma MoveKeepsInv(accepts: Accepts, w: World, m: Move)
    requires CanMove(accepts, w, m) && WorldInv(accepts, w)
    ensures WorldInv(accepts, MoveTo(accepts, w, m))
  {
    match m
    case ReadVersion(_) => ReadKeepsInv(accepts, w, m);
    case ReadFails(_) => ReadKeepsInv(accepts, w, m);
    case Submit(c, id) => SubmitKeepsInv(accepts, w, c, id);
    case Receive(c) => ReceiveKeepsInv(accepts, w, c);
    case Serve(step) =>
      ServeKeepsServer(accepts, w, step);
      ServeKeepsAttempts(accepts, w, step);
      ServeKeepsClients(accepts, w, step);
      ServeKeepsAuthored(accepts, w, step);
  }

  lemma MoveFrame(accepts: Accepts, w: World, m: Move)
    requires CanMove(accepts, w, m)
    ensures var u := MoveTo(accepts, w, m);
            u.base == w.base && u.table == w.table && u.clients.Keys == w.clients.Keys
  {
  }

  lemma {:induction false} MovesKeepWorldInv(accepts: Accepts, w: World, ms: seq<Move>)
    requires WorldInv(accepts, w) && ValidMoves(accepts, w, ms)
    ensures WorldInv(accepts, AfterMoves(accepts, w, ms))
    ensures AfterMoves(accepts, w, ms).base == w.base && AfterMoves(accepts, w, ms).table == w.table
    ensures AfterMoves(accepts, w, ms).clients.Keys == w.clients.Keys
    decreases |ms|
  {
    if ms == [] {
    } else {
      MoveKeepsInv(accepts, w, ms[0]);
      MoveFrame(accepts, w, ms[0]);
      MovesKeepWorldInv(accepts, MoveTo(accepts, w, ms[0]), ms[1..]);
    }
  }
}
