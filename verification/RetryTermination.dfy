/**
 Every run of the writers of `RetryClients` ends, whatever the scheduling, failures and
 cancellations: each move is progress of one request or of one client, a request has a bounded
 number of steps, and the number of requests is bounded because the number of aborts is.
 */
module RetryTermination {
  import opened CommitProtocol
  import opened CommitSafety
  import opened SingleWriter
  import opened RetryClients
  import opened RetryBound
  import L = TableLocks

  // ----- One request -----

  const REQUEST_STEPS: nat := 11

  function PcRank(pc: Pc): nat {
    match pc
    case Arrived => 0
    case Waiting => 1
    case Locked => 2
    case Existing => 3
    case Opened(_) => 4
    case Putting => 5
    case Cancelled(inFlight) => if inFlight then 6 else 7
    case Replied(Internal(inFlight)) => if inFlight then 6 else 7
    case Replied(_) => 7
  }

  function UnwindRank(ls: L.State, id: RequestId): nat {
    if id !in ls.handles then 4
    else
      match ls.handles[id].phase
      case Holding => 0
      case Live => 1
      case Pending => 2
      case Leaving => 3
  }

  /** How far a request has come, counting the release of its lock once the handler has ended. */
  function Progress(s: State, id: RequestId): (n: nat)
    requires id in s.reqs && 0 in s.locks
    ensures n <= REQUEST_STEPS
  {
    var pc := s.reqs[id].pc;
    PcRank(pc) + if pc.Replied? || pc.Cancelled? then UnwindRank(s.locks[0], id) else 0
  }

  lemma HandlerStepIsProgress(accepts: Accepts, s: State, step: Step)
    requires Enabled(accepts, s, step) && !step.Arrive? && !step.External? && !step.Unwind? && HandleOk(s, step.id)
    ensures var t := Apply(accepts, s, step);
            step.id in t.reqs && 0 in t.locks && Progress(t, step.id) > Progress(s, step.id)
  {
  }

  lemma UnwindIsProgress(accepts: Accepts, s: State, step: Step)
    requires Enabled(accepts, s, step) && step.Unwind? && HandleOk(s, step.id)
    ensures var t := Apply(accepts, s, step);
            step.id in t.reqs && 0 in t.locks && Progress(t, step.id) > Progress(s, step.id)
  {
  }

  lemma StepIsProgress(accepts: Accepts, s: State, step: Step)
    requires Enabled(accepts, s, step) && !step.Arrive? && !step.External? && HandleOk(s, step.id)
    ensures var t := Apply(accepts, s, step);
            step.id in t.reqs && 0 in t.locks && Progress(t, step.id) > Progress(s, step.id)
  {
    if step.Unwind? {
      UnwindIsProgress(accepts, s, step);
    } else {
      HandlerStepIsProgress(accepts, s, step);
    }
  }

  lemma OtherHandlesKept(s: L.State, step: L.Step, h: L.HandleId)
    requires L.Enabled(s, step) && step.h != h
    ensures UnwindRank(L.Apply(s, step), h) == UnwindRank(s, h)
  {
  }

  lemma OthersProgressKept(accepts: Accepts, s: State, step: Step, h: RequestId)
    requires Enabled(accepts, s, step) && !step.Arrive? && !step.External? && HandleOk(s, step.id)
    requires h in s.reqs && h != step.id
    ensures var t := Apply(accepts, s, step); h in t.reqs && 0 in t.locks && Progress(t, h) == Progress(s, h)
  {
    LockFrame(accepts, s, step);
    StepFrame(accepts, s, step);
    if LockAction(s, step).Some? {
      OtherHandlesKept(s.locks[0], LockAction(s, step).value, h);
    }
  }

  // ----- Sums that change in one place -----

  lemma {:induction false} SumSame(k: Tally, k': Tally, who: set<nat>)
    requires who <= k.Keys && who <= k'.Keys && forall c | c in who :: k[c] == k'[c]
    ensures Sum(k, who) == Sum(k', who)
    decreases |who|
  {
    if who == {} {
    } else {
      var c :| c in who;
      SumWithout(k, who, c);
      SumWithout(k', who, c);
      SumSame(k, k', who - {c});
    }
  }

  lemma SumChanges(k: Tally, k': Tally, who: set<nat>, c: nat)
    requires who <= k.Keys && who <= k'.Keys && c in who && forall d | d in who && d != c :: k[d] == k'[d]
    ensures Sum(k', who) == Sum(k, who) - k[c] + k'[c]
  {
    SumWithout(k, who, c);
    SumWithout(k', who, c);
    SumSame(k, k', who - {c});
  }

  lemma SumOfNew(k: Tally, k': Tally, who: set<nat>, c: nat)
    requires who <= k.Keys && who + {c} <= k'.Keys && c !in who && k'[c] == 0
    requires forall d | d in who :: k[d] == k'[d]
    ensures Sum(k', who + {c}) == Sum(k, who)
  {
    SumWithout(k', who + {c}, c);
    assert who + {c} - {c} == who;
    SumSame(k, k', who);
  }

  lemma {:induction false} SumLinear(k: Tally, k': Tally, who: set<nat>, a: nat)
    requires who <= k.Keys && who <= k'.Keys && forall c | c in who :: k'[c] <= a * (k[c] + 1)
    ensures Sum(k', who) <= a * (Sum(k, who) + |who|)
    decreases |who|
  {
    if who == {} {
    } else {
      var c :| c in who;
      var rest := who - {c};
      SumWithout(k, who, c);
      SumWithout(k', who, c);
      SumLinear(k, k', rest, a);
      Distribute(a, k[c] + 1, Sum(k, rest) + |rest|);
    }
  }

  lemma Distribute(a: nat, x: nat, y: nat)
    ensures a * x + a * y == a * (x + y)
  {
  }

  // ----- All requests and all clients -----

  function ProgressTally(s: State): Tally
    requires 0 in s.locks
  {
    map id | id in s.reqs :: Progress(s, id)
  }

  function ClientRank(pc: ClientPc): nat {
    match pc
    case Reading => 0
    case Ready => 1
    case Awaiting => 2
    case Finished => 3
    case Failed => 3
  }

  function ClientTally(w: World): Tally {
    map c | c in w.clients :: 3 * w.clients[c].aborts + ClientRank(w.clients[c].pc)
  }

  function AttemptTally(w: World): Tally {
    map c | c in w.clients :: w.clients[c].aborts + if w.clients[c].attempt.Some? then 1 else 0
  }

  ghost function Work(w: World): nat
    requires 0 in w.server.locks
  {
    Sum(ProgressTally(w.server), w.server.reqs.Keys) + Sum(ClientTally(w), w.clients.Keys)
  }

  /** Every request that ever arrived was aborted or is some client's last. */
  ghost predicate AttemptsCounted(w: World) {
    |w.server.reqs.Keys| == Sum(AttemptTally(w), w.clients.Keys)
  }

  lemma ServeIsWork(accepts: Accepts, s: State, step: Step)
    requires Enabled(accepts, s, step) && !step.Arrive? && !step.External? && HandleOk(s, step.id)
    ensures var t := Apply(accepts, s, step);
            && 0 in t.locks && t.reqs.Keys == s.reqs.Keys
            && Sum(ProgressTally(t), t.reqs.Keys) > Sum(ProgressTally(s), s.reqs.Keys)
  {
    var t := Apply(accepts, s, step);
    StepFrame(accepts, s, step);
    StepIsProgress(accepts, s, step);
    forall h | h in s.reqs && h != step.id
      ensures Progress(t, h) == Progress(s, h)
    {
      OthersProgressKept(accepts, s, step, h);
    }
    SumChanges(ProgressTally(s), ProgressTally(t), s.reqs.Keys, step.id);
  }

  lemma NewRequestKeepsWork(s: State, t: State, id: RequestId)
    requires 0 in s.locks && t.locks == s.locks && id !in s.reqs && t.reqs.Keys == s.reqs.Keys + {id}
    requires t.reqs[id].pc.Arrived? && forall h | h in s.reqs :: t.reqs[h] == s.reqs[h]
    ensures Sum(ProgressTally(t), t.reqs.Keys) == Sum(ProgressTally(s), s.reqs.Keys)
  {
    SumOfNew(ProgressTally(s), ProgressTally(t), s.reqs.Keys, id);
  }

  lemma ArrivalKeepsWork(accepts: Accepts, s: State, step: Step)
    requires Enabled(accepts, s, step) && step.Arrive? && 0 in s.locks
    ensures var t := Apply(accepts, s, step);
            && 0 in t.locks && |t.reqs.Keys| == |s.reqs.Keys| + 1
            && Sum(ProgressTally(t), t.reqs.Keys) == Sum(ProgressTally(s), s.reqs.Keys)
  {
    var t := Apply(accepts, s, step);
    assert t.reqs.Keys == s.reqs.Keys + {step.id};
    NewRequestKeepsWork(s, t, step.id);
  }

  /** A client's own move is one unit of its work, and leaves its attempts counted. */
  lemma ClientIsWork(w: World, u: World, c: ClientId)
    requires c in w.clients && c in u.clients && u.clients == w.clients[c := u.clients[c]]
    requires ClientTally(u)[c] > ClientTally(w)[c]
    ensures Sum(ClientTally(u), u.clients.Keys) > Sum(ClientTally(w), w.clients.Keys)
    ensures Sum(AttemptTally(u), u.clients.Keys)
            == Sum(AttemptTally(w), w.clients.Keys) - AttemptTally(w)[c] + AttemptTally(u)[c]
  {
    assert u.clients.Keys == w.clients.Keys;
    SumChanges(ClientTally(w), ClientTally(u), w.clients.Keys, c);
    SumChanges(AttemptTally(w), AttemptTally(u), w.clients.Keys, c);
  }

  lemma SubmitIsWork(accepts: Accepts, w: World, c: ClientId, id: RequestId)
    requires CanMove(accepts, w, Submit(c, id)) && ClientOk(w, c) && AttemptsCounted(w) && 0 in w.server.locks
    ensures var u := MoveTo(accepts, w, Submit(c, id));
            0 in u.server.locks && Work(u) > Work(w) && AttemptsCounted(u)
  {
    ArrivalKeepsWork(accepts, w.server, Submission(w, c, id));
    ClientIsWork(w, MoveTo(accepts, w, Submit(c, id)), c);
  }

  lemma ServeMoveIsWork(accepts: Accepts, w: World, step: Step)
    requires CanMove(accepts, w, Serve(step)) && HandleOk(w.server, step.id) && AttemptsCounted(w)
    ensures var u := MoveTo(accepts, w, Serve(step));
            0 in u.server.locks && Work(u) > Work(w) && AttemptsCounted(u)
  {
    ServeIsWork(accepts, w.server, step);
    var u := MoveTo(accepts, w, Serve(step));
    assert ClientTally(u) == ClientTally(w) && AttemptTally(u) == AttemptTally(w);
  }

  /** What a client does on its own makes it advance and forgets no attempt. */
  lemma ClientAdvances(accepts: Accepts, w: World, m: Move)
    requires CanMove(accepts, w, m) && (m.Receive? || m.ReadVersion? || m.ReadFails?) && ClientOk(w, m.c)
    ensures var u := MoveTo(accepts, w, m);
            && u.server == w.server && m.c in u.clients && u.clients == w.clients[m.c := u.clients[m.c]]
            && ClientTally(u)[m.c] > ClientTally(w)[m.c] && AttemptTally(u)[m.c] == AttemptTally(w)[m.c]
  {
  }

  lemma ReadOrReceiveIsWork(accepts: Accepts, w: World, m: Move)
    requires CanMove(accepts, w, m) && (m.Receive? || m.ReadVersion? || m.ReadFails?)
    requires ClientOk(w, m.c) && AttemptsCounted(w) && 0 in w.server.locks
    ensures var u := MoveTo(accepts, w, m);
            0 in u.server.locks && Work(u) > Work(w) && AttemptsCounted(u)
  {
    ClientAdvances(accepts, w, m);
    ClientIsWork(w, MoveTo(accepts, w, m), m.c);
  }

  lemma MoveIsWork(accepts: Accepts, w: World, m: Move)
    requires CanMove(accepts, w, m) && HandlesOk(w.server) && ClientsOk(w) && AttemptsCounted(w) && 0 in w.server.locks
    ensures var u := MoveTo(accepts, w, m);
            0 in u.server.locks && Work(u) > Work(w) && AttemptsCounted(u)
  {
    match m
    case Serve(step) =>
      assert HandleOk(w.server, step.id);
      ServeMoveIsWork(accepts, w, step);
    case Submit(c, id) => SubmitIsWork(accepts, w, c, id);
    case _ => ReadOrReceiveIsWork(accepts, w, m);
  }

  lemma {:induction false} RunIsWork(accepts: Accepts, w: World, ms: seq<Move>)
    requires WorldInv(accepts, w) && AttemptsCounted(w) && ValidMoves(accepts, w, ms)
    ensures var u := AfterMoves(accepts, w, ms);
            0 in u.server.locks && Work(u) >= Work(w) + |ms| && AttemptsCounted(u)
    decreases |ms|
  {
    if ms == [] {
    } else {
      MoveIsWork(accepts, w, ms[0]);
      RetryClients.MoveKeepsInv(accepts, w, ms[0]);
      RunIsWork(accepts, MoveTo(accepts, w, ms[0]), ms[1..]);
    }
  }

  /** Work is bounded by the aborts: each client has one attempt more than it has aborts. */
  lemma WorkIsBounded(w: World, n: nat)
    requires 0 in w.server.locks && AttemptsCounted(w) && |w.clients.Keys| == n
    ensures Work(w) <= 14 * (Sum(AbortTally(w), w.clients.Keys) + n)
  {
    SumAtMost(ProgressTally(w.server), w.server.reqs.Keys, REQUEST_STEPS);
    SumLinear(AbortTally(w), AttemptTally(w), w.clients.Keys, 1);
    SumLinear(AbortTally(w), ClientTally(w), w.clients.Keys, 3);
  }

  lemma StartIsCounted(w: World)
    requires Start(w)
    ensures AttemptsCounted(w)
  {
    assert w.server.reqs.Keys == {};
    SumAtMost(AttemptTally(w), w.clients.Keys, 0);
  }

  /** N writers make at most 7N(N + 1) moves, server steps included. */
  lemma {:induction false} RunsAreBounded(accepts: Accepts, w0: World, ms: seq<Move>)
    requires Start(w0) && ValidMoves(accepts, w0, ms)
    ensures |ms| <= 7 * |w0.clients| * (|w0.clients| + 1)
  {
    var w := AfterMoves(accepts, w0, ms);
    RunIsWorked(accepts, w0, ms);
    RetriesAreBounded(accepts, w0, ms);
    assert |w0.clients| == |w0.clients.Keys|;
    WorkIsBounded(w, |w0.clients|);
    Quadratic(|w0.clients|, Sum(AbortTally(w), w.clients.Keys), |ms|);
  }

  lemma RunIsWorked(accepts: Accepts, w0: World, ms: seq<Move>)
    requires Start(w0) && ValidMoves(accepts, w0, ms)
    ensures var w := AfterMoves(accepts, w0, ms); 0 in w.server.locks && AttemptsCounted(w) && Work(w) >= |ms|
  {
    StartIsInv(accepts, w0);
    StartIsCounted(w0);
    RunIsWork(accepts, w0, ms);
  }

  lemma Quadratic(n: nat, aborts: nat, moves: nat)
    requires 2 * aborts <= n * (n - 1) && moves <= 14 * (aborts + n)
    ensures moves <= 7 * n * (n + 1)
  {
    assert n * (n - 1) + 2 * n == n * (n + 1);
    assert 7 * n * (n + 1) == 7 * (n * (n + 1));
  }
}
