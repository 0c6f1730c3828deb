/**
 The commit protocol as a step machine: any number of requests on any number of replicas, each
 replica with its own lock manager, and one log per table.

 Between two steps of a request any other request may take any step.  The storage layer is
 modelled by its contract: a put appends one entry at the end of the log in one atomic step; with
 a base snapshot it lands only if the conflict check (`accepts`, an arbitrary function) lets every
 entry since that snapshot pass; without one (a create) it may land wherever the log ends.  A put
 may fail, its acknowledgement may be lost, and it may outlive the handler that issued it, whether
 that handler was cancelled or was told of a failure.
 */
module CommitProtocol {
  import opened Wrappers
  import opened Actions
  import opened Allowlist
  import L = TableLocks

  type ReplicaId = nat
  type RequestId = nat
  type Table = string

  /** The conflict check: may my actions, under my operation, follow an entry I have not seen? */
  type Accepts = (DeltaOperation, seq<Action>, seq<Action>) -> bool

  /** One log version.  `author` is history: `None` for a writer outside the service. */
  datatype Entry = Entry(author: Option<RequestId>, actions: seq<Action>)

  /** What the client is told.  `Internal(true)` and `Internal(false)` look the same to it; the flag
      is history: the put was reported as failed, but it may still land. */
  datatype Reply =
    | Committed(version: nat)
    | Aborted(expected: int, actual: nat)
    | FailedPrecondition
    | InvalidArgument
    | Denied
    | Internal(inFlight: bool)

  /** What the handler asked of the storage layer, if it got that far. */
  datatype Put = NoPut | CreatePut | AppendPut(base: nat)

  /** Where the handler is.  `Cancelled(true)`: its future was dropped with the put in flight. */
  datatype Pc =
    | Arrived
    | Waiting
    | Locked
    | Existing
    | Opened(base: nat)
    | Putting
    | Replied(reply: Reply)
    | Cancelled(inFlight: bool)

  /** The message, what validation made of it, the handler's position, and the version at which
      its put landed (history). */
  datatype Request = Request(
    replica: ReplicaId, rawUri: string, ensured: Result<string, string>, expected: Option<int>,
    wire: seq<WireAction>,
    table: Table, actions: seq<Action>,
    pc: Pc, put: Put, landed: Option<nat>)

  datatype State = State(
    allowlists: map<ReplicaId, Option<seq<string>>>,
    locks: map<ReplicaId, L.State>,
    reqs: map<RequestId, Request>,
    logs: map<Table, seq<Entry>>)

  datatype Step =
    | Arrive(id: RequestId, replica: ReplicaId, rawUri: string, ensured: Result<string, string>,
             expected: Option<int>, wire: seq<WireAction>)
    | Reject(id: RequestId)
    | Begin(id: RequestId, newAddr: L.Addr)
    | Acquire(id: RequestId)
    | CheckExists(id: RequestId, readable: bool)
    | Open(id: RequestId, readable: bool)
    | CheckVersion(id: RequestId)
    | FinishPut(id: RequestId, lands: bool, acknowledged: bool)
    | Cancel(id: RequestId)
    | LateFinish(id: RequestId, lands: bool)
    | Unwind(id: RequestId, lock: L.Step)
    | External(table: Table, entry: seq<Action>)

  function Log(s: State, t: Table): seq<Entry> {
    if t in s.logs then s.logs[t] else []
  }

  /** The files of a table whose log is `log`: each version's actions applied in order. */
  function ActiveFiles(log: seq<Entry>): map<string, Add> {
    if log == [] then map[]
    else ApplyActions(ActiveFiles(log[..|log| - 1]), log[|log| - 1].actions)
  }

  predicate PcIs(s: State, id: RequestId, pc: Pc) {
    id in s.reqs && s.reqs[id].pc == pc
  }

  // ----- Validation, before the lock -----

  /** `Ok` of the normalized table and the mapped actions, or the reply that rejects the request. */
  function Validate(q: Request, allowlist: Option<seq<string>>): Result<(Table, seq<Action>), Reply> {
    match NormalizeAndCheck(q.rawUri, q.ensured, allowlist)
    case Err(PermissionDenied) => Err(Denied)
    case Err(InvalidUri) => Err(InvalidArgument)
    case Ok(t) =>
      match MapActions(q.wire)
      case Err(_) => Err(InvalidArgument)
      case Ok(actions) => Ok((t, actions))
  }

  // ----- The body, under the lock -----

  predicate HasTableDefinition(actions: seq<Action>) {
    FindProtocol(actions).Some? && FindMetadata(actions).Some?
  }

  predicate CanCreate(q: Request) {
    q.expected.None? && HasTableDefinition(q.actions)
  }

  /** After the exists-check: go on with the table, go on to create it, or fail. */
  function AfterExists(q: Request, log: seq<Entry>, readable: bool): Request {
    if !readable then q.(pc := Replied(Internal(false)))
    else if log != [] then q.(pc := Existing)
    else if CanCreate(q) then q.(pc := Putting, put := CreatePut)
    else q.(pc := Replied(FailedPrecondition))
  }

  /** A snapshot of an initialized table is its latest version. */
  function AfterOpen(q: Request, log: seq<Entry>, readable: bool): Request
    requires log != []
  {
    if readable then q.(pc := Opened(|log| - 1)) else q.(pc := Replied(Internal(false)))
  }

  function AfterVersionCheck(q: Request): Request
    requires q.pc.Opened?
  {
    if q.expected.Some? && q.expected.value != q.pc.base
    then q.(pc := Replied(Aborted(q.expected.value, q.pc.base)))
    else q.(pc := Putting, put := AppendPut(q.pc.base))
  }

  /** A put that is not acknowledged is reported as failed, whether it landed, never will or still
      may.  A create that landed anywhere but at version 0 lost a race and is reported as a conflict. */
  function ReplyTo(put: Put, version: nat, lands: bool, acknowledged: bool): Reply {
    if !acknowledged then Internal(!lands)
    else if put.CreatePut? && version != 0 then Aborted(0, version)
    else Committed(version)
  }

  /** `log` allows the put to land now. */
  predicate CanLand(accepts: Accepts, q: Request, log: seq<Entry>) {
    match q.put
    case NoPut => false
    case CreatePut => true
    case AppendPut(base) =>
      forall i | base < i < |log| :: accepts(BuildOperation(q.actions), q.actions, log[i].actions)
  }

  /** The handler is gone, and what it asked of the storage layer is undecided. */
  predicate PutOutlives(pc: Pc) {
    pc == Cancelled(true) || pc == Replied(Internal(true))
  }

  /** The same position once the put has landed or is known not to. */
  function Decided(pc: Pc): Pc
    requires PutOutlives(pc)
  {
    if pc.Cancelled? then Cancelled(false) else Replied(Internal(false))
  }

  predicate Unwinding(step: L.Step) {
    step.Release? || step.FetchSub? || step.RemoveIfUnused? || step.DropArc?
  }

  // ----- The machine -----

  predicate LockEnabled(s: State, id: RequestId, step: L.Step)
    requires id in s.reqs
  {
    s.reqs[id].replica in s.locks && L.Enabled(s.locks[s.reqs[id].replica], step)
  }

  predicate Enabled(accepts: Accepts, s: State, step: Step) {
    match step
    case Arrive(id, replica, _, _, _, _) => id !in s.reqs && replica in s.locks && replica in s.allowlists
    case Reject(id) =>
      && PcIs(s, id, Arrived) && s.reqs[id].replica in s.allowlists
      && Validate(s.reqs[id], s.allowlists[s.reqs[id].replica]).Err?
    case Begin(id, newAddr) =>
      && PcIs(s, id, Arrived) && s.reqs[id].replica in s.allowlists
      && Validate(s.reqs[id], s.allowlists[s.reqs[id].replica]).Ok?
      && LockEnabled(s, id, L.LockFor(id, Validate(s.reqs[id], s.allowlists[s.reqs[id].replica]).value.0, newAddr))
    case Acquire(id) => PcIs(s, id, Waiting) && LockEnabled(s, id, L.Acquire(id))
    case CheckExists(id, _) => PcIs(s, id, Locked)
    case Open(id, _) => PcIs(s, id, Existing) && Log(s, s.reqs[id].table) != []
    case CheckVersion(id) => id in s.reqs && s.reqs[id].pc.Opened?
    case FinishPut(id, lands, acknowledged) =>
      && PcIs(s, id, Putting)
      && (acknowledged ==> lands)
      && (lands ==> CanLand(accepts, s.reqs[id], Log(s, s.reqs[id].table)))
    case Cancel(id) => id in s.reqs && !s.reqs[id].pc.Replied? && !s.reqs[id].pc.Cancelled?
    case LateFinish(id, lands) =>
      && id in s.reqs && PutOutlives(s.reqs[id].pc)
      && (lands ==> CanLand(accepts, s.reqs[id], Log(s, s.reqs[id].table)))
    case Unwind(id, lock) =>
      && id in s.reqs && (s.reqs[id].pc.Replied? || s.reqs[id].pc.Cancelled?)
      && Unwinding(lock) && lock.h == id && LockEnabled(s, id, lock)
    case External(_, _) => true
  }

  function SetReq(s: State, id: RequestId, q: Request): State {
    s.(reqs := s.reqs[id := q])
  }

  function ApplyLock(s: State, id: RequestId, step: L.Step): State
    requires id in s.reqs && LockEnabled(s, id, step)
  {
    var r := s.reqs[id].replica;
    s.(locks := s.locks[r := L.Apply(s.locks[r], step)])
  }

  function Append(s: State, t: Table, e: Entry): State {
    s.(logs := s.logs[t := Log(s, t) + [e]])
  }

  /** The put of `id` lands at the end of its table's log. */
  function Land(s: State, id: RequestId): State
    requires id in s.reqs
  {
    var q := s.reqs[id];
    SetReq(Append(s, q.table, Entry(Some(id), q.actions)), id, q.(landed := Some(|Log(s, q.table)|)))
  }

  function Apply(accepts: Accepts, s: State, step: Step): State
    requires Enabled(accepts, s, step)
  {
    match step
    case Arrive(id, replica, rawUri, ensured, expected, wire) =>
      SetReq(s, id, Request(replica, rawUri, ensured, expected, wire, "", [], Arrived, NoPut, None))
    case Reject(id) =>
      var q := s.reqs[id];
      SetReq(s, id, q.(pc := Replied(Validate(q, s.allowlists[q.replica]).error)))
    case Begin(id, newAddr) =>
      var q := s.reqs[id];
      var (t, actions) := Validate(q, s.allowlists[q.replica]).value;
      SetReq(ApplyLock(s, id, L.LockFor(id, t, newAddr)), id, q.(pc := Waiting, table := t, actions := actions))
    case Acquire(id) =>
      SetReq(ApplyLock(s, id, L.Acquire(id)), id, s.reqs[id].(pc := Locked))
    case CheckExists(id, readable) =>
      SetReq(s, id, AfterExists(s.reqs[id], Log(s, s.reqs[id].table), readable))
    case Open(id, readable) =>
      SetReq(s, id, AfterOpen(s.reqs[id], Log(s, s.reqs[id].table), readable))
    case CheckVersion(id) =>
      SetReq(s, id, AfterVersionCheck(s.reqs[id]))
    case FinishPut(id, lands, acknowledged) =>
      var q := s.reqs[id];
      var t := if lands then Land(s, id) else s;
      SetReq(t, id, t.reqs[id].(pc := Replied(ReplyTo(q.put, |Log(s, q.table)|, lands, acknowledged))))
    case Cancel(id) =>
      SetReq(s, id, s.reqs[id].(pc := Cancelled(s.reqs[id].pc.Putting?)))
    case LateFinish(id, lands) =>
      var t := if lands then Land(s, id) else s;
      SetReq(t, id, t.reqs[id].(pc := Decided(s.reqs[id].pc)))
    case Unwind(id, lock) => ApplyLock(s, id, lock)
    case External(t, entry) => Append(s, t, Entry(None, entry))
  }

  predicate ValidRun(accepts: Accepts, s: State, steps: seq<Step>)
    decreases |steps|
  {
    steps != [] ==> Enabled(accepts, s, steps[0]) && ValidRun(accepts, Apply(accepts, s, steps[0]), steps[1..])
  }

  function After(accepts: Accepts, s: State, steps: seq<Step>): State
    requires ValidRun(accepts, s, steps)
    decreases |steps|
  {
    if steps == [] then s else After(accepts, Apply(accepts, s, steps[0]), steps[1..])
  }

  /** Fresh replicas, no request yet; the logs may hold anything other writers put there. */
  ghost predicate Init(s: State) {
    && (forall r | r in s.locks :: s.locks[r] == L.INIT)
    && s.reqs == map[]
    && (forall t, v | t in s.logs && 0 <= v < |s.logs[t]| :: s.logs[t][v].author == None)
  }
}
