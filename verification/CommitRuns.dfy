/**
 Runs that do happen: a request that meets no one commits; and one run for each way in which a
 commit can end up later than right behind the version it expected, or a create race can be lost.
 */
module CommitRuns {
  import opened Wrappers
  import opened CommitProtocol
  import L = TableLocks

  /** The steps can be taken from `s` and end in `t`. */
  ghost predicate Leads(accepts: Accepts, s: State, steps: seq<Step>, t: State) {
    ValidRun(accepts, s, steps) && After(accepts, s, steps) == t
  }

  lemma OneStep(accepts: Accepts, s: State, step: Step)
    requires Enabled(accepts, s, step)
    ensures Leads(accepts, s, [step], Apply(accepts, s, step))
  {
    var t := Apply(accepts, s, step);
    assert [step][1..] == [];
    assert ValidRun(accepts, t, []) && After(accepts, t, []) == t;
  }

  lemma StepThen(accepts: Accepts, s: State, step: Step, rest: seq<Step>, u: State)
    requires Enabled(accepts, s, step) && Leads(accepts, Apply(accepts, s, step), rest, u)
    ensures Leads(accepts, s, [step] + rest, u)
  {
    assert ([step] + rest)[1..] == rest;
  }

  lemma FirstStep(accepts: Accepts, s: State, a: seq<Step>, t: State) returns (r: State)
    requires a != [] && Leads(accepts, s, a, t)
    ensures Enabled(accepts, s, a[0]) && r == Apply(accepts, s, a[0]) && Leads(accepts, r, a[1..], t)
  {
    r := Apply(accepts, s, a[0]);
  }

  lemma {:induction false} RunThenRun(accepts: Accepts, s: State, a: seq<Step>, t: State, b: seq<Step>, u: State)
    requires Leads(accepts, s, a, t) && Leads(accepts, t, b, u)
    ensures Leads(accepts, s, a + b, u)
    decreases |a|
  {
    if a == [] {
      assert a + b == b;
    } else {
      var r := FirstStep(accepts, s, a, t);
      RunThenRun(accepts, r, a[1..], t, b, u);
      StepThen(accepts, s, a[0], a[1..] + b, u);
      assert a + b == [a[0]] + (a[1..] + b);
    }
  }

  // ----- A request that meets no one -----

  /** The request is valid and the lock of its table is free. */
  ghost predicate Uncontended(s: State, id: RequestId, newAddr: L.Addr) {
    && PcIs(s, id, Arrived)
    && var q := s.reqs[id];
    && q.replica in s.allowlists && q.replica in s.locks
    && Validate(q, s.allowlists[q.replica]).Ok?
    && Grantable(s.locks[q.replica], id, Validate(q, s.allowlists[q.replica]).value.0, newAddr)
  }

  predicate Grantable(ls: L.State, h: L.HandleId, key: L.Key, newAddr: L.Addr) {
    && L.Enabled(ls, L.LockFor(h, key, newAddr))
    && (key in ls.locks ==> ls.heap[ls.locks[key]].holder.None?)
  }

  /** What validation makes of the request. */
  function Validated(s: State, id: RequestId): Request
    requires id in s.reqs && s.reqs[id].replica in s.allowlists
    requires Validate(s.reqs[id], s.allowlists[s.reqs[id].replica]).Ok?
  {
    var q := s.reqs[id];
    var (t, actions) := Validate(q, s.allowlists[q.replica]).value;
    q.(table := t, actions := actions)
  }

  /** And what the checks under the lock make of it, on a log that nobody else appends to. */
  function Checked(q: Request, log: seq<Entry>): Request {
    if log == [] then AfterExists(q, log, true) else AfterVersionCheck(q.(pc := Opened(|log| - 1)))
  }

  /** The replica's lock state after `lock_for` and the grant of a free mutex. */
  function LockedBy(ls: L.State, h: L.HandleId, key: L.Key, newAddr: L.Addr): L.State
    requires Grantable(ls, h, key, newAddr)
  {
    L.Apply(L.Apply(ls, L.LockFor(h, key, newAddr)), L.Acquire(h))
  }

  function LockRun(id: RequestId, newAddr: L.Addr): seq<Step> {
    [Begin(id, newAddr)] + [Acquire(id)]
  }

  function CheckRun(id: RequestId, present: bool): seq<Step> {
    if present then [CheckExists(id, true)] + ([Open(id, true)] + [CheckVersion(id)]) else [CheckExists(id, true)]
  }

  lemma FromExisting(accepts: Accepts, s: State, id: RequestId)
    requires PcIs(s, id, Existing) && Log(s, s.reqs[id].table) != []
    ensures Leads(accepts, s, [Open(id, true)] + [CheckVersion(id)],
                  SetReq(s, id, Checked(s.reqs[id], Log(s, s.reqs[id].table))))
  {
    var t := Apply(accepts, s, Open(id, true));
    var u := SetReq(s, id, Checked(s.reqs[id], Log(s, s.reqs[id].table)));
    OneStep(accepts, t, CheckVersion(id));
    assert Apply(accepts, t, CheckVersion(id)).reqs == u.reqs;
    StepThen(accepts, s, Open(id, true), [CheckVersion(id)], u);
  }

  lemma FromLocked(accepts: Accepts, s: State, id: RequestId)
    requires PcIs(s, id, Locked)
    ensures var log := Log(s, s.reqs[id].table);
            Leads(accepts, s, CheckRun(id, log != []), SetReq(s, id, Checked(s.reqs[id], log)))
  {
    var log := Log(s, s.reqs[id].table);
    if log == [] {
      OneStep(accepts, s, CheckExists(id, true));
    } else {
      var t := Apply(accepts, s, CheckExists(id, true));
      var u := SetReq(s, id, Checked(s.reqs[id], log));
      FromExisting(accepts, t, id);
      assert SetReq(t, id, Checked(t.reqs[id], log)).reqs == u.reqs;
      StepThen(accepts, s, CheckExists(id, true), [Open(id, true)] + [CheckVersion(id)], u);
    }
  }

  lemma ToLocked(accepts: Accepts, s: State, id: RequestId, newAddr: L.Addr)
    requires Uncontended(s, id, newAddr)
    ensures var q := Validated(s, id);
            Leads(accepts, s, LockRun(id, newAddr),
                  s.(reqs := s.reqs[id := q.(pc := Locked)],
                     locks := s.locks[q.replica := LockedBy(s.locks[q.replica], id, q.table, newAddr)]))
  {
    var t := Apply(accepts, s, Begin(id, newAddr));
    OneStep(accepts, t, Acquire(id));
    var u := Apply(accepts, t, Acquire(id));
    StepThen(accepts, s, Begin(id, newAddr), [Acquire(id)], u);
    var q := Validated(s, id);
    assert u.reqs == s.reqs[id := q.(pc := Locked)];
    assert u.locks == s.locks[q.replica := LockedBy(s.locks[q.replica], id, q.table, newAddr)];
  }

  /** The state once the request has passed, or failed, all its checks. */
  function AfterChecks(s: State, id: RequestId, newAddr: L.Addr): State
    requires id in s.reqs && s.reqs[id].replica in s.allowlists && s.reqs[id].replica in s.locks
    requires Validate(s.reqs[id], s.allowlists[s.reqs[id].replica]).Ok?
    requires Grantable(s.locks[s.reqs[id].replica], id, Validated(s, id).table, newAddr)
  {
    var q := Validated(s, id);
    s.(reqs := s.reqs[id := Checked(q, Log(s, q.table))],
       locks := s.locks[q.replica := LockedBy(s.locks[q.replica], id, q.table, newAddr)])
  }

  function ChecksRun(s: State, id: RequestId, newAddr: L.Addr): seq<Step>
    requires Uncontended(s, id, newAddr)
  {
    LockRun(id, newAddr) + CheckRun(id, Log(s, Validated(s, id).table) != [])
  }

  /** Lock, exists-check, open and version check go through one after the other. */
  lemma UncontendedIsChecked(accepts: Accepts, s: State, id: RequestId, newAddr: L.Addr)
    requires Uncontended(s, id, newAddr)
    ensures Leads(accepts, s, ChecksRun(s, id, newAddr), AfterChecks(s, id, newAddr))
  {
    var q := Validated(s, id);
    var t := s.(reqs := s.reqs[id := q.(pc := Locked)],
                locks := s.locks[q.replica := LockedBy(s.locks[q.replica], id, q.table, newAddr)]);
    var u := AfterChecks(s, id, newAddr);
    ToLocked(accepts, s, id, newAddr);
    FromLocked(accepts, t, id);
    CheckedIgnoresPc(q, Log(s, q.table));
    assert SetReq(t, id, Checked(t.reqs[id], Log(t, t.reqs[id].table))).reqs == u.reqs;
    RunThenRun(accepts, s, LockRun(id, newAddr), t, CheckRun(id, Log(s, q.table) != []), u);
  }

  lemma CheckedIgnoresPc(q: Request, log: seq<Entry>)
    ensures Checked(q.(pc := Locked), log) == Checked(q, log)
  {
  }

  /** So an uncontended commit to an existing table at the version it expects, or to one it may
      create, can always be answered with the next version. */
  lemma UncontendedCommits(accepts: Accepts, s: State, id: RequestId, newAddr: L.Addr) returns (t: State)
    requires Uncontended(s, id, newAddr)
    requires var q := Validated(s, id);
             if Log(s, q.table) == [] then CanCreate(q)
             else q.expected.Some? ==> q.expected.value == |Log(s, q.table)| - 1
    ensures Leads(accepts, s, ChecksRun(s, id, newAddr) + [FinishPut(id, true, true)], t)
    ensures var q := Validated(s, id);
            && PcIs(t, id, Replied(Committed(|Log(s, q.table)|)))
            && Log(t, q.table) == Log(s, q.table) + [Entry(Some(id), q.actions)]
  {
    UncontendedIsChecked(accepts, s, id, newAddr);
    var u := AfterChecks(s, id, newAddr);
    OneStep(accepts, u, FinishPut(id, true, true));
    t := Apply(accepts, u, FinishPut(id, true, true));
    RunThenRun(accepts, s, ChecksRun(s, id, newAddr), u, [FinishPut(id, true, true)], t);
  }
}
