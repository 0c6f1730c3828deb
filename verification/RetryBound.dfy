/**
 How often the writers of `RetryClients` can be told to retry, and what the table holds when all
 of them have finished.
 */
module RetryBound {
  import opened Wrappers
  import opened Actions
  import opened CommitProtocol
  import opened CommitSafety
  import opened SingleWriter
  import opened RetryClients

  // ----- Sums over sets of clients -----

  type Tally = map<ClientId, nat>

  ghost function Sum(k: Tally, who: set<ClientId>): nat
    requires who <= k.Keys
  {
    if who == {} then 0
    else
      var c :| c in who;
      k[c] + Sum(k, who - {c})
  }

  lemma {:induction false} SumWithout(k: Tally, who: set<ClientId>, c: ClientId)
    requires who <= k.Keys && c in who
    ensures Sum(k, who) == k[c] + Sum(k, who - {c})
    decreases |who|
  {
    var d :| d in who && Sum(k, who) == k[d] + Sum(k, who - {d});
    if d != c {
      SumWithout(k, who - {d}, c);
      SumWithout(k, who - {c}, d);
      assert who - {d} - {c} == who - {c} - {d};
    }
  }

  lemma {:induction false} SumOfUnion(k: Tally, a: set<ClientId>, b: set<ClientId>)
    requires a <= k.Keys && b <= k.Keys && a !! b
    ensures Sum(k, a + b) == Sum(k, a) + Sum(k, b)
    decreases |a|
  {
    if a == {} {
      assert a + b == b;
    } else {
      var c :| c in a;
      SumWithout(k, a, c);
      SumWithout(k, a + b, c);
      SumOfUnion(k, a - {c}, b);
      assert a + b - {c} == (a - {c}) + b;
    }
  }

  lemma {:induction false} SumAtMost(k: Tally, who: set<ClientId>, m: nat)
    requires who <= k.Keys && forall c | c in who :: k[c] <= m
    ensures Sum(k, who) <= |who| * m
    decreases |who|
  {
    if who == {} {
    } else {
      var c :| c in who;
      SumWithout(k, who, c);
      SumAtMost(k, who - {c}, m);
      assert |who| * m == (|who| - 1) * m + m;
    }
  }

  // ----- The count -----

  function Triangle(n: nat): nat {
    if n == 0 then 0 else Triangle(n - 1) + (n - 1)
  }

  lemma {:induction false} TriangleIsHalfSquare(n: nat)
    ensures 2 * Triangle(n) == n * (n - 1)
  {
    if n == 0 {
    } else {
      TriangleIsHalfSquare(n - 1);
      assert (n - 1) * (n - 2) + 2 * (n - 1) == n * (n - 1);
    }
  }

  lemma {:induction false} TriangleSplits(m: nat, d: nat)
    ensures Triangle(m) + d * m <= Triangle(m + d)
  {
    if d == 0 {
    } else {
      TriangleSplits(m, d - 1);
      assert d * m == (d - 1) * m + m;
    }
  }

  /** `order` lists different clients, the i-th with a tally of at most i. */
  ghost predicate Ranked(k: Tally, order: seq<ClientId>) {
    && (forall i | 0 <= i < |order| :: order[i] in k && k[order[i]] <= i)
    && (forall i, j | 0 <= i < j < |order| :: order[i] != order[j])
  }

  function Elements(order: seq<ClientId>): set<ClientId> {
    set c | c in order
  }

  lemma ElementsOfLonger(rest: seq<ClientId>, c: ClientId)
    requires c !in rest
    ensures Elements(rest + [c]) - {c} == Elements(rest)
    ensures |Elements(rest + [c])| == |Elements(rest)| + 1
  {
    assert Elements(rest + [c]) == Elements(rest) + {c};
  }

  lemma ShorterRank(k: Tally, order: seq<ClientId>) returns (rest: seq<ClientId>, c: ClientId)
    requires Ranked(k, order) && order != []
    ensures order == rest + [c] && Ranked(k, rest) && c !in rest && c in k && k[c] <= |rest|
  {
    var n := |order| - 1;
    rest, c := order[..n], order[n];
  }

  lemma {:induction false} RankedElements(k: Tally, order: seq<ClientId>)
    requires Ranked(k, order)
    ensures Elements(order) <= k.Keys && |Elements(order)| == |order|
    decreases |order|
  {
    if order == [] {
      assert Elements(order) == {};
    } else {
      var rest, c := ShorterRank(k, order);
      RankedElements(k, rest);
      ElementsOfLonger(rest, c);
    }
  }

  lemma {:induction false} RankedSum(k: Tally, order: seq<ClientId>)
    requires Ranked(k, order)
    ensures Elements(order) <= k.Keys && |Elements(order)| == |order|
    ensures Sum(k, Elements(order)) <= Triangle(|order|)
    decreases |order|
  {
    RankedElements(k, order);
    if order == [] {
      assert Elements(order) == {};
    } else {
      var rest, c := ShorterRank(k, order);
      RankedSum(k, rest);
      SumOfLonger(k, rest, c);
      assert |order| - 1 == |rest|;
    }
  }

  lemma SumOfLonger(k: Tally, rest: seq<ClientId>, c: ClientId)
    requires c !in rest && Elements(rest + [c]) <= k.Keys
    ensures Elements(rest) <= k.Keys && c in k && Sum(k, Elements(rest + [c])) == Sum(k, Elements(rest)) + k[c]
  {
    ElementsOfLonger(rest, c);
    assert c in rest + [c];
    SumWithout(k, Elements(rest + [c]), c);
  }

  lemma SplitKeys(k: Tally, ranked: set<ClientId>)
    requires ranked <= k.Keys
    ensures |k| == |ranked| + |k.Keys - ranked|
    ensures Sum(k, k.Keys) == Sum(k, ranked) + Sum(k, k.Keys - ranked)
  {
    assert ranked + (k.Keys - ranked) == k.Keys;
    SumOfUnion(k, ranked, k.Keys - ranked);
  }

  /** The ranked clients pay for themselves, and each of the others at most once per rank. */
  lemma TotalTally(k: Tally, order: seq<ClientId>)
    requires Ranked(k, order) && forall c | c in k :: k[c] <= |order|
    ensures |order| <= |k|
    ensures Sum(k, k.Keys) <= Triangle(|k|)
  {
    RankedSum(k, order);
    SplitKeys(k, Elements(order));
    SumAtMost(k, k.Keys - Elements(order), |order|);
    TriangleSplits(|order|, |k.Keys - Elements(order)|);
  }

  // ----- Who landed where -----

  /** Versions the writers have added. */
  function NewVersions(w: World): int {
    |Log(w.server, w.table)| - 1 - w.base
  }

  function AbortTally(w: World): Tally {
    map c | c in w.clients :: w.clients[c].aborts
  }

  ghost predicate LandedAt(w: World, c: ClientId, v: nat) {
    && w.base < v < |Log(w.server, w.table)|
    && Log(w.server, w.table)[v].author.Some?
    && var id := Log(w.server, w.table)[v].author.value;
    && id in w.owner && w.owner[id] == c && c in w.clients
    && id in w.server.reqs && w.server.reqs[id].landed == Some(v)
    && w.clients[c].attempt == Some(id) && w.clients[c].seen + 1 == v
  }

  /** The writer whose commit is version `v`; it had seen exactly `v - 1`. */
  lemma LanderOf(accepts: Accepts, w: World, v: nat) returns (c: ClientId)
    requires WorldInv(accepts, w) && w.base < v < |Log(w.server, w.table)|
    ensures LandedAt(w, c, v)
  {
    var s := w.server;
    assert Log(s, w.table)[v].author.Some?;
    var id := Log(s, w.table)[v].author.value;
    assert AuthorOk(s, w.table, v);
    assert AttemptOk(w, id);
    c := w.owner[id];
    assert ClientOk(w, c);
    var q := s.reqs[id];
    assert RequestOk(accepts, id, q, Log(s, q.table));
    assert Exact(q);
  }

  /** A finished writer's mapped actions are one version of the table, right behind the version it
      last read. */
  ghost predicate FinishedOk(w: World, c: ClientId)
    requires c in w.clients
  {
    var v := w.clients[c].seen + 1;
    LandedAt(w, c, v) && MapActions(w.clients[c].wire) == Ok(Log(w.server, w.table)[v].actions)
  }

  lemma FinishedMeansLanded(accepts: Accepts, w: World, c: ClientId)
    requires WorldInv(accepts, w) && ClientAt(w, c, Finished)
    ensures FinishedOk(w, c)
  {
    assert ClientOk(w, c);
    var id := w.clients[c].attempt.value;
    assert AttemptOk(w, id);
    var q := w.server.reqs[id];
    assert RequestOk(accepts, id, q, Log(w.server, q.table));
    assert RequestValidated(q, w.server.allowlists) && Exact(q);
    LandedAttempt(accepts, w, c, id);
  }

  lemma LandedAttempt(accepts: Accepts, w: World, c: ClientId, id: RequestId)
    requires c in w.clients && ClientOk(w, c) && w.clients[c].attempt == Some(id)
    requires id in w.server.reqs && w.server.reqs[id].landed.Some? && AttemptOk(w, id)
    requires var q := w.server.reqs[id];
             && PutOk(q, Log(w.server, q.table)) && LandedOk(accepts, id, q, Log(w.server, q.table))
             && RequestValidated(q, w.server.allowlists) && Exact(q)
    ensures FinishedOk(w, c)
  {
  }

  ghost predicate HasLander(w: World, v: nat) {
    exists c :: LandedAt(w, c, v)
  }

  ghost predicate Charged(w: World, c: ClientId)
    requires c in w.clients
  {
    w.base <= w.clients[c].seen < |Log(w.server, w.table)| && w.clients[c].aborts <= w.clients[c].seen - w.base
  }

  /** All the count needs to know: every new version has a lander, every writer's retries are
      covered by versions it was told of, and finished writers have landed. */
  ghost predicate Ledger(w: World) {
    && w.base < |Log(w.server, w.table)|
    && (forall v | w.base < v < |Log(w.server, w.table)| :: HasLander(w, v))
    && (forall c | c in w.clients :: Charged(w, c))
    && (forall c | c in w.clients && w.clients[c].pc == Finished :: FinishedOk(w, c))
  }

  lemma LedgerOfInv(accepts: Accepts, w: World)
    requires WorldInv(accepts, w)
    ensures Ledger(w)
  {
    forall v | w.base < v < |Log(w.server, w.table)|
      ensures HasLander(w, v)
    {
      var c := LanderOf(accepts, w, v);
    }
    forall c | c in w.clients
      ensures Charged(w, c)
    {
      assert ClientOk(w, c);
    }
    forall c | c in w.clients && w.clients[c].pc == Finished
      ensures FinishedOk(w, c)
    {
      FinishedMeansLanded(accepts, w, c);
    }
  }

  lemma StartIsInv(accepts: Accepts, w: World)
    requires Start(w)
    ensures WorldInv(accepts, w)
  {
    InitIsInv(accepts, w.server);
    P.InitIsReachable();
  }

  lemma LedgerOfRun(accepts: Accepts, w0: World, ms: seq<Move>)
    requires Start(w0) && ValidMoves(accepts, w0, ms)
    ensures var w := AfterMoves(accepts, w0, ms);
            Ledger(w) && w.base == w0.base && w.table == w0.table && w.clients.Keys == w0.clients.Keys
  {
    StartIsInv(accepts, w0);
    MovesKeepWorldInv(accepts, w0, ms);
    LedgerOfInv(accepts, AfterMoves(accepts, w0, ms));
  }

  /** The landers of the first `n` new versions, in order. */
  lemma {:induction false} LandingOrder(w: World, n: nat) returns (order: seq<ClientId>)
    requires Ledger(w) && n <= NewVersions(w)
    ensures |order| == n
    ensures forall i | 0 <= i < n :: LandedAt(w, order[i], w.base + 1 + i)
    ensures Ranked(AbortTally(w), order)
  {
    order := [];
    if n == 0 {
    } else {
      var before := LandingOrder(w, n - 1);
      var v := w.base + n;
      assert HasLander(w, v);
      var c :| LandedAt(w, c, v);
      assert Charged(w, c);
      DifferentLanders(w, before, c, n);
      RankNext(AbortTally(w), before, c);
      order := before + [c];
    }
  }

  lemma RankNext(k: Tally, before: seq<ClientId>, c: ClientId)
    requires Ranked(k, before) && c in k && k[c] <= |before| && c !in before
    ensures Ranked(k, before + [c])
  {
  }

  lemma DifferentLanders(w: World, before: seq<ClientId>, c: ClientId, n: nat)
    requires |before| == n - 1
    requires forall i | 0 <= i < n - 1 :: LandedAt(w, before[i], w.base + 1 + i)
    requires LandedAt(w, c, w.base + n)
    ensures c !in before
  {
  }

  lemma LandingFacts(w: World) returns (order: seq<ClientId>)
    requires Ledger(w)
    ensures |order| == NewVersions(w) <= |w.clients|
    ensures forall i | 0 <= i < |order| :: LandedAt(w, order[i], w.base + 1 + i)
    ensures Ranked(AbortTally(w), order)
    ensures Sum(AbortTally(w), w.clients.Keys) <= Triangle(|w.clients|)
  {
    order := LandingOrder(w, NewVersions(w));
    var k := AbortTally(w);
    assert k.Keys == w.clients.Keys;
    assert |k| == |k.Keys| == |w.clients.Keys| == |w.clients|;
    forall c | c in k
      ensures k[c] <= |order|
    {
      assert Charged(w, c);
    }
    TotalTally(k, order);
  }

  // ----- What every run guarantees -----

  /** `n` writers have received ABORTED at most n(n-1)/2 times and added at most `n` versions. */
  ghost predicate WithinBounds(w: World, n: nat) {
    && 2 * Sum(AbortTally(w), w.clients.Keys) <= n * (n - 1)
    && 0 <= NewVersions(w) <= n
  }

  /** In every reachable state of N writers, finished or not, ABORTED has been received at most
      N(N-1)/2 times in total, and at most N versions have been added. */
  lemma {:induction false} RetriesAreBounded(accepts: Accepts, w0: World, ms: seq<Move>)
    requires Start(w0) && ValidMoves(accepts, w0, ms)
    ensures AfterMoves(accepts, w0, ms).clients.Keys == w0.clients.Keys
    ensures WithinBounds(AfterMoves(accepts, w0, ms), |w0.clients.Keys|)
  {
    LedgerOfRun(accepts, w0, ms);
    BoundOfLedger(AfterMoves(accepts, w0, ms));
  }

  lemma BoundOfLedger(w: World)
    requires Ledger(w)
    ensures WithinBounds(w, |w.clients.Keys|)
  {
    assert |w.clients| == |w.clients.Keys|;
    var _ := LandingFacts(w);
    TriangleIsHalfSquare(|w.clients.Keys|);
  }

  /** When all N writers have finished, exactly N versions were added, one per writer, each
      holding that writer's mapped actions: no update is lost and none is applied twice. */
  lemma {:induction false} AllFinished(accepts: Accepts, w0: World, ms: seq<Move>) returns (order: seq<ClientId>)
    requires Start(w0) && ValidMoves(accepts, w0, ms)
    requires forall c | c in w0.clients :: ClientAt(AfterMoves(accepts, w0, ms), c, Finished)
    ensures var w := AfterMoves(accepts, w0, ms);
            && w.base == w0.base && w.table == w0.table && w.clients.Keys == w0.clients.Keys
            && NewVersions(w) == |w0.clients| && AllLanded(w, order)
  {
    LedgerOfRun(accepts, w0, ms);
    order := OrderOfFinished(AfterMoves(accepts, w0, ms));
  }

  /** `order` lists every writer once, and the i-th new version holds the i-th one's actions. */
  ghost predicate AllLanded(w: World, order: seq<ClientId>) {
    && Elements(order) == w.clients.Keys
    && |order| == NewVersions(w)
    && (forall i, j | 0 <= i < j < |order| :: order[i] != order[j])
    && (forall i | 0 <= i < |order| ::
          order[i] in w.clients
          && MapActions(w.clients[order[i]].wire) == Ok(Log(w.server, w.table)[w.base + 1 + i].actions))
  }

  ghost predicate Landings(w: World, order: seq<ClientId>) {
    |order| == NewVersions(w) && forall i | 0 <= i < |order| :: LandedAt(w, order[i], w.base + 1 + i)
  }

  lemma OrderOfFinished(w: World) returns (order: seq<ClientId>)
    requires Ledger(w) && forall c | c in w.clients :: w.clients[c].pc == Finished
    ensures AllLanded(w, order) && NewVersions(w) == |w.clients.Keys|
  {
    order := LandingFacts(w);
    forall c | c in w.clients
      ensures FinishedOk(w, c)
    {
    }
    ListedOnce(w, order);
    ListedVersions(w, order);
  }

  lemma ListedOnce(w: World, order: seq<ClientId>)
    requires Landings(w, order) && Ranked(AbortTally(w), order)
    requires forall c | c in w.clients :: FinishedOk(w, c)
    ensures Elements(order) == w.clients.Keys && |order| == |w.clients.Keys|
  {
    forall c | c in w.clients
      ensures c in order
    {
      FinishedIsListed(w, order, c);
    }
    RankedSum(AbortTally(w), order);
    assert AbortTally(w).Keys == w.clients.Keys;
  }

  lemma ListedVersions(w: World, order: seq<ClientId>)
    requires Landings(w, order) && forall c | c in w.clients :: FinishedOk(w, c)
    ensures forall i | 0 <= i < |order| ::
              order[i] in w.clients
              && MapActions(w.clients[order[i]].wire) == Ok(Log(w.server, w.table)[w.base + 1 + i].actions)
  {
    forall i | 0 <= i < |order|
      ensures order[i] in w.clients
              && MapActions(w.clients[order[i]].wire) == Ok(Log(w.server, w.table)[w.base + 1 + i].actions)
    {
      assert LandedAt(w, order[i], w.base + 1 + i);
      assert FinishedOk(w, order[i]);
    }
  }

  lemma FinishedIsListed(w: World, order: seq<ClientId>, c: ClientId)
    requires Landings(w, order) && c in w.clients && FinishedOk(w, c)
    ensures c in order
  {
    var i := w.clients[c].seen - w.base;
    assert LandedAt(w, order[i], w.base + 1 + i);
    assert order[i] == c;
  }

  // ----- One file per writer -----

  predicate OneAdd(wire: seq<WireAction>) {
    |wire| == 1 && wire[0].WireAddAction?
  }

  /** The tail of the log, from version `from` on, is one add per entry, all paths different. */
  ghost predicate TailAdds(log: seq<Entry>, from: nat, adds: seq<Add>) {
    && from + |adds| == |log|
    && (forall i | 0 <= i < |adds| :: log[from + i].actions == [AddAction(adds[i])])
    && (forall i, j | 0 <= i < j < |adds| :: adds[i].path != adds[j].path)
  }

  lemma ShorterTail(log: seq<Entry>, from: nat, adds: seq<Add>)
    requires TailAdds(log, from, adds) && adds != []
    ensures TailAdds(log[..|log| - 1], from, adds[..|adds| - 1])
    ensures log[..|log| - 1][..from] == log[..from]
    ensures log[|log| - 1].actions == [AddAction(adds[|adds| - 1])]
  {
    assert log[|log| - 1] == log[from + |adds| - 1];
  }

  /** The paths of the table are those it had and those added. */
  lemma {:induction false} AddsBecomePaths(log: seq<Entry>, from: nat, adds: seq<Add>)
    requires TailAdds(log, from, adds)
    ensures ActiveFiles(log).Keys == ActiveFiles(log[..from]).Keys + (set i | 0 <= i < |adds| :: adds[i].path)
    decreases |adds|
  {
    if adds == [] {
      assert log[..from] == log;
    } else {
      var n := |adds| - 1;
      ShorterTail(log, from, adds);
      ActiveAfterOneAdd(log, adds[n]);
      AddsBecomePaths(log[..|log| - 1], from, adds[..n]);
      assert (set i | 0 <= i < |adds| :: adds[i].path) == (set i | 0 <= i < n :: adds[..n][i].path) + {adds[n].path};
    }
  }

  /** Each added file is active, as it was added. */
  lemma {:induction false} AddsBecomeActive(log: seq<Entry>, from: nat, adds: seq<Add>, i: nat)
    requires TailAdds(log, from, adds) && i < |adds|
    ensures adds[i].path in ActiveFiles(log) && ActiveFiles(log)[adds[i].path] == adds[i]
    decreases |adds|
  {
    ShorterTail(log, from, adds);
    ActiveAfterOneAdd(log, adds[|adds| - 1]);
    if i < |adds| - 1 {
      AddsBecomeActive(log[..|log| - 1], from, adds[..|adds| - 1], i);
    }
  }

  lemma {:induction false} ActiveAfterOneAdd(log: seq<Entry>, a: Add)
    requires log != [] && log[|log| - 1].actions == [AddAction(a)]
    ensures ActiveFiles(log) == ActiveFiles(log[..|log| - 1])[a.path := a]
  {
    var files := ActiveFiles(log[..|log| - 1]);
    assert [AddAction(a)][1..] == [];
    assert ApplyActions(files, [AddAction(a)]) == ApplyActions(files[a.path := a], []);
  }

  lemma {:induction false} MovesGrowLog(accepts: Accepts, w: World, ms: seq<Move>)
    requires ValidMoves(accepts, w, ms)
    ensures Log(w.server, w.table) <= Log(AfterMoves(accepts, w, ms).server, w.table)
    ensures AfterMoves(accepts, w, ms).table == w.table && AfterMoves(accepts, w, ms).base == w.base
    ensures AfterMoves(accepts, w, ms).clients.Keys == w.clients.Keys
    ensures forall c | c in w.clients :: AfterMoves(accepts, w, ms).clients[c].wire == w.clients[c].wire
    decreases |ms|
  {
    if ms == [] {
    } else {
      var u := MoveTo(accepts, w, ms[0]);
      MoveFrame(accepts, w, ms[0]);
      if ms[0].Serve? {
        LogGrowsInStep(accepts, w.server, ms[0].step, w.table);
      }
      assert Log(w.server, w.table) <= Log(u.server, w.table);
      assert forall c | c in w.clients :: u.clients[c].wire == w.clients[c].wire;
      MovesGrowLog(accepts, u, ms[1..]);
    }
  }

  lemma {:induction false} MapOneAdd(wire: seq<WireAction>) returns (a: Add)
    requires OneAdd(wire) && MapActions(wire).Ok?
    ensures MapActions(wire) == Ok([AddAction(a)]) && a.path == wire[0].add.path
    ensures ListedFile(a) == AsListed(wire[0].add)
  {
    assert wire[1..] == [];
    assert MapActions(wire[1..]) == Ok([]);
    a := MapAction(wire[0]).value.add;
    assert [AddAction(a)] + [] == [AddAction(a)];
    CommittedFileIsListedBack(wire[0].add);
  }

  function PathOf(k: Client): string
    requires OneAdd(k.wire)
  {
    k.wire[0].add.path
  }

  /** Version `from + i` of the log holds the one add of the i-th writer in `order`. */
  ghost predicate HoldsAdds(clients: map<ClientId, Client>, order: seq<ClientId>, log: seq<Entry>, from: nat) {
    && from + |order| == |log|
    && (forall c | c in clients :: OneAdd(clients[c].wire))
    && (forall i | 0 <= i < |order| ::
          order[i] in clients && MapActions(clients[order[i]].wire) == Ok(log[from + i].actions))
  }

  lemma {:induction false} AddsOf(clients: map<ClientId, Client>, order: seq<ClientId>, log: seq<Entry>, from: nat)
    returns (adds: seq<Add>)
    requires HoldsAdds(clients, order, log, from)
    ensures |adds| == |order|
    ensures forall i | 0 <= i < |order| ::
              && log[from + i].actions == [AddAction(adds[i])]
              && adds[i].path == PathOf(clients[order[i]])
              && ListedFile(adds[i]) == AsListed(clients[order[i]].wire[0].add)
    decreases |order|
  {
    adds := [];
    if order == [] {
    } else {
      var n := |order| - 1;
      adds := AddsOf(clients, order[..n], log[..|log| - 1], from);
      var a := MapOneAdd(clients[order[n]].wire);
      adds := adds + [a];
    }
  }

  predicate DistinctPaths(clients: map<ClientId, Client>)
    requires forall c | c in clients :: OneAdd(clients[c].wire)
  {
    forall c, d | c in clients && d in clients && c != d :: PathOf(clients[c]) != PathOf(clients[d])
  }

  ghost predicate FilesAdded(clients: map<ClientId, Client>, before: map<string, Add>, files: map<string, Add>)
    requires forall c | c in clients :: OneAdd(clients[c].wire)
  {
    && files.Keys == before.Keys + (set c | c in clients :: PathOf(clients[c]))
    && forall c | c in clients ::
         && PathOf(clients[c]) in files
         && ListedFile(files[PathOf(clients[c])]) == AsListed(clients[c].wire[0].add)
  }

  lemma PathsOfOrder(clients: map<ClientId, Client>, order: seq<ClientId>, adds: seq<Add>)
    requires forall c | c in clients :: OneAdd(clients[c].wire)
    requires Elements(order) == clients.Keys && |adds| == |order|
    requires forall i | 0 <= i < |order| :: order[i] in clients && adds[i].path == PathOf(clients[order[i]])
    ensures (set i | 0 <= i < |adds| :: adds[i].path) == set c | c in clients :: PathOf(clients[c])
    ensures forall c | c in clients :: exists i | 0 <= i < |order| :: order[i] == c
  {
    var paths := set i | 0 <= i < |adds| :: adds[i].path;
    forall c | c in clients
      ensures PathOf(clients[c]) in paths
      ensures exists i | 0 <= i < |order| :: order[i] == c
    {
      assert c in Elements(order);
      var i :| 0 <= i < |order| && order[i] == c;
      assert adds[i].path in paths;
    }
  }

  lemma FilesOfOrder(clients: map<ClientId, Client>, order: seq<ClientId>, log: seq<Entry>, from: nat)
    requires HoldsAdds(clients, order, log, from) && Elements(order) == clients.Keys && DistinctPaths(clients)
    requires forall i, j | 0 <= i < j < |order| :: order[i] != order[j]
    ensures FilesAdded(clients, ActiveFiles(log[..from]), ActiveFiles(log))
  {
    var adds := AddsOf(clients, order, log, from);
    AddsBecomePaths(log, from, adds);
    PathsOfOrder(clients, order, adds);
    forall c | c in clients
      ensures PathOf(clients[c]) in ActiveFiles(log)
      ensures ListedFile(ActiveFiles(log)[PathOf(clients[c])]) == AsListed(clients[c].wire[0].add)
    {
      var i :| 0 <= i < |order| && order[i] == c;
      assert adds[i].path == PathOf(clients[c]);
      AddsBecomeActive(log, from, adds, i);
    }
  }

  lemma FilesOfWorlds(w0: World, w: World, order: seq<ClientId>)
    requires AllLanded(w, order) && w.table == w0.table && w.base == w0.base && w.clients.Keys == w0.clients.Keys
    requires |Log(w0.server, w0.table)| == w0.base + 1 && Log(w0.server, w0.table) <= Log(w.server, w0.table)
    requires forall c | c in w0.clients :: w.clients[c].wire == w0.clients[c].wire
    requires (forall c | c in w0.clients :: OneAdd(w0.clients[c].wire)) && DistinctPaths(w0.clients)
    ensures FilesAdded(w0.clients, ActiveFiles(Log(w0.server, w0.table)), ActiveFiles(Log(w.server, w0.table)))
  {
    var log := Log(w.server, w0.table);
    assert log[..w0.base + 1] == Log(w0.server, w0.table);
    FilesOfOrder(w0.clients, order, log, w0.base + 1);
  }

  /** Writers that each add one file, all under different paths: when they have finished, the
      table holds the files it held before and theirs, and each is listed as it was sent. */
  lemma {:induction false} WritersFilesAreListed(accepts: Accepts, w0: World, ms: seq<Move>)
    requires Start(w0) && ValidMoves(accepts, w0, ms)
    requires forall c | c in w0.clients :: ClientAt(AfterMoves(accepts, w0, ms), c, Finished)
    requires (forall c | c in w0.clients :: OneAdd(w0.clients[c].wire)) && DistinctPaths(w0.clients)
    ensures FilesAdded(w0.clients, ActiveFiles(Log(w0.server, w0.table)),
                       ActiveFiles(Log(AfterMoves(accepts, w0, ms).server, w0.table)))
  {
    var w := AfterMoves(accepts, w0, ms);
    var order := AllFinished(accepts, w0, ms);
    MovesGrowLog(accepts, w0, ms);
    FilesOfWorlds(w0, w, order);
  }
}
