/**
 What a client sees that lists the table after N writers have each added a file: the whole path
 from the writers' messages through their commits to the messages of the listing.
 */
module WriterListings {
  import opened Actions
  import opened CommitProtocol
  import opened RetryClients
  import opened RetryBound
  import opened Batching
  import opened ActiveFileStream

  lemma {:induction false} ListingKeepsLog(s: Stream, steps: seq<StreamStep>)
    requires ValidSteps(s, steps)
    ensures s.log <= AfterSteps(s, steps).log
    decreases |steps|
  {
    if steps == [] {
    } else {
      ListingKeepsLog(DoStep(s, steps[0]), steps[1..]);
    }
  }

  /** A listing without error that reports the last version of `log`. */
  ghost predicate Lists(log: seq<Entry>, steps: seq<StreamStep>) {
    && ValidSteps(Requested(log), steps)
    && var s := AfterSteps(Requested(log), steps);
    && Completed(s) && s.received != [] && !s.received[|s.received| - 1].Failure?
    && log != [] && s.received[0] == Header(|log| - 1)
  }

  predicate ByPath(files: map<string, Add>) {
    forall p | p in files :: files[p].path == p
  }

  lemma {:induction false} ApplyKeepsPaths(files: map<string, Add>, actions: seq<Action>)
    requires ByPath(files)
    ensures ByPath(ApplyActions(files, actions))
    decreases |actions|
  {
    if actions == [] {
    } else {
      ApplyKeepsPaths(ApplyAction(files, actions[0]), actions[1..]);
    }
  }

  lemma {:induction false} ActiveFilesByPath(log: seq<Entry>)
    ensures ByPath(ActiveFiles(log))
  {
    if log == [] {
    } else {
      ActiveFilesByPath(log[..|log| - 1]);
      ApplyKeepsPaths(ActiveFiles(log[..|log| - 1]), log[|log| - 1].actions);
    }
  }

  ghost predicate Reports(listed: seq<WireAdd>, files: map<string, Add>) {
    && |listed| == |files| && ByPath(files)
    && (forall f: WireAdd :: f in listed <==> f.path in files && f == ListedFile(files[f.path]))
  }

  lemma ListingReportsLog(log: seq<Entry>, steps: seq<StreamStep>)
    requires Lists(log, steps)
    ensures Reports(FilesOf(AfterSteps(Requested(log), steps).received), ActiveFiles(log))
  {
    var s := AfterSteps(Requested(log), steps);
    CompletedListingIsASnapshot(log, steps);
    ListingKeepsLog(Requested(log), steps);
    ActiveFilesByPath(log);
    assert s.log[..|log|] == log;
  }

  function Paths(listed: seq<WireAdd>): set<string> {
    set f | f in listed :: f.path
  }

  function WriterPaths(clients: map<ClientId, Client>): set<string>
    requires forall c | c in clients :: OneAdd(clients[c].wire)
  {
    set c | c in clients :: PathOf(clients[c])
  }

  lemma PathsAreReported(listed: seq<WireAdd>, files: map<string, Add>)
    requires Reports(listed, files)
    ensures Paths(listed) == files.Keys && |listed| == |Paths(listed)|
  {
    forall p | p in files
      ensures p in Paths(listed)
    {
      assert ListedFile(files[p]) in listed;
    }
    assert |files| == |files.Keys|;
  }

  /** The file a writer sends, as a listing reports it. */
  function SentFile(k: Client): WireAdd
    requires OneAdd(k.wire)
  {
    AsListed(k.wire[0].add)
  }

  /** The reported paths are the earlier ones and the writers', each once, and each writer's file is
      reported as it was sent. */
  ghost predicate ReportsWriters(listed: seq<WireAdd>, clients: map<ClientId, Client>, before: map<string, Add>)
    requires forall c | c in clients :: OneAdd(clients[c].wire)
  {
    && Paths(listed) == before.Keys + WriterPaths(clients)
    && |listed| == |Paths(listed)|
    && forall c | c in clients :: SentFile(clients[c]) in listed
  }

  lemma WritersAreReported(listed: seq<WireAdd>, clients: map<ClientId, Client>, before: map<string, Add>,
                           files: map<string, Add>)
    requires (forall c | c in clients :: OneAdd(clients[c].wire)) && FilesAdded(clients, before, files)
    requires Reports(listed, files)
    ensures ReportsWriters(listed, clients, before)
  {
    PathsAreReported(listed, files);
    forall c | c in clients
      ensures SentFile(clients[c]) in listed
    {
      assert PathOf(clients[c]) in files && ListedFile(files[PathOf(clients[c])]) == SentFile(clients[c]);
    }
  }

  /** N writers that each add one file, all under different paths, have finished: the table is at
      the version N later, and a listing of it reports the files it held before and theirs, each
      path once, each file of theirs as it was sent. */
  lemma {:induction false} WritersFilesAreStreamed(accepts: Accepts, w0: World, ms: seq<Move>, steps: seq<StreamStep>)
    requires Start(w0) && ValidMoves(accepts, w0, ms)
    requires forall c | c in w0.clients :: ClientAt(AfterMoves(accepts, w0, ms), c, Finished)
    requires (forall c | c in w0.clients :: OneAdd(w0.clients[c].wire)) && DistinctPaths(w0.clients)
    requires Lists(Log(AfterMoves(accepts, w0, ms).server, w0.table), steps)
    ensures var log := Log(AfterMoves(accepts, w0, ms).server, w0.table);
            && |log| - 1 == w0.base + |w0.clients|
            && ReportsWriters(FilesOf(AfterSteps(Requested(log), steps).received), w0.clients,
                              ActiveFiles(Log(w0.server, w0.table)))
  {
    var log := Log(AfterMoves(accepts, w0, ms).server, w0.table);
    var _ := AllFinished(accepts, w0, ms);
    WritersFilesAreListed(accepts, w0, ms);
    ListingReportsLog(log, steps);
    WritersAreReported(FilesOf(AfterSteps(Requested(log), steps).received), w0.clients,
                       ActiveFiles(Log(w0.server, w0.table)), ActiveFiles(log));
  }
}
