/**
 A file listing as it runs: a producer task, a bounded channel, a client that may leave, and
 commits that keep landing on the table meanwhile.
 */
module ActiveFileStream {
  import opened Wrappers
  import opened Actions
  import opened CommitProtocol
  import opened Batching

  const STREAM_CHANNEL_CAPACITY: nat := 4

  /** Sending: a message is built and waits for a free slot; `last` if the task ends after it. */
  datatype Task = NotStarted | Pulling | Sending(message: Message, last: bool) | Done

  /** `views` and `failAt` are the source opened with the snapshot; `pulled` files were taken from
      it.  `pushed` is history: every message that entered the channel. */
  datatype Stream = Stream(
    log: seq<Entry>, task: Task, snapshot: Option<nat>, views: seq<Add>, failAt: Option<nat>,
    pulled: nat, batch: seq<WireAdd>,
    queue: seq<Message>, received: seq<Message>, connected: bool, pushed: seq<Message>)

  datatype StreamStep =
    | FailToOpen(status: Status)
    | OpenSnapshot(views: seq<Add>, failAt: Option<nat>)
    | Pull
    | PullFails
    | PullEnds
    | Push
    | PushFails
    | Deliver
    | Disconnect
    | CommitLands(entry: Entry)

  /** The source yields each active file of the snapshot once, in an order of its own. */
  ghost predicate Enumerates(views: seq<Add>, files: map<string, Add>) {
    && |views| == |files|
    && (forall i | 0 <= i < |views| :: views[i].path in files && files[views[i].path] == views[i])
    && (forall i, j | 0 <= i < j < |views| :: views[i].path != views[j].path)
  }

  // ----- The machine -----

  ghost predicate CanStep(s: Stream, step: StreamStep) {
    match step
    case FailToOpen(status) => s.task == NotStarted && (status.NotFound? ==> s.log == [])
    case OpenSnapshot(views, failAt) =>
      && s.task == NotStarted && s.log != [] && Enumerates(views, ActiveFiles(s.log))
      && (failAt.Some? ==> failAt.value <= |views|)
    case Pull => s.task == Pulling && s.pulled < |s.views| && s.failAt != Some(s.pulled)
    case PullFails => s.task == Pulling && s.failAt == Some(s.pulled)
    case PullEnds => s.task == Pulling && s.pulled == |s.views| && s.failAt != Some(s.pulled)
    case Push => s.task.Sending? && s.connected && |s.queue| < STREAM_CHANNEL_CAPACITY
    case PushFails => s.task.Sending? && !s.connected
    case Deliver => s.connected && s.queue != []
    case Disconnect => s.connected
    case CommitLands(_) => true
  }

  ghost function DoStep(s: Stream, step: StreamStep): Stream
    requires CanStep(s, step)
  {
    match step
    case FailToOpen(status) => s.(task := Sending(Failure(status), true))
    case OpenSnapshot(views, failAt) =>
      s.(task := Sending(Header(|s.log| - 1), false), snapshot := Some(|s.log| - 1), views := views, failAt := failAt)
    case Pull =>
      var batch := s.batch + [ListedFile(s.views[s.pulled])];
      if |batch| >= FILE_BATCH_SIZE
      then s.(pulled := s.pulled + 1, batch := [], task := Sending(Batch(batch), false))
      else s.(pulled := s.pulled + 1, batch := batch)
    case PullFails => s.(task := Sending(Failure(Status.Internal), true), batch := [])
    case PullEnds =>
      if s.batch == [] then s.(task := Done) else s.(task := Sending(Batch(s.batch), true), batch := [])
    case Push =>
      s.(queue := s.queue + [s.task.message], pushed := s.pushed + [s.task.message],
         task := if s.task.last then Done else Pulling)
    case PushFails => s.(task := Done, batch := [])
    case Deliver => s.(queue := s.queue[1..], received := s.received + [s.queue[0]])
    case Disconnect => s.(connected := false, queue := [])
    case CommitLands(entry) => s.(log := s.log + [entry])
  }

  ghost predicate ValidSteps(s: Stream, steps: seq<StreamStep>)
    decreases |steps|
  {
    steps != [] ==> CanStep(s, steps[0]) && ValidSteps(DoStep(s, steps[0]), steps[1..])
  }

  ghost function AfterSteps(s: Stream, steps: seq<StreamStep>): Stream
    requires ValidSteps(s, steps)
    decreases |steps|
  {
    if steps == [] then s else AfterSteps(DoStep(s, steps[0]), steps[1..])
  }

  /** A request has just been accepted; the table may have any history. */
  ghost function Requested(log: seq<Entry>): Stream {
    Stream(log, NotStarted, None, [], None, 0, [], [], [], true, [])
  }

  // ----- The invariant -----

  function MessageFiles(m: Message): seq<WireAdd> {
    if m.Batch? then m.files else []
  }

  ghost predicate SourceOk(s: Stream) {
    && s.pulled <= |s.views|
    && (s.failAt.Some? ==> s.pulled <= s.failAt.value <= |s.views|)
  }

  /** The snapshot is that of the version in the header, and commits since then did not change it. */
  ghost predicate SnapshotOk(s: Stream) {
    s.snapshot.Some? ==> s.snapshot.value < |s.log| && Enumerates(s.views, ActiveFiles(s.log[..s.snapshot.value + 1]))
  }

  /** The complete message sequence of this listing, once the table is open. */
  ghost function Plan(s: Stream): seq<Message>
    requires SourceOk(s) && s.snapshot.Some?
  {
    Script(s.snapshot.value, Files(s.views), s.failAt)
  }

  /** Header and full batches of what was pulled so far. */
  ghost function SoFar(s: Stream): seq<Message>
    requires SourceOk(s) && s.snapshot.Some?
  {
    [Header(s.snapshot.value)] + FullBatches(Files(s.views)[..s.pulled])
  }

  predicate PulledAll(s: Stream) {
    s.pulled == if s.failAt.Some? then s.failAt.value else |s.views|
  }

  /** How far the task got, and what it has left to say. */
  ghost predicate TaskOk(s: Stream)
    requires SourceOk(s)
  {
    match s.task
    case NotStarted => s.snapshot.None? && s.pushed == [] && s.batch == [] && s.pulled == 0
    case Pulling => s.snapshot.Some? && s.pushed == SoFar(s) && s.batch == Rest(Files(s.views)[..s.pulled])
    case Sending(m, last) =>
      && s.batch == []
      && (if s.snapshot.None? then last && m.Failure? && s.pushed == [] && s.pulled == 0
          else if last then s.pushed + [m] == Plan(s) && PulledAll(s)
          else s.pushed + [m] == SoFar(s) && Rest(Files(s.views)[..s.pulled]) == [])
    case Done =>
      && s.batch == []
      && (s.snapshot.None? ==> s.pulled == 0 && |s.pushed| <= 1 && (forall m | m in s.pushed :: m.Failure?))
      && (s.snapshot.Some? ==> s.pushed <= Plan(s))
      && (s.connected ==> if s.snapshot.Some? then s.pushed == Plan(s) && PulledAll(s) else s.pushed != [])
  }

  ghost predicate ChannelOk(s: Stream) {
    && |s.queue| <= STREAM_CHANNEL_CAPACITY
    && s.received <= s.pushed
    && (s.connected ==> s.received + s.queue == s.pushed)
    && (!s.connected ==> s.queue == [])
  }

  ghost predicate StreamInv(s: Stream) {
    SourceOk(s) && SnapshotOk(s) && TaskOk(s) && ChannelOk(s)
  }

  // ----- Each step -----

  lemma StepKeepsChannel(s: Stream, step: StreamStep)
    requires CanStep(s, step) && ChannelOk(s)
    ensures ChannelOk(DoStep(s, step))
  {
  }

  lemma StepKeepsSnapshot(s: Stream, step: StreamStep)
    requires CanStep(s, step) && SnapshotOk(s) && (s.task.NotStarted? ==> s.snapshot.None?)
    ensures SnapshotOk(DoStep(s, step))
  {
    match step
    case OpenSnapshot(_, _) => assert s.log[..|s.log|] == s.log;
    case CommitLands(entry) =>
      if s.snapshot.Some? {
        assert (s.log + [entry])[..s.snapshot.value + 1] == s.log[..s.snapshot.value + 1];
      }
    case _ =>
  }

  lemma PullKeepsTask(s: Stream)
    requires CanStep(s, Pull) && SourceOk(s) && TaskOk(s)
    ensures SourceOk(DoStep(s, Pull)) && TaskOk(DoStep(s, Pull))
  {
    var files := Files(s.views);
    OneMoreFile(files[..s.pulled], files[s.pulled]);
    assert files[..s.pulled + 1] == files[..s.pulled] + [files[s.pulled]];
  }

  lemma EndKeepsTask(s: Stream, step: StreamStep)
    requires step.PullFails? || step.PullEnds?
    requires CanStep(s, step) && SourceOk(s) && TaskOk(s)
    ensures SourceOk(DoStep(s, step)) && TaskOk(DoStep(s, step))
  {
    var files := Files(s.views);
    if step.PullEnds? {
      assert files[..s.pulled] == files;
    }
  }

  lemma SendKeepsTask(s: Stream, step: StreamStep)
    requires step.Push? || step.PushFails?
    requires CanStep(s, step) && SourceOk(s) && TaskOk(s) && ChannelOk(s)
    ensures SourceOk(DoStep(s, step)) && TaskOk(DoStep(s, step))
  {
    if s.snapshot.Some? {
      BatchesArePrefix(Files(s.views), s.pulled, s.snapshot.value, s.failAt);
    }
  }

  lemma OpenKeepsTask(s: Stream, step: StreamStep)
    requires step.OpenSnapshot? || step.FailToOpen?
    requires CanStep(s, step) && SourceOk(s) && TaskOk(s)
    ensures SourceOk(DoStep(s, step)) && TaskOk(DoStep(s, step))
  {
    if step.OpenSnapshot? {
      assert Files(step.views)[..0] == [];
    }
  }

  lemma StepKeepsTask(s: Stream, step: StreamStep)
    requires CanStep(s, step) && SourceOk(s) && TaskOk(s) && ChannelOk(s)
    ensures SourceOk(DoStep(s, step)) && TaskOk(DoStep(s, step))
  {
    match step
    case Pull => PullKeepsTask(s);
    case PullFails => EndKeepsTask(s, step);
    case PullEnds => EndKeepsTask(s, step);
    case Push => SendKeepsTask(s, step);
    case PushFails => SendKeepsTask(s, step);
    case OpenSnapshot(_, _) => OpenKeepsTask(s, step);
    case FailToOpen(_) => OpenKeepsTask(s, step);
    case _ =>
  }

  lemma {:induction false} StepsKeepInv(s: Stream, steps: seq<StreamStep>)
    requires StreamInv(s) && ValidSteps(s, steps)
    ensures StreamInv(AfterSteps(s, steps))
    decreases |steps|
  {
    if steps == [] {
    } else {
      StepKeepsTask(s, steps[0]);
      StepKeepsSnapshot(s, steps[0]);
      StepKeepsChannel(s, steps[0]);
      StepsKeepInv(DoStep(s, steps[0]), steps[1..]);
    }
  }

  lemma InvOfListing(log: seq<Entry>, steps: seq<StreamStep>)
    requires ValidSteps(Requested(log), steps)
    ensures StreamInv(AfterSteps(Requested(log), steps))
  {
    StepsKeepInv(Requested(log), steps);
  }

  // ----- What every run guarantees -----

  /** Whatever entered the channel is the beginning of the plan, or a lone error. */
  lemma PushedFollowsPlan(s: Stream)
    requires StreamInv(s)
    ensures s.snapshot.Some? ==> s.pushed <= Plan(s)
    ensures s.snapshot.None? ==> |s.pushed| <= 1 && forall m | m in s.pushed :: m.Failure?
  {
    if s.snapshot.Some? {
      BatchesArePrefix(Files(s.views), s.pulled, s.snapshot.value, s.failAt);
    }
  }

  /** In every state the client has seen a well-framed sequence: a lone error, or one header, then
      full batches, then at most one smaller nonempty batch or one error. */
  lemma ReceivedIsFramed(log: seq<Entry>, steps: seq<StreamStep>)
    requires ValidSteps(Requested(log), steps)
    ensures Framed(AfterSteps(Requested(log), steps).received)
  {
    InvOfListing(log, steps);
    FramedByPlan(AfterSteps(Requested(log), steps));
  }

  lemma FramedByPlan(s: Stream)
    requires StreamInv(s)
    ensures Framed(s.received)
  {
    PushedFollowsPlan(s);
    if s.snapshot.Some? {
      var n := |s.received|;
      assert s.received == Plan(s)[..n];
      ScriptIsFramed(s.snapshot.value, Files(s.views), s.failAt, n);
    } else if s.received != [] {
      assert s.received[0] in s.pushed;
    }
  }

  /** The task has ended and a client that stayed has received everything sent. */
  predicate Completed(s: Stream) {
    s.task == Done && s.connected && s.queue == []
  }

  /** The received files are, in order, the first files of the snapshot.  A client that stayed to
      the end has all of them, or has been told of the failure. */
  lemma ReceivedFilesAreAPrefix(log: seq<Entry>, steps: seq<StreamStep>)
    requires ValidSteps(Requested(log), steps)
    ensures var s := AfterSteps(Requested(log), steps);
            && FilesOf(s.received) <= Files(s.views)
            && (Completed(s) ==>
                  && s.received != []
                  && (s.received[|s.received| - 1].Failure? || FilesOf(s.received) == Files(s.views)))
  {
    InvOfListing(log, steps);
    PrefixByPlan(AfterSteps(Requested(log), steps));
  }

  lemma PrefixByPlan(s: Stream)
    requires StreamInv(s)
    ensures FilesOf(s.received) <= Files(s.views)
    ensures Completed(s) ==>
              && s.received != []
              && (s.received[|s.received| - 1].Failure? || FilesOf(s.received) == Files(s.views))
  {
    PushedFollowsPlan(s);
    if s.snapshot.Some? {
      ScriptFiles(s.snapshot.value, Files(s.views), s.failAt);
      FilesOfPrefix(s.received, Plan(s));
      if Completed(s) {
        assert s.received == s.pushed;
      }
    } else {
      if s.received != [] {
        assert s.received[0] in s.pushed;
        FilesOfOne(s.received[0]);
        assert s.received == [s.received[0]];
      }
      if Completed(s) {
        assert s.received == s.pushed;
      }
    }
  }

  ghost predicate NeverMissing(s: Stream) {
    && s.log != []
    && Failure(NotFound) !in s.pushed && Failure(NotFound) !in s.received && Failure(NotFound) !in s.queue
    && (s.task.Sending? ==> s.task.message != Failure(NotFound))
  }

  lemma {:induction false} StaysNeverMissing(s: Stream, steps: seq<StreamStep>)
    requires ValidSteps(s, steps) && NeverMissing(s)
    ensures NeverMissing(AfterSteps(s, steps))
    decreases |steps|
  {
    if steps == [] {
    } else {
      StaysNeverMissing(DoStep(s, steps[0]), steps[1..]);
    }
  }

  /** NOT_FOUND is told only about a table that had no log when the listing was asked for. */
  lemma {:induction false} NotFoundMeansMissing(log: seq<Entry>, steps: seq<StreamStep>)
    requires ValidSteps(Requested(log), steps)
    requires Failure(NotFound) in AfterSteps(Requested(log), steps).received
    ensures log == [] && AfterSteps(Requested(log), steps).received == [Failure(NotFound)]
  {
    if log != [] {
      StaysNeverMissing(Requested(log), steps);
    }
    InvOfListing(log, steps);
    FramedByPlan(AfterSteps(Requested(log), steps));
    LoneNotFound(AfterSteps(Requested(log), steps));
  }

  lemma LoneNotFound(s: Stream)
    requires StreamInv(s) && Failure(NotFound) in s.received
    ensures s.received == [Failure(NotFound)]
  {
    PushedFollowsPlan(s);
    if s.snapshot.Some? {
      assert Failure(NotFound) in Plan(s);
      ScriptFailures(s.snapshot.value, Files(s.views), s.failAt, Failure(NotFound));
    }
  }

  /** Snapshot consistency: although commits land while the listing runs, a completed listing
      without error is exactly the replay of the log up to the version in its header, each file
      once. */
  lemma CompletedListingIsASnapshot(log: seq<Entry>, steps: seq<StreamStep>)
    requires ValidSteps(Requested(log), steps)
    requires var s := AfterSteps(Requested(log), steps);
             Completed(s) && s.received != [] && !s.received[|s.received| - 1].Failure?
    ensures var s := AfterSteps(Requested(log), steps);
            && s.received[0].Header?
            && var v := s.received[0].version;
            && v < |s.log|
            && var files := ActiveFiles(s.log[..v + 1]);
            && |FilesOf(s.received)| == |files|
            && (forall f: WireAdd :: f in FilesOf(s.received) <==> f.path in files && f == ListedFile(files[f.path]))
  {
    InvOfListing(log, steps);
    var s := AfterSteps(Requested(log), steps);
    PrefixByPlan(s);
    assert s.received == s.pushed;
    assert s.snapshot.Some? && s.received == Plan(s);
    EnumerationIsComplete(s.views, ActiveFiles(s.log[..s.snapshot.value + 1]));
  }

  lemma EnumerationIsComplete(views: seq<Add>, files: map<string, Add>)
    requires Enumerates(views, files)
    ensures forall f: WireAdd :: f in Files(views) <==> f.path in files && f == ListedFile(files[f.path])
  {
    var paths := PathsOf(views);
    assert paths <= files.Keys && |files.Keys| == |files|;
    PathCount(views);
    SubsetOfSameSize(paths, files.Keys);
    forall f: WireAdd | f.path in files && f == ListedFile(files[f.path])
      ensures f in Files(views)
    {
      assert f.path in paths;
      var i :| 0 <= i < |views| && views[i].path == f.path;
      assert Files(views)[i] == f;
    }
    forall f | f in Files(views)
      ensures f.path in files && f == ListedFile(files[f.path])
    {
      var i :| 0 <= i < |views| && Files(views)[i] == f;
      assert f == ListedFile(views[i]);
    }
  }

  function PathsOf(views: seq<Add>): set<string> {
    set i | 0 <= i < |views| :: views[i].path
  }

  lemma {:induction false} PathCount(views: seq<Add>)
    requires forall i, j | 0 <= i < j < |views| :: views[i].path != views[j].path
    ensures |PathsOf(views)| == |views|
  {
    if views == [] {
      assert PathsOf(views) == {};
    } else {
      var n := |views| - 1;
      PathCount(views[..n]);
      assert PathsOf(views) == PathsOf(views[..n]) + {views[n].path};
    }
  }

  lemma SubsetOfSameSize(a: set<string>, b: set<string>)
    requires a <= b && |a| == |b|
    ensures a == b
  {
    assert |b| == |a| + |b - a|;
  }

  // ----- Backpressure -----

  /** Files mapped by the task and not yet taken by the client: those in the open batch, in the
      message waiting for a slot, and in the channel. */
  ghost function Held(s: Stream): nat {
    |s.batch| + (if s.task.Sending? then |MessageFiles(s.task.message)| else 0) + |FilesOf(s.queue)|
  }

  /** However slow the client, at most one batch more than the channel's capacity is in memory. */
  lemma BufferIsBounded(log: seq<Entry>, steps: seq<StreamStep>)
    requires ValidSteps(Requested(log), steps)
    ensures Held(AfterSteps(Requested(log), steps)) <= 5 * 1000
  {
    InvOfListing(log, steps);
    var s := AfterSteps(Requested(log), steps);
    QueueIsBounded(s);
    PendingIsBounded(s);
  }

  lemma {:induction false} SmallBatches(ms: seq<Message>)
    requires forall m | m in ms :: |MessageFiles(m)| <= FILE_BATCH_SIZE
    ensures |FilesOf(ms)| <= |ms| * FILE_BATCH_SIZE
  {
    if ms == [] {
    } else {
      assert ms[0] in ms;
      SmallBatches(ms[1..]);
    }
  }

  lemma QueueIsBounded(s: Stream)
    requires StreamInv(s)
    ensures |FilesOf(s.queue)| <= STREAM_CHANNEL_CAPACITY * FILE_BATCH_SIZE
  {
    if s.connected {
      PushedFollowsPlan(s);
      if s.snapshot.Some? {
        ScriptIsFramed(s.snapshot.value, Files(s.views), s.failAt, |Plan(s)|);
        assert Plan(s)[..|Plan(s)|] == Plan(s);
      }
      forall m | m in s.queue
        ensures |MessageFiles(m)| <= FILE_BATCH_SIZE
      {
        var i :| 0 <= i < |s.queue| && s.queue[i] == m;
        assert s.pushed[|s.received| + i] == m && m in s.pushed;
      }
      SmallBatches(s.queue);
    }
  }

  lemma PendingIsBounded(s: Stream)
    requires StreamInv(s)
    ensures |s.batch| + (if s.task.Sending? then |MessageFiles(s.task.message)| else 0) <= FILE_BATCH_SIZE
  {
    if s.task.Sending? && s.snapshot.Some? {
      BatchesArePrefix(Files(s.views), s.pulled, s.snapshot.value, s.failAt);
      ScriptIsFramed(s.snapshot.value, Files(s.views), s.failAt, |Plan(s)|);
      assert Plan(s)[..|Plan(s)|] == Plan(s);
      var n := |s.pushed|;
      assert Plan(s)[n] == s.task.message;
    }
  }

  /** The source has failed under the task. */
  predicate SourceFailed(s: Stream) {
    s.snapshot.Some? && s.failAt.Some? && (s.task.Done? || (s.task.Sending? && s.task.last))
  }

  /** Files given up: when the source fails, those that do not fill a batch. */
  ghost function Lost(s: Stream): nat
    requires SourceOk(s)
  {
    if SourceFailed(s) then |Rest(Files(s.views)[..s.pulled])| else 0
  }

  /** While the client stays, every file taken from the source is with the client or held, none is
      held twice, and none is dropped before the source fails.  When it does fail, exactly the
      files of the unfinished batch are: fewer than a batch, and the last ones taken. */
  lemma NothingIsDropped(log: seq<Entry>, steps: seq<StreamStep>)
    requires ValidSteps(Requested(log), steps) && AfterSteps(Requested(log), steps).connected
    ensures var s := AfterSteps(Requested(log), steps);
            && SourceOk(s)
            && s.pulled == |FilesOf(s.received)| + Held(s) + Lost(s)
            && (!SourceFailed(s) ==> Lost(s) == 0)
            && Lost(s) < 1000
  {
    InvOfListing(log, steps);
    Conservation(AfterSteps(Requested(log), steps));
  }

  lemma Conservation(s: Stream)
    requires StreamInv(s) && s.connected
    ensures s.pulled == |FilesOf(s.received)| + Held(s) + Lost(s)
  {
    FilesOfConcat(s.received, s.queue);
    if s.snapshot.None? {
      if s.pushed != [] {
        FilesOfOne(s.pushed[0]);
        assert s.pushed == [s.pushed[0]] && s.pushed[0] in s.pushed;
      }
    } else {
      var pulled := Files(s.views)[..s.pulled];
      var said := if s.task.Sending? then s.pushed + [s.task.message] else s.pushed;
      if s.task.Sending? {
        FilesOfConcat(s.pushed, [s.task.message]);
        FilesOfOne(s.task.message);
      }
      assert |FilesOf(said)| == |FilesOf(s.received)| + Held(s) - |s.batch|;
      CutIsLossless(pulled);
      if s.task.Pulling? || (s.task.Sending? && !s.task.last) {
        FilesOfFramedBy(s.snapshot.value, FullBatches(pulled), []);
        assert said + [] == said;
      } else if s.failAt.Some? {
        FilesOfFramedBy(s.snapshot.value, FullBatches(pulled), [Failure(Status.Internal)]);
        FilesOfOne(Failure(Status.Internal));
      } else {
        ScriptFiles(s.snapshot.value, Files(s.views), s.failAt);
      }
    }
  }
}
