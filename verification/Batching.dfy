/**
 The messages of a file listing: how a sequence of files is cut into batches, the complete
 message sequence of a listing, and the loop that produces it.
 */
module Batching {
  import opened Wrappers
  import opened Actions

  const FILE_BATCH_SIZE: nat := 1000

  datatype Status = NotFound | FailedPrecondition | Internal

  datatype Message = Header(version: nat) | Batch(files: seq<WireAdd>) | Failure(status: Status)

  // ----- Cutting into batches -----

  function FullBatches(files: seq<WireAdd>): seq<Message>
    decreases |files|
  {
    if |files| < FILE_BATCH_SIZE then []
    else [Batch(files[..FILE_BATCH_SIZE])] + FullBatches(files[FILE_BATCH_SIZE..])
  }

  /** What is left over after the full batches. */
  function Rest(files: seq<WireAdd>): (rest: seq<WireAdd>)
    ensures |rest| < FILE_BATCH_SIZE
    decreases |files|
  {
    if |files| < FILE_BATCH_SIZE then files else Rest(files[FILE_BATCH_SIZE..])
  }

  /** One more file either joins the rest or completes a batch. */
  lemma {:induction false} OneMoreFile(files: seq<WireAdd>, f: WireAdd)
    ensures |Rest(files)| + 1 < FILE_BATCH_SIZE ==>
              FullBatches(files + [f]) == FullBatches(files) && Rest(files + [f]) == Rest(files) + [f]
    ensures |Rest(files)| + 1 == FILE_BATCH_SIZE ==>
              && FullBatches(files + [f]) == FullBatches(files) + [Batch(Rest(files) + [f])]
              && Rest(files + [f]) == []
    decreases |files|
  {
    var more := files + [f];
    if |files| >= FILE_BATCH_SIZE {
      OneMoreFile(files[FILE_BATCH_SIZE..], f);
      assert more[..FILE_BATCH_SIZE] == files[..FILE_BATCH_SIZE];
      assert more[FILE_BATCH_SIZE..] == files[FILE_BATCH_SIZE..] + [f];
    } else if |files| + 1 == FILE_BATCH_SIZE {
      assert more[..FILE_BATCH_SIZE] == more && more[FILE_BATCH_SIZE..] == [];
    }
  }

  /** The files carried by the batches of a message sequence, in order. */
  function FilesOf(ms: seq<Message>): seq<WireAdd> {
    if ms == [] then []
    else (if ms[0].Batch? then ms[0].files else []) + FilesOf(ms[1..])
  }

  lemma {:induction false} FilesOfConcat(a: seq<Message>, b: seq<Message>)
    ensures FilesOf(a + b) == FilesOf(a) + FilesOf(b)
  {
    if a == [] {
      assert a + b == b;
    } else {
      FilesOfConcat(a[1..], b);
      assert (a + b)[1..] == a[1..] + b;
    }
  }

  lemma FilesOfOne(m: Message)
    ensures FilesOf([m]) == if m.Batch? then m.files else []
  {
    assert [m][1..] == [];
  }

  /** Nothing is lost or reordered by the cut. */
  lemma {:induction false} CutIsLossless(files: seq<WireAdd>)
    ensures FilesOf(FullBatches(files)) + Rest(files) == files
    decreases |files|
  {
    if |files| < FILE_BATCH_SIZE {
    } else {
      var tail := files[FILE_BATCH_SIZE..];
      CutIsLossless(tail);
      assert FullBatches(files)[1..] == FullBatches(tail);
      assert files == files[..FILE_BATCH_SIZE] + tail;
    }
  }

  lemma {:induction false} FullBatchesAreFull(files: seq<WireAdd>)
    ensures forall m | m in FullBatches(files) :: m.Batch? && |m.files| == FILE_BATCH_SIZE
    decreases |files|
  {
    if |files| < FILE_BATCH_SIZE {
    } else {
      FullBatchesAreFull(files[FILE_BATCH_SIZE..]);
    }
  }

  // ----- The whole listing -----

  /** The files of a source, in their wire form. */
  function Files(views: seq<Add>): (files: seq<WireAdd>)
    ensures |files| == |views|
  {
    seq(|views|, i requires 0 <= i < |views| => ListedFile(views[i]))
  }

  /** What an attentive client is sent: a header, the files, and, if the source fails after `n`
      files, an error instead of whatever did not fill a batch by then. */
  function Script(version: nat, files: seq<WireAdd>, failAt: Option<nat>): seq<Message>
    requires failAt.Some? ==> failAt.value <= |files|
  {
    match failAt
    case None => [Header(version)] + FullBatches(files) + (if Rest(files) == [] then [] else [Batch(Rest(files))])
    case Some(n) => [Header(version)] + FullBatches(files[..n]) + [Failure(Internal)]
  }

  /** At most one header, first; batches of exactly 1000 files, except that the last message may
      be a smaller nonempty one; at most one error, last; nothing before the header but a lone
      error. */
  predicate Framed(ms: seq<Message>) {
    && (ms != [] ==> ms[0].Header? || (ms[0].Failure? && |ms| == 1))
    && (forall i | 0 < i < |ms| :: !ms[i].Header?)
    && (forall i | 0 <= i < |ms| - 1 :: !ms[i].Failure? && (ms[i].Batch? ==> |ms[i].files| == 1000))
    && (forall i | 0 <= i < |ms| :: ms[i].Batch? ==> 0 < |ms[i].files| <= 1000)
  }

  lemma ScriptIsFramed(version: nat, files: seq<WireAdd>, failAt: Option<nat>, n: nat)
    requires failAt.Some? ==> failAt.value <= |files|
    requires n <= |Script(version, files, failAt)|
    ensures Framed(Script(version, files, failAt)[..n])
  {
    var pulled := if failAt.Some? then files[..failAt.value] else files;
    FullBatchesAreFull(pulled);
    var ms := Script(version, files, failAt);
    var b := FullBatches(pulled);
    forall i | 0 < i <= |b|
      ensures ms[i].Batch? && |ms[i].files| == FILE_BATCH_SIZE
    {
      assert ms[i] == b[i - 1] && b[i - 1] in b;
    }
  }

  /** The only failure in a script is that of its source. */
  lemma ScriptFailures(version: nat, files: seq<WireAdd>, failAt: Option<nat>, m: Message)
    requires failAt.Some? ==> failAt.value <= |files|
    requires m in Script(version, files, failAt) && m.Failure?
    ensures m == Failure(Internal)
  {
    FullBatchesAreFull(if failAt.Some? then files[..failAt.value] else files);
  }

  lemma FilesOfFramedBy(version: nat, b: seq<Message>, last: seq<Message>)
    ensures FilesOf([Header(version)] + b + last) == FilesOf(b) + FilesOf(last)
  {
    FilesOfOne(Header(version));
    FilesOfConcat([Header(version)], b);
    FilesOfConcat([Header(version)] + b, last);
    assert [] + FilesOf(b) == FilesOf(b);
  }

  /** A listing that completes carries every file; one that breaks off carries the first ones. */
  lemma ScriptFiles(version: nat, files: seq<WireAdd>, failAt: Option<nat>)
    requires failAt.Some? ==> failAt.value <= |files|
    ensures FilesOf(Script(version, files, failAt)) <= files
    ensures failAt.None? ==> FilesOf(Script(version, files, failAt)) == files
  {
    if failAt.Some? {
      var pulled := files[..failAt.value];
      CutIsLossless(pulled);
      FilesOfOne(Failure(Internal));
      FilesOfFramedBy(version, FullBatches(pulled), [Failure(Internal)]);
      assert FilesOf(FullBatches(pulled)) + [] == FilesOf(FullBatches(pulled)) <= pulled <= files;
    } else {
      CutIsLossless(files);
      var last := if Rest(files) == [] then [] else [Batch(Rest(files))];
      FilesOfFramedBy(version, FullBatches(files), last);
      FilesOfOne(Batch(Rest(files)));
      assert FilesOf(last) == Rest(files);
    }
  }

  lemma {:induction false} FilesOfPrefix(a: seq<Message>, b: seq<Message>)
    requires a <= b
    ensures FilesOf(a) <= FilesOf(b)
  {
    assert b == a + b[|a|..];
    FilesOfConcat(a, b[|a|..]);
  }

  // ----- The loop -----

  /** How many of `n` messages a client accepts that leaves after `stays` of them. */
  function Accepted(n: nat, stays: Option<nat>): nat {
    if stays.Some? && stays.value < n then stays.value else n
  }

  /** The producer, with sends that fail from the moment the client is gone.  `opening` is the
      snapshot's version or the status that opening the table failed with. */
  method StreamActiveFiles(opening: Result<nat, Status>, views: seq<Add>, failAt: Option<nat>, stays: Option<nat>)
    returns (sent: seq<Message>)
    requires failAt.Some? ==> failAt.value <= |views|
    ensures var script := if opening.Ok? then Script(opening.value, Files(views), failAt) else [Failure(opening.error)];
            sent == script[..Accepted(|script|, stays)]
  {
    if stays == Some(0) {
      return [];
    }
    if opening.Err? {
      return [Failure(opening.error)];
    }
    sent := StreamFiles(opening.value, views, failAt, stays);
  }

  /** The loop over the files, for a client that is there for the header. */
  method StreamFiles(version: nat, views: seq<Add>, failAt: Option<nat>, stays: Option<nat>)
    returns (sent: seq<Message>)
    requires (failAt.Some? ==> failAt.value <= |views|) && stays != Some(0)
    ensures var script := Script(version, Files(views), failAt);
            sent == script[..Accepted(|script|, stays)]
  {
    ghost var files := Files(views);
    sent := [Header(version)];
    var batch: seq<WireAdd> := [];
    var i := 0;
    while i < |views| && failAt != Some(i)
      invariant 0 <= i <= |views| && (failAt.Some? ==> i <= failAt.value)
      invariant sent == [Header(version)] + FullBatches(files[..i])
      invariant batch == Rest(files[..i])
      invariant stays.Some? ==> |sent| <= stays.value
    {
      NextFile(files, i);
      batch := batch + [ListedFile(views[i])];
      i := i + 1;
      if |batch| >= FILE_BATCH_SIZE {
        if stays == Some(|sent|) {
          BatchesArePrefix(files, i, version, failAt);
          return;
        }
        sent := sent + [Batch(batch)];
        batch := [];
      }
    }
    if failAt == Some(i) {
      if stays != Some(|sent|) {
        sent := sent + [Failure(Internal)];
      }
    } else {
      assert files[..i] == files;
      if batch != [] && stays != Some(|sent|) {
        sent := sent + [Batch(batch)];
      }
    }
  }

  lemma NextFile(files: seq<WireAdd>, i: nat)
    requires i < |files|
    ensures var before, after := files[..i], files[..i + 1];
            var batch := Rest(before) + [files[i]];
            if |batch| < FILE_BATCH_SIZE then FullBatches(after) == FullBatches(before) && Rest(after) == batch
            else FullBatches(after) == FullBatches(before) + [Batch(batch)] && Rest(after) == []
  {
    OneMoreFile(files[..i], files[i]);
    assert files[..i + 1] == files[..i] + [files[i]];
  }

  /** The batches of the first `i` files open the script of a source that does not fail earlier. */
  lemma BatchesArePrefix(files: seq<WireAdd>, i: nat, version: nat, failAt: Option<nat>)
    requires i <= |files| && (failAt.Some? ==> i <= failAt.value <= |files|)
    ensures [Header(version)] + FullBatches(files[..i]) <= Script(version, files, failAt)
  {
    var n := if failAt.Some? then failAt.value else |files|;
    BatchesGrow(files, i, n);
    assert files[..|files|] == files;
  }

  lemma {:induction false} BatchesGrow(files: seq<WireAdd>, i: nat, n: nat)
    requires i <= n <= |files|
    ensures FullBatches(files[..i]) <= FullBatches(files[..n])
    decreases n - i
  {
    if i == n {
    } else {
      BatchesGrow(files, i, n - 1);
      NextFile(files, n - 1);
    }
  }
}
