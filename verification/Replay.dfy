/**
 The active files of a log, told without replaying it: for each path the last word counts.
 */
module Replay {
  import opened Actions
  import opened CommitProtocol

  predicate Touches(a: Action, path: string) {
    (a.AddAction? && a.add.path == path) || (a.RemoveAction? && a.remove.path == path)
  }

  predicate Untouched(actions: seq<Action>, path: string) {
    forall a | a in actions :: !Touches(a, path)
  }

  /** Action `i` is the last one that adds or removes `path`. */
  predicate LastWord(actions: seq<Action>, path: string, i: nat) {
    i < |actions| && Touches(actions[i], path) && Untouched(actions[i + 1..], path)
  }

  /** `path` is in `files` as `a` says. */
  predicate Obeys(files: map<string, Add>, path: string, a: Action) {
    if a.AddAction? then path in files && files[path] == a.add else path !in files
  }

  predicate SameAt(f: map<string, Add>, g: map<string, Add>, path: string) {
    (path in f <==> path in g) && (path in f && path in g ==> f[path] == g[path])
  }

  lemma {:induction false} UntouchedIsKept(files: map<string, Add>, actions: seq<Action>, path: string)
    requires Untouched(actions, path)
    ensures SameAt(ApplyActions(files, actions), files, path)
    decreases |actions|
  {
    if actions == [] {
    } else {
      assert actions[0] in actions;
      UntouchedIsKept(ApplyAction(files, actions[0]), actions[1..], path);
    }
  }

  lemma {:induction false} LastWordDecides(files: map<string, Add>, actions: seq<Action>, path: string, i: nat)
    requires LastWord(actions, path, i)
    ensures Obeys(ApplyActions(files, actions), path, actions[i])
    decreases |actions|
  {
    var next, rest := ApplyAction(files, actions[0]), actions[1..];
    if i == 0 {
      UntouchedIsKept(next, rest, path);
    } else {
      assert rest[i - 1] == actions[i] && rest[i..] == actions[i + 1..];
      LastWordDecides(next, rest, path, i - 1);
    }
  }

  lemma {:induction false} FindLastWord(actions: seq<Action>, path: string) returns (i: nat)
    requires !Untouched(actions, path)
    ensures LastWord(actions, path, i)
  {
    var last := |actions| - 1;
    if Touches(actions[last], path) {
      i := last;
    } else {
      assert forall a | a in actions :: a in actions[..last] || a == actions[last];
      i := FindLastWord(actions[..last], path);
      assert actions[..last][i] == actions[i];
      assert actions[i + 1..] == actions[..last][i + 1..] + [actions[last]];
    }
  }

  /** The last add or remove of `path` in the whole log: action `i` of version `v`. */
  ghost predicate LastInLog(log: seq<Entry>, path: string, v: nat, i: nat) {
    && v < |log| && LastWord(log[v].actions, path, i)
    && forall u | v < u < |log| :: Untouched(log[u].actions, path)
  }

  lemma {:induction false} LastInLogDecides(log: seq<Entry>, path: string, v: nat, i: nat)
    requires LastInLog(log, path, v, i)
    ensures Obeys(ActiveFiles(log), path, log[v].actions[i])
    decreases |log|
  {
    var last := |log| - 1;
    var before := ActiveFiles(log[..last]);
    if v == last {
      LastWordDecides(before, log[last].actions, path, i);
    } else {
      LastInLogDecides(log[..last], path, v, i);
      UntouchedIsKept(before, log[last].actions, path);
    }
  }

  lemma {:induction false} FindLastInLog(log: seq<Entry>, path: string) returns (v: nat, i: nat)
    requires path in ActiveFiles(log)
    ensures LastInLog(log, path, v, i)
    decreases |log|
  {
    var last := |log| - 1;
    if Untouched(log[last].actions, path) {
      UntouchedIsKept(ActiveFiles(log[..last]), log[last].actions, path);
      v, i := FindLastInLog(log[..last], path);
    } else {
      v := last;
      i := FindLastWord(log[last].actions, path);
    }
  }

  /** A path is active exactly when the last add or remove of it in the log is an add, and then it
      is the file of that add. */
  lemma {:induction false} ActiveMeansLastAdded(log: seq<Entry>, path: string)
    ensures path in ActiveFiles(log) <==>
            exists v: nat, i: nat :: LastInLog(log, path, v, i) && log[v].actions[i].AddAction?
    ensures forall v: nat, i: nat | LastInLog(log, path, v, i) && log[v].actions[i].AddAction? ::
              path in ActiveFiles(log) && ActiveFiles(log)[path] == log[v].actions[i].add
  {
    forall v: nat, i: nat | LastInLog(log, path, v, i)
      ensures Obeys(ActiveFiles(log), path, log[v].actions[i])
    {
      LastInLogDecides(log, path, v, i);
    }
    if path in ActiveFiles(log) {
      var v, i := FindLastInLog(log, path);
    }
  }
}
