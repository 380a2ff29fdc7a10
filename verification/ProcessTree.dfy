/** Signalling every descendant of the reaper, found through /proc. */
module ProcessTree {
  import opened Common

  type Pid = nat

  /** The `children` file of one thread: its contents, gone, or unreadable. */
  datatype TaskRead = Children(pids: seq<Pid>) | Gone | Unreadable

  /** The `task` directory of one process. A missing process has no entry. */
  datatype TaskDir = Tasks(tasks: seq<TaskRead>) | DirUnreadable

  type Proc = map<Pid, TaskDir>

  function Elements(s: seq<Pid>): set<Pid> {
    set p | p in s
  }

  /** The children listed by any thread. */
  function ChildSet(tasks: seq<TaskRead>): set<Pid> {
    if tasks == [] then {} else
      var front := ChildSet(tasks[..|tasks| - 1]);
      match tasks[|tasks| - 1]
      case Children(pids) => front + Elements(pids)
      case _ => front
  }

  ghost predicate IsChild(proc: Proc, p: Pid, c: Pid) {
    p in proc && proc[p].Tasks? && c in ChildSet(proc[p].tasks)
  }

  ghost predicate IsPath(proc: Proc, path: seq<Pid>) {
    path != [] && forall i | 0 <= i < |path| - 1 :: IsChild(proc, path[i], path[i + 1])
  }

  ghost predicate Descends(proc: Proc, a: Pid, b: Pid) {
    exists path :: IsPath(proc, path) && path[0] == a && path[|path| - 1] == b
  }

  ghost predicate Distinct(s: seq<Pid>) {
    forall i, j | 0 <= i < j < |s| :: s[i] != s[j]
  }

  // ---------------------------------------------------------------- the traversal

  /** Every listed process was listed by the root or by an earlier one. */
  ghost predicate ParentsFirst(proc: Proc, root: Pid, ds: seq<Pid>) {
    forall i | 0 <= i < |ds| :: IsChild(proc, root, ds[i]) || exists j :: 0 <= j < i && IsChild(proc, ds[j], ds[i])
  }

  /** `listed` gives, without repetition, the elements of `found` not seen before. */
  ghost predicate FreshOf(listed: seq<Pid>, found: set<Pid>, seen: set<Pid>) {
    Distinct(listed) && Elements(listed) == found - seen
  }

  lemma DistinctAppend(a: seq<Pid>, b: seq<Pid>)
    requires Distinct(a) && Distinct(b) && Elements(a) !! Elements(b)
    ensures Distinct(a + b) && Elements(a + b) == Elements(a) + Elements(b)
  {
    forall i, j | 0 <= i < j < |a + b|
      ensures (a + b)[i] != (a + b)[j]
    {
      if i < |a| <= j {
        assert a[i] in Elements(a) && b[j - |a|] in Elements(b);
      }
    }
  }

  /** Scan one children file. */
  method ScanChildren(pids: seq<Pid>, seen: set<Pid>) returns (found: seq<Pid>)
    ensures FreshOf(found, Elements(pids), seen)
  {
    found := [];
    var all := seen;
    for i := 0 to |pids|
      invariant FreshOf(found, Elements(pids[..i]), seen)
      invariant all == seen + Elements(pids[..i])
    {
      var child := pids[i];
      assert pids[..i + 1] == pids[..i] + [child];
      assert Elements(pids[..i + 1]) == Elements(pids[..i]) + {child};
      if child !in all {
        DistinctAppend(found, [child]);
        assert Elements([child]) == {child};
        found := found + [child];
      }
      all := all + {child};
    }
    assert pids[..|pids|] == pids;
  }

  /** Scan all threads of one process; an unreadable file is an error. */
  method ScanTasks(tasks: seq<TaskRead>, seen: set<Pid>) returns (ok: bool, found: seq<Pid>)
    ensures ok <==> Unreadable !in tasks
    ensures ok ==> FreshOf(found, ChildSet(tasks), seen)
  {
    found := [];
    for i := 0 to |tasks|
      invariant Unreadable !in tasks[..i]
      invariant FreshOf(found, ChildSet(tasks[..i]), seen)
    {
      assert tasks[..i + 1] == tasks[..i] + [tasks[i]] && tasks[..i + 1][..i] == tasks[..i];
      match tasks[i] {
        case Unreadable => return false, [];
        case Gone =>
        case Children(pids) =>
          var more := ScanChildren(pids, seen + Elements(found));
          DistinctAppend(found, more);
          found := found + more;
      }
    }
    assert tasks[..|tasks|] == tasks;
    ok := true;
  }

  ghost predicate Readable(proc: Proc) {
    forall p | p in proc :: proc[p].Tasks? && Unreadable !in proc[p].tasks
  }

  /** What holds between two steps of the worklist. */
  ghost predicate Progress(proc: Proc, root: Pid, pending: seq<Pid>, ds: seq<Pid>, seen: set<Pid>) {
    && seen == {root} + Elements(ds) && root !in ds && Distinct(ds)
    && Distinct(pending) && Elements(pending) <= seen
    && ParentsFirst(proc, root, ds)
    && (forall p, c | p in seen && p !in pending && IsChild(proc, p, c) :: c in seen)
    && (forall p | p in seen :: Descends(proc, root, p))
  }

  ghost function Universe(proc: Proc, root: Pid): set<Pid> {
    {root} + set p, c | p in proc && proc[p].Tasks? && c in ChildSet(proc[p].tasks) :: c
  }

  /** One step: the children of a popped process that were not seen are listed. */
  lemma StepKeeps(proc: Proc, root: Pid, pending: seq<Pid>, ds: seq<Pid>, seen: set<Pid>, found: seq<Pid>)
    requires Progress(proc, root, pending, ds, seen) && pending != []
    requires var pid := pending[|pending| - 1];
      FreshOf(found, if pid in proc && proc[pid].Tasks? then ChildSet(proc[pid].tasks) else {}, seen)
    ensures Progress(proc, root, pending[..|pending| - 1] + found, ds + found, seen + Elements(found))
  {
    var pid, rest := pending[|pending| - 1], pending[..|pending| - 1];
    assert pending == rest + [pid];
    assert pid in Elements(pending);
    forall p | p in found
      ensures p !in seen && IsChild(proc, pid, p)
    {
      assert p in Elements(found);
    }
    assert Elements(rest) <= Elements(pending);
    DistinctAppend(rest, found);
    DistinctAppend(ds, found);
    StepKeepsOrder(proc, root, ds, found, pid);
    forall p, c | p in seen + Elements(found) && p !in rest + found && IsChild(proc, p, c)
      ensures c in seen + Elements(found)
    {
      assert p in seen;
      if p != pid {
        assert p !in pending;
      }
    }
    forall p | p in Elements(found)
      ensures Descends(proc, root, p)
    {
      Extend(proc, root, pid, p);
    }
  }

  lemma StepKeepsOrder(proc: Proc, root: Pid, ds: seq<Pid>, found: seq<Pid>, pid: Pid)
    requires ParentsFirst(proc, root, ds) && (pid == root || pid in ds)
    requires forall p | p in found :: IsChild(proc, pid, p)
    ensures ParentsFirst(proc, root, ds + found)
  {
    var all := ds + found;
    forall i | 0 <= i < |all|
      ensures IsChild(proc, root, all[i]) || exists j :: 0 <= j < i && IsChild(proc, all[j], all[i])
    {
      if i < |ds| {
        if !IsChild(proc, root, ds[i]) {
          var j :| 0 <= j < i && IsChild(proc, ds[j], ds[i]);
          assert all[j] == ds[j];
        }
      } else {
        assert all[i] in found;
        if pid != root {
          var j :| 0 <= j < |ds| && ds[j] == pid;
          assert all[j] == pid;
        }
      }
    }
  }

  lemma Extend(proc: Proc, root: Pid, pid: Pid, c: Pid)
    requires Descends(proc, root, pid) && IsChild(proc, pid, c)
    ensures Descends(proc, root, c)
  {
    var path :| IsPath(proc, path) && path[0] == root && path[|path| - 1] == pid;
    var longer := path + [c];
    assert IsPath(proc, longer) by {
      forall i | 0 <= i < |longer| - 1
        ensures IsChild(proc, longer[i], longer[i + 1])
      {
        if i < |path| - 1 {
          assert IsChild(proc, path[i], path[i + 1]);
        }
      }
    }
    assert longer[0] == root && longer[|longer| - 1] == c;
  }

  /** A path cannot leave a set that contains its start and is closed. */
  lemma {:induction false} StaysInside(proc: Proc, seen: set<Pid>, path: seq<Pid>, i: nat)
    requires IsPath(proc, path) && path[0] in seen && i < |path|
    requires forall p, c | p in seen && IsChild(proc, p, c) :: c in seen
    ensures path[i] in seen
  {
    if i > 0 {
      StaysInside(proc, seen, path, i - 1);
      assert IsChild(proc, path[i - 1], path[i - 1 + 1]);
    }
  }

  /** The descendants of the root, each once, parents before children. */
  method Collect(proc: Proc, root: Pid) returns (ok: bool, descendants: seq<Pid>)
    ensures Readable(proc) ==> ok
    ensures ok ==> Distinct(descendants) && ParentsFirst(proc, root, descendants)
    ensures ok ==> forall p :: p in descendants <==> p != root && Descends(proc, root, p)
  {
    var pending := [root];
    descendants := [];
    var seen := {root};
    assert IsPath(proc, [root]);
    while pending != []
      invariant Progress(proc, root, pending, descendants, seen)
      invariant seen <= Universe(proc, root)
      decreases Universe(proc, root) - seen, |pending|
    {
      var pid := pending[|pending| - 1];
      ghost var before, was := pending, seen;
      pending := pending[..|pending| - 1];
      var found := [];
      if pid in proc {
        if proc[pid].DirUnreadable? {
          return false, [];
        }
        ok, found := ScanTasks(proc[pid].tasks, seen);
        if !ok {
          return;
        }
      }
      StepKeeps(proc, root, before, descendants, seen, found);
      pending := pending + found;
      descendants := descendants + found;
      seen := seen + Elements(found);
      if found == [] {
        assert seen == was;
      } else {
        assert found[0] in Elements(found) && found[0] in seen && found[0] !in was;
      }
    }
    AllFound(proc, root, descendants, seen);
    ok := true;
  }

  lemma AllFound(proc: Proc, root: Pid, ds: seq<Pid>, seen: set<Pid>)
    requires Progress(proc, root, [], ds, seen)
    ensures forall p :: p in ds <==> p != root && Descends(proc, root, p)
  {
    forall p: Pid
      ensures p in ds <==> p != root && Descends(proc, root, p)
    {
      if p in ds {
        assert p in Elements(ds);
      }
      if p != root && Descends(proc, root, p) {
        var path :| IsPath(proc, path) && path[0] == root && path[|path| - 1] == p;
        StaysInside(proc, seen, path, |path| - 1);
      }
    }
  }

  // ---------------------------------------------------------------- signalling

  /** `kill`: delivered, the process is gone, or refused. */
  datatype KillAnswer = Delivered | NoSuchProcess | KillError

  /** Signal the descendants, last found first. `signalled` lists the calls made. */
  method SignalDescendants(proc: Proc, root: Pid, kill: Pid -> KillAnswer)
    returns (ok: bool, signalled: seq<Pid>, ghost descendants: seq<Pid>)
    ensures Readable(proc) && (forall p :: !kill(p).KillError?) ==> ok
    ensures ok ==> signalled == Reversed(descendants)
    ensures !ok ==> signalled <= Reversed(descendants)
    ensures Distinct(descendants) && ParentsFirst(proc, root, descendants)
    ensures ok ==> forall p :: p in descendants <==> p != root && Descends(proc, root, p)
  {
    var listed, pids := Collect(proc, root);
    signalled := [];
    if !listed {
      descendants := [];
      return false, signalled, descendants;
    }
    descendants := pids;
    var i := |pids|;
    ReversedSuffix(pids, i);
    while i > 0
      invariant 0 <= i <= |pids| && signalled == Reversed(pids[i..])
      invariant signalled <= Reversed(pids)
    {
      i := i - 1;
      ReversedSuffix(pids, i);
      signalled := signalled + [pids[i]];
      if kill(pids[i]).KillError? {
        return false, signalled, descendants;
      }
    }
    assert pids[0..] == pids;
    ok := true;
  }

  function Reversed(s: seq<Pid>): (r: seq<Pid>)
    ensures |r| == |s| && forall i | 0 <= i < |s| :: r[i] == s[|s| - 1 - i]
  {
    seq(|s|, i requires 0 <= i < |s| => s[|s| - 1 - i])
  }

  lemma ReversedSuffix(s: seq<Pid>, i: nat)
    requires i <= |s|
    ensures Reversed(s[i..]) <= Reversed(s)
    ensures i < |s| ==> Reversed(s[i..]) == Reversed(s[i + 1..]) + [s[i]]
  {
  }

  /** Every process has at most one parent, and the root has none. */
  ghost predicate IsTree(proc: Proc, root: Pid) {
    && (forall p, q, c :: IsChild(proc, p, c) && IsChild(proc, q, c) ==> p == q)
    && (forall p :: !IsChild(proc, p, root))
  }

  /** On a process tree every child is signalled before its parent, and the root
      is not signalled at all. */
  lemma ChildrenFirst(proc: Proc, root: Pid, ds: seq<Pid>, p: int, c: int)
    requires IsTree(proc, root) && Distinct(ds) && ParentsFirst(proc, root, ds) && root !in ds
    requires 0 <= p < |ds| && 0 <= c < |ds| && IsChild(proc, Reversed(ds)[p], Reversed(ds)[c])
    ensures c < p
  {
    var i, j := |ds| - 1 - c, |ds| - 1 - p;
    assert IsChild(proc, ds[j], ds[i]);
    assert ds[j] in ds && !IsChild(proc, root, ds[i]);
    var k :| 0 <= k < i && IsChild(proc, ds[k], ds[i]);
    assert ds[k] == ds[j];
  }
}
