/** Walking the process table: the descendants of a process, and whether a process hangs
    below an sccache server. Tables may be cyclic. */
module ProcessTree {
  import opened Basics

  /** `executable` is the file name of the command line's first word. */
  datatype Process = Process(parent: int, executable: string)

  type Table = map<int, Process>

  /** Contains, with a process, every process whose parent it is. */
  ghost predicate ChildClosed(t: Table, s: set<int>) {
    forall pid | pid in t :: t[pid].parent in s ==> pid in s
  }

  /** Below the root in every child-closed set, that is, in the least one. */
  ghost predicate IsDescendant(t: Table, root: int, pid: int) {
    forall s: set<int> | root in s && ChildClosed(t, s) :: pid in s
  }

  /** The least child-closed set that contains the root. */
  method DescendantPids(root: int, processes: Table) returns (descendants: set<int>)
    ensures root in descendants && ChildClosed(processes, descendants)
    ensures forall s: set<int> | root in s && ChildClosed(processes, s) :: descendants <= s
    ensures forall pid :: pid in descendants <==> IsDescendant(processes, root, pid)
  {
    descendants := {root};
    var changed := true;
    while changed
      invariant root in descendants && descendants <= processes.Keys + {root}
      invariant forall s: set<int> | root in s && ChildClosed(processes, s) :: descendants <= s
      invariant !changed ==> ChildClosed(processes, descendants)
      decreases |processes.Keys + {root} - descendants|, changed
    {
      changed := false;
      var pending := processes.Keys;
      ghost var before := descendants;
      while pending != {}
        invariant pending <= processes.Keys
        invariant before <= descendants <= processes.Keys + {root}
        invariant forall s: set<int> | root in s && ChildClosed(processes, s) :: descendants <= s
        invariant changed ==> before < descendants
        invariant !changed ==> descendants == before
        invariant !changed ==>
                  forall pid | pid in processes && pid !in pending && processes[pid].parent in descendants ::
                    pid in descendants
        decreases pending
      {
        EmptyOrMember(pending);
        var pid :| pid in pending;
        pending := pending - {pid};
        if processes[pid].parent in descendants && pid !in descendants {
          descendants := descendants + {pid};
          changed := true;
        }
      }
      if changed {
        Shrinks(processes.Keys + {root}, before, descendants);
      }
    }
    forall pid
      ensures pid in descendants <==> IsDescendant(processes, root, pid)
    {
    }
  }

  lemma EmptyOrMember(s: set<int>)
    ensures s == {} || exists x: int :: x in s
  {
    if forall x: int :: x !in s {
      assert s <= {};
    }
  }

  lemma Shrinks(all: set<int>, small: set<int>, large: set<int>)
    requires small < large <= all
    ensures |all - large| < |all - small|
  {
    assert all - large < all - small;
    SubsetSize(all - large, all - small);
  }

  /** Whether some ancestor of the process, or the process itself, is an sccache server. */
  method HasSccacheAncestor(start: int, processes: Table) returns (found: bool)
    ensures found <==>
            exists q :: q in processes && processes[q].executable == "sccache" && IsDescendant(processes, q, start)
  {
    var pid := start;
    var seen: set<int> := {};
    while pid in processes && pid !in seen
      invariant seen <= processes.Keys
      invariant pid == start || start in seen
      invariant IsDescendant(processes, pid, start)
      invariant forall p | p in seen :: processes[p].executable != "sccache"
      invariant forall p | p in seen :: processes[p].parent in seen + {pid}
      decreases processes.Keys - seen
    {
      seen := seen + {pid};
      if processes[pid].executable == "sccache" {
        return true;
      }
      ParentStep(processes, pid, start);
      pid := processes[pid].parent;
    }
    forall q | q in processes && processes[q].executable == "sccache"
      ensures !IsDescendant(processes, q, start)
    {
      var outside := processes.Keys - seen;
      assert q in outside && ChildClosed(processes, outside) && start !in outside;
    }
    return false;
  }

  /** Whatever hangs below a process hangs below its parent. */
  lemma ParentStep(t: Table, pid: int, below: int)
    requires pid in t && IsDescendant(t, pid, below)
    ensures IsDescendant(t, t[pid].parent, below)
  {
    forall s: set<int> | t[pid].parent in s && ChildClosed(t, s)
      ensures below in s
    {
      assert pid in s;
    }
  }
}
