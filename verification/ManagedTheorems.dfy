/** What holds over whole runs of the managed data directory: any number of processes, in any
    interleaving, with tools that fail and processes that die at any step. */
module ManagedTheorems {
  import opened Options
  import opened Names
  import opened NameOrder
  import opened Lifecycle
  import opened Managed
  import opened ManagedInvariant
  import opened ManagedProofs
  import opened ManagedSteps
  import opened ManagedIndexing
  import opened ManagedSafety

  function Run(w: World, labels: seq<Label>): Option<World>
    decreases |labels|
  {
    if labels == [] then Some(w)
    else match Apply(w, labels[0])
      case None => None
      case Some(next) => Run(next, labels[1..])
  }

  ghost predicate DisciplinedRun(home: Homes, w: World, labels: seq<Label>)
    decreases |labels|
  {
    labels != [] ==>
      && Disciplined(home, w, labels[0])
      && (Apply(w, labels[0]).Some? ==> DisciplinedRun(home, Apply(w, labels[0]).value, labels[1..]))
  }

  /** A state the system can get into from an empty data directory. */
  ghost predicate Reachable(home: Homes, w: World) {
    exists labels :: DisciplinedRun(home, EMPTY, labels) && Run(EMPTY, labels) == Some(w)
  }

  lemma {:induction false} RunInv(home: Homes, w: World, labels: seq<Label>)
    requires Inv(home, w) && DisciplinedRun(home, w, labels) && Run(w, labels).Some?
    ensures Inv(home, Run(w, labels).value)
    decreases |labels|
  {
    hide Inv, Disciplined, Apply;
    if labels != [] {
      StepInv(home, w, labels[0]);
      RunInv(home, Apply(w, labels[0]).value, labels[1..]);
    }
  }

  /** The invariant is inductive: it holds in every reachable state. */
  lemma ReachableInv(home: Homes, w: World)
    requires Reachable(home, w)
    ensures Inv(home, w)
  {
    var labels :| DisciplinedRun(home, EMPTY, labels) && Run(EMPTY, labels) == Some(w);
    assert Inv(home, EMPTY);
    hide Inv;
    RunInv(home, EMPTY, labels);
  }

  lemma RunOne(w: World, l: Label)
    ensures Run(w, [l]) == Apply(w, l)
  {
    hide Apply;
    assert [l][1..] == [];
  }

  lemma {:induction false} RunAppend(w: World, a: seq<Label>, b: seq<Label>)
    requires Run(w, a).Some?
    ensures Run(w, a + b) == Run(Run(w, a).value, b)
    decreases |a|
  {
    hide Apply;
    if a == [] {
      assert a + b == b;
    } else {
      assert (a + b)[1..] == a[1..] + b;
      RunAppend(Apply(w, a[0]).value, a[1..], b);
    }
  }

  /** The first step of a run, and its beginnings. */
  lemma PrefixRun(w: World, labels: seq<Label>, j: nat)
    requires labels != [] && j < |labels| && Apply(w, labels[0]).Some?
    ensures Run(w, labels[..j + 1]) == Run(Apply(w, labels[0]).value, labels[1..][..j])
  {
    hide Apply;
    assert labels[..j + 1][1..] == labels[1..][..j];
  }

  /** The process table of one process among others, before and after it moves on or ends. */
  lemma Alone(others: map<nat, Process>, p: nat, q: Process, r: Process)
    requires p !in others
    ensures others[p := q] - {p} == others
    ensures others[p := q][p := r] == others[p := r]
  {}

  // ---------------------------------------------------------------- what a state guarantees

  /** READY means built: in every reachable state, whatever else is going on in the same
      repositories, each member of a READY record has its worktree, its search ref, its branch in
      the shard and its graph at the recorded revision. */
  lemma ReadyMeansBuilt(home: Homes, w: World, id: string, m: Member)
    requires Reachable(home, w)
    requires id in w.records && w.records[id].state == Ready && m in w.records[id].members
    ensures (m.repository, id) in w.trees && w.trees[(m.repository, id)] == At(m.revision)
    ensures m.repository in w.clones && w.clones[m.repository].Whole?
    ensures m.branch in w.clones[m.repository].refs && w.clones[m.repository].refs[m.branch] == m.revision
    ensures m.repository in w.shards && m.branch in w.shards[m.repository] && w.shards[m.repository][m.branch] == m.revision
    ensures m.graphRef in w.graphs && w.graphs[m.graphRef] == At(m.revision)
    ensures VerifyIdentity(id, w.records[id].members)
  {
    ReachableInv(home, w);
    assert HasTree(w.trees, id, m) && HasRef(w.clones, m) && HasShard(w.shards, m) && HasGraph(w.graphs, m);
    assert WellFormed(home, id, w.records[id].members);
  }

  /** A managed server's snapshot is never disturbed: as long as it serves, exactly the contexts it
      read are READY, with the same members and revisions, and all of their artifacts stand. */
  lemma SnapshotSafe(home: Homes, w: World, p: nat, snapshot: map<string, Record>)
    requires Reachable(home, w)
    requires p in w.processes && w.processes[p] == Server(Serving(snapshot))
    ensures forall id :: id in snapshot <==> id in w.records && w.records[id].state == Ready
    ensures forall id :: id in snapshot ==> w.records[id] == snapshot[id]
    ensures forall id, m :: id in snapshot && m in snapshot[id].members ==> Built(w, id, m)
    ensures forall o :: o in w.processes && o != p ==> !HoldsManagement(w.processes[o]) && !HoldsServer(w.processes[o])
  {
    ReachableInv(home, w);
    assert LocalOk(home, w, w.processes[p]);
    hide Inv;
    forall id, m | id in snapshot && m in snapshot[id].members ensures Built(w, id, m) {
      ReadyMeansBuilt(home, w, id, m);
    }
    assert Inv(home, w);
  }

  /** No stranded context: every member of every record, in whatever state, names a repository that
      still has a record and a clone that has the pinned commit. */
  lemma NoStrandedContext(home: Homes, w: World, id: string, m: Member)
    requires Reachable(home, w)
    requires id in w.records && m in w.records[id].members
    ensures m.repository in w.repositories
    ensures m.repository in w.clones && w.clones[m.repository].Whole? && m.revision in w.clones[m.repository].commits
  {
    ReachableInv(home, w);
    assert Backed(w.repositories, w.clones, m);
  }

  /** No orphans: every artifact is named by a record, so an id without a record has no worktree and
      a repository without contexts has no shard. */
  lemma NoOrphans(home: Homes, w: World)
    requires Reachable(home, w)
    ensures forall k :: k in w.trees ==> k.1 in w.records
    ensures forall g :: g in w.graphs ==> NamesGraph(w.records, g)
    ensures forall r, b :: r in w.clones && w.clones[r].Whole? && b in w.clones[r].refs ==> NamesBranch(w.records, r, b)
    ensures forall r :: r in w.shards ==> exists b :: b in w.shards[r] && NamesBranch(w.records, r, b)
  {
    ReachableInv(home, w);
    forall r | r in w.shards ensures exists b :: b in w.shards[r] && NamesBranch(w.records, r, b) {
      var b :| b in w.shards[r];
      assert NamesBranch(w.records, r, b);
    }
  }

  /** Nobody is inside another's lock. */
  lemma MutualExclusion(home: Homes, w: World, p: nat, q: nat, r: string)
    requires Reachable(home, w)
    requires p in w.processes && q in w.processes && r in Holds(w.processes[p]) && r in Holds(w.processes[q])
    ensures p == q
  {
    ReachableInv(home, w);
  }
}
