/** Every step keeps the invariant: what one step may touch, what each kind of change keeps, and
    then one lemma per program counter. */
module ManagedProofs {
  import opened Names
  import opened NameOrder
  import opened Lifecycle
  import opened Managed
  import opened ManagedInvariant

  // ---------------------------------------------------------------- footprints

  /** What a step of a process working on `id` with the locks `held` may change: repositories,
      clones, shards and worktrees under those locks, its own record when it holds every lock of
      it, and the graphs its own record names. */
  ghost predicate Frame(home: Homes, w: World, w': World, held: set<string>, id: string) {
    && (forall r :: r !in held ==> Same(w.repositories, w'.repositories, r))
    && (forall r :: r !in held ==> Same(w.clones, w'.clones, r))
    && (forall r :: r !in held ==> Same(w.shards, w'.shards, r))
    && (forall k: (string, string) :: k.0 !in held || k.1 != id ==> Same(w.trees, w'.trees, k))
    && (forall c :: c != id || !(home(id) <= held) ==> Same(w.records, w'.records, c))
    && (forall g :: !Same(w.graphs, w'.graphs, g) ==>
          home(id) <= held && id in w.records && exists m :: m in w.records[id].members && m.graphRef == g)
  }

  lemma WantedSame(home: Homes, w: World, w': World, held: set<string>, id: string, r: string)
    requires Frame(home, w, w', held, id)
    requires AllWellFormed(home, w.records) && AllWellFormed(home, w'.records)
    requires r !in held
    ensures Wanted(w.records, r) == Wanted(w'.records, r)
  {
    forall c, m | (c in w.records && m in w.records[c].members) || (c in w'.records && m in w'.records[c].members)
      ensures m.repository == r ==> Same(w.records, w'.records, c)
    {
      if c in w.records && m in w.records[c].members { MemberAtHome(home, c, w.records[c].members, m); }
      if c in w'.records && m in w'.records[c].members { MemberAtHome(home, c, w'.records[c].members, m); }
    }
    forall e | e in Wanted(w.records, r) ensures e in Wanted(w'.records, r) {
      var c, m :| c in w.records && w.records[c].state != Removing && m in w.records[c].members &&
                  m.repository == r && m.branch != "" && e == (m.branch, m.revision);
      assert Same(w.records, w'.records, c);
    }
    forall e | e in Wanted(w'.records, r) ensures e in Wanted(w.records, r) {
      var c, m :| c in w'.records && w'.records[c].state != Removing && m in w'.records[c].members &&
                  m.repository == r && m.branch != "" && e == (m.branch, m.revision);
      assert Same(w.records, w'.records, c);
    }
  }

  lemma MemberAtHome(home: Homes, id: string, members: seq<Member>, m: Member)
    requires WellFormed(home, id, members) && m in members
    ensures m.repository in home(id)
  {}

  /** Nothing one member depends on has changed. */
  ghost predicate SameFor(w: World, w': World, id: string, m: Member) {
    && Same(w.repositories, w'.repositories, m.repository)
    && Same(w.clones, w'.clones, m.repository)
    && Same(w.shards, w'.shards, m.repository)
    && Same(w.trees, w'.trees, (m.repository, id))
    && Same(w.graphs, w'.graphs, m.graphRef)
  }

  lemma BuildFactsSame(w: World, w': World, q: Process)
    requires q.ContextRun? && BuildFacts(w, q)
    requires forall m :: m in q.rec.members ==> SameFor(w, w', q.id, m)
    ensures BuildFacts(w', q)
  {
    forall k | 0 <= k < Members(q) ensures SameFor(w, w', q.id, q.rec.members[k]) {}
  }

  lemma RemoveFactsSame(w: World, w': World, q: Process)
    requires q.ContextRun? && RemoveFacts(w, q)
    requires forall m :: m in q.rec.members ==> SameFor(w, w', q.id, m)
    ensures RemoveFacts(w', q)
  {
    forall k | 0 <= k < Members(q) ensures SameFor(w, w', q.id, q.rec.members[k]) {}
  }

  /** Another process's members are out of reach of a step: their repositories are locked by
      someone else, and their graphs have other names. */
  lemma OutOfReach(home: Homes, w: World, w': World, held: set<string>, id: string, q: Process, m: Member)
    requires Frame(home, w, w', held, id) && NamesApart(w.records)
    requires q.ContextRun? && q.id in w.records && w.records[q.id] == q.rec && m in q.rec.members
    requires WellFormed(home, q.id, q.rec.members)
    requires home(q.id) !! held
    ensures SameFor(w, w', q.id, m)
  {
    MemberAtHome(home, q.id, q.rec.members, m);
    forall n | id != q.id && id in w.records && n in w.records[id].members
      ensures n.graphRef != m.graphRef
    {
      assert Apart(m, n);
    }
  }

  /** What a process knows about the world survives every step another process takes. */
  lemma WorkFrame(home: Homes, w: World, w': World, held: set<string>, id: string, q: Process)
    requires Frame(home, w, w', held, id) && GlobalOk(home, w) && GlobalOk(home, w')
    requires q.ContextRun? && WorkOk(home, w, q) && home(q.id) !! held
    ensures WorkOk(home, w', q)
  {
    var m0 := q.rec.members[0];
    MemberAtHome(home, q.id, q.rec.members, m0);
    assert m0.repository in home(q.id) && m0.repository !in held;
    assert q.id == id ==> !(home(id) <= held);
    assert Same(w.records, w'.records, q.id);
    if q.pc == Write(Creating) {
      forall m | m in q.rec.members ensures Backed(w'.repositories, w'.clones, m) {
        MemberAtHome(home, q.id, q.rec.members, m);
      }
    } else {
      forall m | m in q.rec.members ensures SameFor(w, w', q.id, m) {
        OutOfReach(home, w, w', held, id, q, m);
      }
      if q.op.Remove? { RemoveFactsSame(w, w', q); } else { BuildFactsSame(w, w', q); }
      if q.pc.Index? {
        assert q.order[q.pc.i] in home(q.id);
        WantedSame(home, w, w', held, id, q.order[q.pc.i]);
      }
    }
  }

  lemma LocalFrame(home: Homes, w: World, w': World, held: set<string>, id: string, q: Process)
    requires Frame(home, w, w', held, id) && GlobalOk(home, w) && GlobalOk(home, w')
    requires LocalOk(home, w, q) && q.ContextRun? && Holds(q) !! held
    ensures LocalOk(home, w', q)
  {
    if !q.pc.Locking? && !q.pc.Check? {
      HoldsAll(q);
      assert forall r :: r in home(q.id) ==> r in Holds(q);
      WorkFrame(home, w, w', held, id, q);
    }
  }

  lemma HoldsAll(q: Process)
    requires q.ContextRun? && q.held == |q.want|
    ensures Holds(q) == set r | r in q.want
  {
    forall r | r in q.want ensures r in Holds(q) {
      var j :| 0 <= j < |q.want| && q.want[j] == r;
    }
  }

  // ---------------------------------------------------------------- what one change keeps

  /** A worktree of a context that is not READY may change in any way. */
  lemma TreeChange(home: Homes, records: map<string, Record>, trees: map<(string, string), Artifact>,
                   trees': map<(string, string), Artifact>, id: string, m: Member)
    requires ReadyTrees(records, trees) && OwnedTrees(home, records, trees)
    requires forall k: (string, string) :: k != (m.repository, id) ==> Same(trees, trees', k)
    requires id in records && records[id].state != Ready && m.repository in home(id)
    ensures ReadyTrees(records, trees') && OwnedTrees(home, records, trees')
  {
    forall k | k in trees' ensures k.1 in records && k.0 in home(k.1) {
      assert k != (m.repository, id) ==> Same(trees, trees', k);
    }
    forall c, n | c in records && records[c].state == Ready && n in records[c].members ensures HasTree(trees', c, n) {
      assert HasTree(trees, c, n) && Same(trees, trees', (n.repository, c));
    }
  }

  /** A graph of a context that is not READY may change in any way. */
  lemma GraphChange(records: map<string, Record>, graphs: map<string, Artifact>, graphs': map<string, Artifact>, id: string, m: Member)
    requires ReadyGraphs(records, graphs) && OwnedGraphs(records, graphs) && NamesApart(records)
    requires forall g :: g != m.graphRef ==> Same(graphs, graphs', g)
    requires id in records && records[id].state != Ready && m in records[id].members
    ensures ReadyGraphs(records, graphs') && OwnedGraphs(records, graphs')
  {
    forall c, n | c in records && records[c].state == Ready && n in records[c].members
      ensures HasGraph(graphs', n)
    {
      assert HasGraph(graphs, n) && Apart(m, n);
      assert Same(graphs, graphs', n.graphRef);
    }
    forall g | g in graphs' ensures NamesGraph(records, g) {
      assert g != m.graphRef ==> Same(graphs, graphs', g);
    }
  }

  /** A clone may be exchanged for one that still backs every member in it, keeps the refs of READY
      contexts and names no ref of its own. */
  lemma CloneChange(home: Homes, w: World, w': World, r: string)
    requires GlobalOk(home, w) && w' == w.(clones := w'.clones, processes := w'.processes)
    requires forall s :: s != r ==> Same(w.clones, w'.clones, s)
    requires forall id, m :: id in w.records && m in w.records[id].members && m.repository == r ==>
               HasCommit(w'.clones, m) && (w.records[id].state == Ready ==> HasRef(w'.clones, m))
    requires r in w'.clones && w'.clones[r].Whole? ==>
               forall b :: b in w'.clones[r].refs ==> NamesBranch(w.records, r, b)
    ensures GlobalOk(home, w')
  {
    ClonesBack(w.records, w.repositories, w.clones, w'.clones, r);
    ClonesRefs(w.records, w.clones, w'.clones, r);
  }

  lemma ClonesBack(records: map<string, Record>, repositories: map<string, RepositoryState>,
                   clones: map<string, Clone>, clones': map<string, Clone>, r: string)
    requires AllBacked(records, repositories, clones)
    requires forall s :: s != r ==> Same(clones, clones', s)
    requires forall id, m :: id in records && m in records[id].members && m.repository == r ==> HasCommit(clones', m)
    ensures AllBacked(records, repositories, clones')
  {
    forall c, n | c in records && n in records[c].members ensures Backed(repositories, clones', n) {
      assert Backed(repositories, clones, n);
      assert n.repository != r ==> Same(clones, clones', n.repository);
    }
  }

  lemma ClonesRefs(records: map<string, Record>, clones: map<string, Clone>, clones': map<string, Clone>, r: string)
    requires ReadyRefs(records, clones) && OwnedRefs(records, clones)
    requires forall s :: s != r ==> Same(clones, clones', s)
    requires forall id, m :: id in records && m in records[id].members && m.repository == r ==>
               records[id].state == Ready ==> HasRef(clones', m)
    requires r in clones' && clones'[r].Whole? ==> forall b :: b in clones'[r].refs ==> NamesBranch(records, r, b)
    ensures ReadyRefs(records, clones') && OwnedRefs(records, clones')
  {
    forall c, n | c in records && records[c].state == Ready && n in records[c].members ensures HasRef(clones', n) {
      assert HasRef(clones, n);
      assert n.repository != r ==> Same(clones, clones', n.repository);
    }
    forall s, b | s in clones' && clones'[s].Whole? && b in clones'[s].refs ensures NamesBranch(records, s, b) {
      assert s != r ==> Same(clones, clones', s);
    }
  }

  /** A shard may be replaced by one that carries every READY member and nothing without a name. */
  lemma ShardChange(home: Homes, w: World, w': World, r: string)
    requires GlobalOk(home, w) && w' == w.(shards := w'.shards, processes := w'.processes)
    requires forall s :: s != r ==> Same(w.shards, w'.shards, s)
    requires forall id, m :: id in w.records && m in w.records[id].members && m.repository == r && w.records[id].state == Ready ==>
               HasShard(w'.shards, m)
    requires r in w'.shards ==> w'.shards[r] != map[] && forall b :: b in w'.shards[r] ==> NamesBranch(w.records, r, b)
    ensures GlobalOk(home, w')
  {
    forall c, n | c in w.records && w.records[c].state == Ready && n in w.records[c].members
      ensures HasShard(w'.shards, n)
    {
      assert HasShard(w.shards, n);
      assert n.repository != r ==> Same(w.shards, w'.shards, n.repository);
    }
    forall s | s in w'.shards
      ensures w'.shards[s] != map[] && forall b :: b in w'.shards[s] ==> NamesBranch(w.records, s, b)
    {
      assert s != r ==> Same(w.shards, w'.shards, s);
    }
  }

  /** A repository record may be written, or dropped when no context names the repository. */
  lemma RepositoryChange(home: Homes, w: World, w': World, r: string)
    requires GlobalOk(home, w) && w' == w.(repositories := w'.repositories, processes := w'.processes)
    requires forall s :: s != r ==> Same(w.repositories, w'.repositories, s)
    requires r in w'.repositories || forall id :: id in w.records ==> r !in RepositoriesOf(w.records[id].members)
    ensures GlobalOk(home, w')
  {
    forall c, n | c in w.records && n in w.records[c].members
      ensures Backed(w'.repositories, w'.clones, n)
    {
      assert Backed(w.repositories, w.clones, n);
      var i :| 0 <= i < |w.records[c].members| && w.records[c].members[i] == n;
      assert RepositoriesOf(w.records[c].members)[i] == n.repository;
      assert n.repository != r ==> Same(w.repositories, w'.repositories, n.repository);
    }
  }

  /** A record may change its state; it may become READY only with everything built. */
  lemma StateChange(home: Homes, w: World, w': World, id: string, s: Stage)
    requires GlobalOk(home, w) && w' == w.(records := w'.records, processes := w'.processes)
    requires id in w.records && w'.records == w.records[id := w.records[id].(state := s)]
    requires s == Ready ==> forall m :: m in w.records[id].members ==> Built(w, id, m)
    ensures GlobalOk(home, w')
  {
    SameMembers(w.records, w'.records);
    assert AllWellFormed(home, w'.records);
    StateChangeApart(w.records, id, s);
  }

  lemma StateChangeApart(records: map<string, Record>, id: string, s: Stage)
    requires NamesApart(records) && id in records
    ensures NamesApart(records[id := records[id].(state := s)])
  {
    var after := records[id := records[id].(state := s)];
    forall c, d, m, n | c in after && d in after && c != d && m in after[c].members && n in after[d].members
      ensures Apart(m, n)
    {
      assert m in records[c].members && n in records[d].members;
    }
  }

  /** Whatever named a graph or a branch still does when no member list lost an entry. */
  lemma SameMembers(a: map<string, Record>, b: map<string, Record>)
    requires forall id :: id in a ==> id in b && a[id].members == b[id].members
    ensures forall g :: NamesGraph(a, g) ==> NamesGraph(b, g)
    ensures forall r, x :: NamesBranch(a, r, x) ==> NamesBranch(b, r, x)
  {
    forall g | NamesGraph(a, g) ensures NamesGraph(b, g) {
      var id, m :| id in a && m in a[id].members && m.graphRef == g;
      assert id in b && m in b[id].members;
    }
    forall r, x | NamesBranch(a, r, x) ensures NamesBranch(b, r, x) {
      var id, m :| id in a && m in a[id].members && m.repository == r && m.branch == x;
      assert id in b && m in b[id].members;
    }
  }

  /** A new record may be added when its members are backed and its names are nobody else's. */
  lemma RecordAdded(home: Homes, w: World, w': World, id: string, rec: Record)
    requires GlobalOk(home, w) && w' == w.(records := w'.records, processes := w'.processes)
    requires id !in w.records && w'.records == w.records[id := rec]
    requires WellFormed(home, id, rec.members) && rec.state != Ready
    requires forall m :: m in rec.members ==> Backed(w.repositories, w.clones, m)
    requires forall d, m, n :: d in w.records && d != id && m in rec.members && n in w.records[d].members ==> Apart(m, n)
    ensures GlobalOk(home, w')
  {
    SameMembers(w.records, w'.records);
    AddedApart(w.records, id, rec);
  }

  lemma AddedApart(records: map<string, Record>, id: string, rec: Record)
    requires NamesApart(records) && id !in records
    requires forall d, m, n :: d in records && d != id && m in rec.members && n in records[d].members ==> Apart(m, n)
    ensures NamesApart(records[id := rec])
  {
    var after := records[id := rec];
    forall c, d, m, n | c in after && d in after && c != d && m in after[c].members && n in after[d].members
      ensures Apart(m, n)
    {
      if c == id { assert Apart(m, n); } else if d == id { assert Apart(n, m); }
    }
  }

  /** A record may be deleted when nothing of it is left. */
  lemma RecordDropped(home: Homes, w: World, w': World, id: string)
    requires GlobalOk(home, w) && w' == w.(records := w'.records, processes := w'.processes)
    requires id in w.records && w'.records == w.records - {id}
    requires forall k: (string, string) :: k.1 == id ==> k !in w.trees
    requires forall m :: m in w.records[id].members ==> m.graphRef !in w.graphs && NoRef(w.clones, m) && NoShard(w.shards, m)
    ensures GlobalOk(home, w')
  {
    DroppedGraphs(w.records, w.graphs, id);
    DroppedBranches(w.records, w.clones, w.shards, id);
    DroppedRecord(home, w.records, w.repositories, w.clones, id);
  }

  lemma DroppedGraphs(records: map<string, Record>, graphs: map<string, Artifact>, id: string)
    requires OwnedGraphs(records, graphs) && id in records
    requires forall m :: m in records[id].members ==> m.graphRef !in graphs
    ensures OwnedGraphs(records - {id}, graphs)
  {
    forall g | g in graphs ensures NamesGraph(records - {id}, g) {
      assert NamesGraph(records, g);
      var c, m :| c in records && m in records[c].members && m.graphRef == g;
      assert c in records - {id};
    }
  }

  lemma DroppedBranches(records: map<string, Record>, clones: map<string, Clone>, shards: map<string, map<string, string>>, id: string)
    requires OwnedRefs(records, clones) && OwnedShards(records, shards) && id in records
    requires forall m :: m in records[id].members ==> NoRef(clones, m) && NoShard(shards, m)
    ensures OwnedRefs(records - {id}, clones) && OwnedShards(records - {id}, shards)
  {
    forall r, b | (r in clones && clones[r].Whole? && b in clones[r].refs) || (r in shards && b in shards[r])
      ensures NamesBranch(records - {id}, r, b)
    {
      assert NamesBranch(records, r, b);
      var c, m :| c in records && m in records[c].members && m.repository == r && m.branch == b;
      assert c == id ==> NoRef(clones, m) && NoShard(shards, m);
      assert c in records - {id};
    }
  }

  lemma DroppedRecord(home: Homes, records: map<string, Record>, repositories: map<string, RepositoryState>,
                      clones: map<string, Clone>, id: string)
    requires AllWellFormed(home, records) && NamesApart(records) && AllBacked(records, repositories, clones)
    ensures AllWellFormed(home, records - {id}) && NamesApart(records - {id}) && AllBacked(records - {id}, repositories, clones)
  {}
}
