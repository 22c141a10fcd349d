/** Rebuilding one repository's index keeps every other context's refs and shard branches, whatever
    the operation doing it is building or taking apart. */
module ManagedIndexing {
  import opened Options
  import opened Lifecycle
  import opened Managed
  import opened ManagedInvariant
  import opened ManagedProofs
  import opened ManagedSteps
  import opened Rebuild

  /** One branch of a repository is wanted at one revision: that of the only member it names. */
  lemma WantedFunctional(home: Homes, records: map<string, Record>, r: string, e: (string, string), f: (string, string))
    requires AllWellFormed(home, records) && NamesApart(records)
    requires e in Wanted(records, r) && f in Wanted(records, r) && e.0 == f.0
    ensures e == f
  {
    var c, m :| c in records && m in records[c].members && m.repository == r && e == (m.branch, m.revision);
    var d, n :| d in records && n in records[d].members && n.repository == r && f == (n.branch, n.revision);
    assert c != d ==> Apart(m, n);
    if c == d {
      OneMemberEach(home, c, records[c].members, m, n);
    }
  }

  lemma OneMemberEach(home: Homes, id: string, members: seq<Member>, m: Member, n: Member)
    requires WellFormed(home, id, members) && m in members && n in members && m.repository == n.repository
    ensures m == n
  {
    var i :| 0 <= i < |members| && members[i] == m;
    var j :| 0 <= j < |members| && members[j] == n;
  }

  lemma Wants(records: map<string, Record>, id: string, m: Member)
    requires id in records && records[id].state != Removing && m in records[id].members && m.branch != ""
    ensures (m.branch, m.revision) in Wanted(records, m.repository)
  {}

  /** What is wanted never names a member of a record that is being removed. */
  lemma WantsNot(home: Homes, records: map<string, Record>, id: string, m: Member, e: (string, string))
    requires AllWellFormed(home, records) && NamesApart(records)
    requires id in records && records[id].state == Removing && m in records[id].members
    requires e in Wanted(records, m.repository)
    ensures e.0 != m.branch
  {
    var d, n :| d in records && records[d].state != Removing && n in records[d].members &&
                n.repository == m.repository && e == (n.branch, n.revision);
    assert Apart(n, m);
  }

  lemma PutKeepsRef(home: Homes, records: map<string, Record>, clones: map<string, Clone>, r: string,
                    e: (string, string), id: string, m: Member)
    requires AllWellFormed(home, records) && NamesApart(records)
    requires r in clones && clones[r].Whole? && e in Wanted(records, r)
    requires id in records && records[id].state != Removing && m in records[id].members
    requires HasRef(clones, m)
    ensures HasRef(WithRef(clones, r, e), m)
  {
    if m.repository == r && m.branch == e.0 {
      assert WellFormed(home, id, records[id].members);
      Wants(records, id, m);
      WantedFunctional(home, records, r, e, (m.branch, m.revision));
    }
  }

  lemma NamedByWanted(records: map<string, Record>, r: string, e: (string, string))
    requires e in Wanted(records, r)
    ensures NamesBranch(records, r, e.0)
  {
    var d, n :| d in records && n in records[d].members && n.repository == r && e == (n.branch, n.revision);
  }

  /** The tables after one ref has been written. */
  lemma PutTables(home: Homes, w: World, w': World, q: Process, r: string, e: (string, string))
    requires GlobalOk(home, w) && q.ContextRun? && r in Holds(q)
    requires r in w.clones && w.clones[r].Whole? && e in Wanted(w.records, r)
    requires w' == w.(clones := WithRef(w.clones, r, e), processes := w'.processes)
    ensures GlobalOk(home, w') && Frame(home, w, w', Holds(q), q.id)
  {
    forall id, m | id in w.records && m in w.records[id].members && m.repository == r
      ensures HasCommit(w'.clones, m) && (w.records[id].state == Ready ==> HasRef(w'.clones, m))
    {
      assert Backed(w.repositories, w.clones, m);
      if w.records[id].state == Ready {
        assert HasRef(w.clones, m);
        PutKeepsRef(home, w.records, w.clones, r, e, id, m);
      }
    }
    NamedByWanted(w.records, r, e);
    CloneChange(home, w, w', r);
  }

  /** A shard that carries exactly what the records want. */
  ghost predicate Carries(home: Homes, records: map<string, Record>, shards: map<string, map<string, string>>, r: string) {
    && (r in shards ==> shards[r] != map[])
    && (forall e :: e in Wanted(records, r) ==> r in shards && e.0 in shards[r] && shards[r][e.0] == e.1)
    && (r in shards ==> forall b :: b in shards[r] ==> (b, shards[r][b]) in Wanted(records, r))
  }

  /** The tables after the shard has been replaced by one that carries what the records want. */
  lemma ShardTables(home: Homes, w: World, w': World, q: Process, r: string)
    requires GlobalOk(home, w) && q.ContextRun? && r in Holds(q)
    requires w' == w.(shards := w'.shards, processes := w'.processes)
    requires forall s :: s != r ==> Same(w.shards, w'.shards, s)
    requires Carries(home, w.records, w'.shards, r)
    ensures GlobalOk(home, w') && Frame(home, w, w', Holds(q), q.id)
  {
    hide GlobalOk;
    CarriedShard(home, w, w'.shards, r);
    ShardChange(home, w, w', r);
  }

  lemma CarriedShard(home: Homes, w: World, shards: map<string, map<string, string>>, r: string)
    requires GlobalOk(home, w) && Carries(home, w.records, shards, r)
    ensures forall id, m :: id in w.records && m in w.records[id].members && m.repository == r && w.records[id].state == Ready ==>
              HasShard(shards, m)
    ensures r in shards ==> shards[r] != map[] && forall b :: b in shards[r] ==> NamesBranch(w.records, r, b)
  {
    forall id, m | id in w.records && m in w.records[id].members && m.repository == r && w.records[id].state == Ready
      ensures HasShard(shards, m)
    {
      assert WellFormed(home, id, w.records[id].members);
      Wants(w.records, id, m);
    }
    if r in shards {
      forall b | b in shards[r] ensures NamesBranch(w.records, r, b) {
        NamedByWanted(w.records, r, (b, shards[r][b]));
      }
    }
  }

  /** What the indexer writes from the refs it was given. */
  function Indexed(shards: map<string, map<string, string>>, r: string, refs: set<string>, has: map<string, string>): map<string, map<string, string>>
    requires refs <= has.Keys
  {
    if refs == {} then shards - {r} else shards[r := map b | b in refs :: has[b]]
  }

  /** When no ref is left to write, what the indexer builds from them is what the records want. */
  lemma DoneCarries(home: Homes, w: World, q: Process, i: nat, refs: set<string>)
    requires AllWellFormed(home, w.records) && NamesApart(w.records)
    requires q.ContextRun? && i < |q.order| && IndexingOk(w, q, i, Putting({}, refs))
    ensures refs <= w.clones[q.order[i]].refs.Keys
    ensures Carries(home, w.records, Indexed(w.shards, q.order[i], refs, w.clones[q.order[i]].refs), q.order[i])
  {
    var r := q.order[i];
    var has := w.clones[r].refs;
    var shards := Indexed(w.shards, r, refs, has);
    forall e | e in Wanted(w.records, r)
      ensures r in shards && e.0 in shards[r] && shards[r][e.0] == e.1
    {
      assert e.0 in refs;
      WantedFunctional(home, w.records, r, e, (e.0, has[e.0]));
    }
    if refs != {} {
      var b :| b in refs;
      assert b in shards[r];
    }
  }

  // ---------------------------------------------------------------- what the operation itself knows

  /** A build knows as much after a ref has been written. */
  lemma PutBuildFacts(home: Homes, w: World, w': World, q: Process, i: nat, sub: Indexing, sub': Indexing, e: (string, string))
    requires AllWellFormed(home, w.records) && NamesApart(w.records)
    requires q.ContextRun? && q.pc == Index(i, sub) && !q.op.Remove? && i < |q.order| && BuildFacts(w, q)
    requires q.id in w.records && w.records[q.id] == q.rec && q.rec.state != Removing
    requires q.order[i] in w.clones && w.clones[q.order[i]].Whole? && e in Wanted(w.records, q.order[i])
    requires w' == w.(clones := WithRef(w.clones, q.order[i], e), processes := w'.processes)
    ensures BuildFacts(w', q.(pc := Index(i, sub')))
  {
    hide WellFormed, Wanted, HasTree, HasShard, HasGraph;
    forall m | m in q.rec.members && HasRef(w.clones, m) ensures HasRef(w'.clones, m) {
      PutKeepsRef(home, w.records, w.clones, q.order[i], e, q.id, m);
    }
  }

  /** A removal's own branch is not among those written. */
  lemma PutRemoveFacts(home: Homes, w: World, w': World, q: Process, i: nat, sub: Indexing, sub': Indexing, e: (string, string))
    requires AllWellFormed(home, w.records) && NamesApart(w.records)
    requires q.ContextRun? && q.pc == Index(i, sub) && q.op.Remove? && i < |q.order| && RemoveFacts(w, q)
    requires q.id in w.records && w.records[q.id] == q.rec && q.rec.state == Removing
    requires q.order[i] in w.clones && w.clones[q.order[i]].Whole? && e in Wanted(w.records, q.order[i])
    requires w' == w.(clones := WithRef(w.clones, q.order[i], e), processes := w'.processes)
    ensures RemoveFacts(w', q.(pc := Index(i, sub')))
  {
    hide WellFormed, Wanted, NoShard;
    forall m | m in q.rec.members && NoRef(w.clones, m) ensures NoRef(w'.clones, m) {
      if m.repository == q.order[i] { WantsNot(home, w.records, q.id, m, e); }
    }
    forall k | 0 <= k < Members(q) ensures NoRef(w'.clones, q.rec.members[k]) {
      assert NoRef(w.clones, q.rec.members[k]);
    }
  }

  lemma PutIndexing(home: Homes, w: World, w': World, q: Process, i: nat, todo: set<(string, string)>, refs: set<string>, e: (string, string))
    requires AllWellFormed(home, w.records) && NamesApart(w.records)
    requires q.ContextRun? && q.pc == Index(i, Putting(todo, refs)) && i < |q.order| && IndexingOk(w, q, i, Putting(todo, refs))
    requires e in todo
    requires w' == w.(clones := WithRef(w.clones, q.order[i], e), processes := w'.processes)
    ensures IndexingOk(w', q.(pc := Index(i, Putting(todo - {e}, refs + {e.0}))), i, Putting(todo - {e}, refs + {e.0}))
  {
    var r := q.order[i];
    forall b | b in refs + {e.0}
      ensures b in w'.clones[r].refs && (b, w'.clones[r].refs[b]) in Wanted(w.records, r)
    {
      if b == e.0 { assert w'.clones[r].refs[b] == e.1; }
    }
  }

  /** A member is searchable once the shard of its repository is written. */
  lemma Searchable(home: Homes, w: World, shards: map<string, map<string, string>>, q: Process, i: nat, refs: set<string>, m: Member)
    requires AllWellFormed(home, w.records) && NamesApart(w.records)
    requires q.ContextRun? && i < |q.order| && IndexingOk(w, q, i, Putting({}, refs))
    requires q.id in w.records && w.records[q.id] == q.rec && q.rec.state != Removing
    requires m in q.rec.members && m.repository == q.order[i]
    requires Carries(home, w.records, shards, q.order[i])
    ensures HasRef(w.clones, m) && HasShard(shards, m)
  {
    var r := q.order[i];
    assert WellFormed(home, q.id, q.rec.members);
    Wants(w.records, q.id, m);
    WantedFunctional(home, w.records, r, (m.branch, m.revision), (m.branch, w.clones[r].refs[m.branch]));
  }

  /** A build's own members in the repository are searchable once its shard is written. */
  lemma ShardBuildFacts(home: Homes, w: World, w': World, q: Process, i: nat, refs: set<string>)
    requires AllWellFormed(home, w.records) && NamesApart(w.records)
    requires q.ContextRun? && q.pc == Index(i, Putting({}, refs)) && !q.op.Remove? && i < |q.order| && BuildFacts(w, q)
    requires IndexingOk(w, q, i, Putting({}, refs))
    requires q.id in w.records && w.records[q.id] == q.rec && q.rec.state != Removing
    requires w' == w.(shards := w'.shards, processes := w'.processes)
    requires forall s :: s != q.order[i] ==> Same(w.shards, w'.shards, s)
    requires Carries(home, w.records, w'.shards, q.order[i])
    ensures BuildFacts(w', q.(pc := AfterIndex(q.op, q.order, i + 1)))
  {
    hide AllWellFormed, NamesApart, Carries, IndexingOk, HasTree, HasGraph, HasRef;
    forall j, m | 0 <= j <= i && m in q.rec.members && q.order[j] == m.repository
      ensures HasRef(w'.clones, m) && HasShard(w'.shards, m)
    {
      if m.repository == q.order[i] {
        Searchable(home, w, w'.shards, q, i, refs, m);
      } else {
        assert Same(w.shards, w'.shards, m.repository);
      }
    }
    var q' := q.(pc := AfterIndex(q.op, q.order, i + 1));
    assert TreesBuilt(q') == Members(q) && GraphsBuilt(q') == 0 && ShardsBuilt(q') == i + 1;
  }

  /** A removal's own branches are in no shard it has rewritten. */
  lemma ShardRemoveFacts(home: Homes, w: World, w': World, q: Process, i: nat, sub: Indexing)
    requires AllWellFormed(home, w.records) && NamesApart(w.records)
    requires q.ContextRun? && q.pc == Index(i, sub) && q.op.Remove? && i < |q.order| && RemoveFacts(w, q)
    requires q.id in w.records && w.records[q.id] == q.rec && q.rec.state == Removing
    requires w' == w.(shards := w'.shards, processes := w'.processes)
    requires forall s :: s != q.order[i] ==> Same(w.shards, w'.shards, s)
    requires Carries(home, w.records, w'.shards, q.order[i])
    ensures RemoveFacts(w', q.(pc := AfterIndex(q.op, q.order, i + 1)))
  {
    var r := q.order[i];
    forall j, m | 0 <= j <= i && m in q.rec.members && q.order[j] == m.repository
      ensures NoShard(w'.shards, m)
    {
      if m.repository == r {
        if r in w'.shards && m.branch in w'.shards[r] {
          WantsNot(home, w.records, q.id, m, (m.branch, w'.shards[r][m.branch]));
        }
      } else {
        assert Same(w.shards, w'.shards, m.repository);
      }
    }
    hide WellFormed, Wanted, NoShard, NoRef, Carries, Same;
    var q' := q.(pc := AfterIndex(q.op, q.order, i + 1));
    assert ShardsGone(q') == i + 1;
  }

  // ---------------------------------------------------------------- the step

  lemma IndexedClone(home: Homes, w: World, q: Process, i: nat)
    requires GlobalOk(home, w) && q.ContextRun? && WorkOk(home, w, q) && q.pc.Index? && i < |q.order|
    ensures q.order[i] in w.clones && w.clones[q.order[i]].Whole? && q.order[i] in home(q.id)
    ensures AllWellFormed(home, w.records) && NamesApart(w.records)
    ensures forall m :: m in q.rec.members && m.repository == q.order[i] ==> HasCommit(w.clones, m)
  {
    assert q.order[i] in home(q.id) && WellFormed(home, q.id, q.rec.members);
    var m :| m in q.rec.members && m.repository == q.order[i];
    assert Backed(w.repositories, w.clones, m);
    forall n | n in q.rec.members ensures HasCommit(w.clones, n) { assert Backed(w.repositories, w.clones, n); }
  }

  lemma ReadingOk(home: Homes, w: World, w': World, q: Process, i: nat)
    requires q.ContextRun? && WorkOk(home, w, q) && q.pc == Index(i, Reading) && i < |q.order|
    requires q.order[i] in w.clones && w.clones[q.order[i]].Whole?
    requires w' == w.(processes := w'.processes)
    ensures WorkOk(home, w', q.(pc := Index(i, Putting(Wanted(w.records, q.order[i]), {}))))
  {
    hide WellFormed, OrderOk, HasTree, HasShard, HasRef, HasGraph, NoRef, NoShard, Wanted;
    var q' := q.(pc := Index(i, Putting(Wanted(w.records, q.order[i]), {})));
    assert IndexingOk(w', q', i, q'.pc.sub);
    if q.op.Remove? { assert RemoveFacts(w', q'); } else { assert BuildFacts(w', q'); }
  }

  lemma PuttingOk(home: Homes, w: World, w': World, q: Process, i: nat, todo: set<(string, string)>, refs: set<string>, e: (string, string))
    requires AllWellFormed(home, w.records) && NamesApart(w.records)
    requires q.ContextRun? && WorkOk(home, w, q) && q.pc == Index(i, Putting(todo, refs)) && i < |q.order| && e in todo
    requires q.order[i] in w.clones && w.clones[q.order[i]].Whole?
    requires w' == w.(clones := WithRef(w.clones, q.order[i], e), processes := w'.processes)
    ensures WorkOk(home, w', q.(pc := Index(i, Putting(todo - {e}, refs + {e.0}))))
  {
    hide WellFormed, OrderOk, Wanted, WithRef, BuildFacts, RemoveFacts, AllWellFormed, NamesApart;
    var sub' := Putting(todo - {e}, refs + {e.0});
    PutIndexing(home, w, w', q, i, todo, refs, e);
    if q.op.Remove? {
      PutRemoveFacts(home, w, w', q, i, q.pc.sub, sub', e);
    } else {
      PutBuildFacts(home, w, w', q, i, q.pc.sub, sub', e);
    }
  }

  lemma ShardOk(home: Homes, w: World, w': World, q: Process, i: nat, refs: set<string>)
    requires AllWellFormed(home, w.records) && NamesApart(w.records)
    requires q.ContextRun? && WorkOk(home, w, q) && q.pc == Index(i, Putting({}, refs)) && i < |q.order|
    requires w' == w.(shards := w'.shards, processes := w'.processes)
    requires forall s :: s != q.order[i] ==> Same(w.shards, w'.shards, s)
    requires Carries(home, w.records, w'.shards, q.order[i])
    ensures WorkOk(home, w', q.(pc := AfterIndex(q.op, q.order, i + 1)))
  {
    hide WellFormed, OrderOk, Wanted, Carries, BuildFacts, RemoveFacts, AllWellFormed, NamesApart, Same;
    if q.op.Remove? {
      ShardRemoveFacts(home, w, w', q, i, q.pc.sub);
    } else {
      ShardBuildFacts(home, w, w', q, i, refs);
    }
    assert IndexingOk(w', q.(pc := Index(i, Reading)), i, Reading);
  }

  lemma IndexReadStep(home: Homes, w: World, p: nat, q: Process, i: nat, out: Outcome)
    requires Works(home, w, p, q) && q.pc == Index(i, Reading) && i < |q.order| && !out.Broken?
    requires DoIndex(w, p, q, i, Reading, out).Some?
    ensures Kept(home, w, DoIndex(w, p, q, i, Reading, out).value, p, q)
  {
    hide GlobalOk, Frame, Kept, BuildFacts, RemoveFacts, WellFormed, OrderOk, Wanted, Carries, AllWellFormed, NamesApart, OnlyMoves;
    AtWork(home, w, p, q);
    IndexedClone(home, w, q, i);
    var w' := DoIndex(w, p, q, i, Reading, out).value;
    OnlyProcesses(home, w, w', Holds(q), q.id);
    ReadingOk(home, w, w', q, i);
    GoesOn(home, w, w', p, q, Index(i, Putting(Wanted(w.records, q.order[i]), {})));
  }

  lemma IndexShardStep(home: Homes, w: World, p: nat, q: Process, i: nat, refs: set<string>, out: Outcome)
    requires Works(home, w, p, q) && q.pc == Index(i, Putting({}, refs)) && i < |q.order| && !out.Broken?
    requires DoIndex(w, p, q, i, Putting({}, refs), out).Some?
    ensures Kept(home, w, DoIndex(w, p, q, i, Putting({}, refs), out).value, p, q)
  {
    hide GlobalOk, Frame, Kept, BuildFacts, RemoveFacts, WellFormed, OrderOk, Wanted, Carries, AllWellFormed, NamesApart, OnlyMoves;
    AtWork(home, w, p, q);
    IndexedClone(home, w, q, i);
    var w' := DoIndex(w, p, q, i, Putting({}, refs), out).value;
    var r := q.order[i];
    DoneCarries(home, w, q, i, refs);
    assert w'.shards == Indexed(w.shards, r, refs, w.clones[r].refs);
    ShardTables(home, w, w', q, r);
    ShardOk(home, w, w', q, i, refs);
    GoesOn(home, w, w', p, q, AfterIndex(q.op, q.order, i + 1));
  }

  lemma IndexPutStep(home: Homes, w: World, p: nat, q: Process, i: nat, todo: set<(string, string)>, refs: set<string>, out: Outcome)
    requires Works(home, w, p, q) && q.pc == Index(i, Putting(todo, refs)) && i < |q.order| && todo != {} && !out.Broken?
    requires DoIndex(w, p, q, i, Putting(todo, refs), out).Some?
    ensures Kept(home, w, DoIndex(w, p, q, i, Putting(todo, refs), out).value, p, q)
  {
    hide GlobalOk, Frame, Kept, BuildFacts, RemoveFacts, WellFormed, OrderOk, Wanted, Carries, AllWellFormed, NamesApart, OnlyMoves;
    AtWork(home, w, p, q);
    IndexedClone(home, w, q, i);
    var w' := DoIndex(w, p, q, i, Putting(todo, refs), out).value;
    PutTables(home, w, w', q, q.order[i], out.item);
    PuttingOk(home, w, w', q, i, todo, refs, out.item);
    GoesOn(home, w, w', p, q, Index(i, Putting(todo - {out.item}, refs + {out.item.0})));
  }

  lemma IndexStopStep(home: Homes, w: World, p: nat, q: Process, i: nat, sub: Indexing, out: Outcome)
    requires Works(home, w, p, q) && q.pc == Index(i, sub) && i < |q.order| && out.Broken?
    requires DoIndex(w, p, q, i, sub, out).Some?
    ensures Kept(home, w, DoIndex(w, p, q, i, sub, out).value, p, q)
  {
    hide GlobalOk, Frame, Kept, BuildFacts, RemoveFacts, WellFormed, OrderOk, Wanted, Carries, AllWellFormed, NamesApart, OnlyMoves;
    var w' := DoIndex(w, p, q, i, sub, out).value;
    OnlyProcesses(home, w, w', Holds(q), q.id);
    StopKept(home, w, w', p, q);
  }

  lemma IndexStep(home: Homes, w: World, p: nat, q: Process, i: nat, sub: Indexing, out: Outcome)
    requires Works(home, w, p, q) && q.pc == Index(i, sub) && i < |q.order|
    requires DoIndex(w, p, q, i, sub, out).Some?
    ensures Kept(home, w, DoIndex(w, p, q, i, sub, out).value, p, q)
  {
    hide Works, Kept, DoIndex;
    if out.Broken? {
      IndexStopStep(home, w, p, q, i, sub, out);
    } else {
      match sub {
        case Reading => IndexReadStep(home, w, p, q, i, out);
        case Putting(todo, refs) =>
          if todo == {} {
            IndexShardStep(home, w, p, q, i, refs, out);
          } else {
            IndexPutStep(home, w, p, q, i, todo, refs, out);
          }
      }
    }
  }
}
