/** What can change between two states: members and revisions never, states only along the machine,
    other contexts' artifacts not at all, and what a removal took away stays away. */
module ManagedHistory {
  import opened Options
  import opened Lifecycle
  import opened Managed
  import opened ManagedInvariant
  import opened ManagedProofs
  import opened ManagedSteps
  import opened ManagedIndexing
  import opened Rebuild
  import opened ManagedSafety
  import opened ManagedTheorems

  // ---------------------------------------------------------------- records

  /** A move of a record's state: along the machine, or a retry starting over. */
  predicate Moves(from: Stage, to: Stage) {
    from == to || Advances(from, to) || (to == Resolving && from != Ready && from != Removing)
  }

  /** One record after another state of it: the same members, and a state it may move to; REMOVING is
      kept, and READY is kept or left for REMOVING. */
  predicate Keeps(from: Record, to: Record) {
    && to.members == from.members
    && Moves(from.state, to.state)
    && (from.state == Removing ==> to.state == Removing)
    && (from.state == Ready ==> to.state == Ready || to.state == Removing)
  }

  /** The only ways a step changes the records. */
  lemma RecordsAfter(w: World, p: nat, q: Process, out: Outcome)
    requires q.ContextRun? && ActContext(w, p, q, out).Some?
    ensures var w' := ActContext(w, p, q, out).value;
            || w'.records == w.records
            || (q.pc.Delete? && w'.records == w.records - {q.id})
            || (q.pc.Write? && (Restarts(q.op, q.pc.next) || Advances(q.rec.state, q.pc.next)) &&
                w'.records == w.records[q.id := q.rec.(state := q.pc.next)])
  {
    if q.pc.Write? || q.pc.Delete? {
      hide DoWrite, Restarts, Advances;
    } else {
      RecordsLeft(w, p, q, out);
      hide ActContext;
    }
  }

  lemma RecordsLeft(w: World, p: nat, q: Process, out: Outcome)
    requires q.ContextRun? && !q.pc.Write? && !q.pc.Delete? && ActContext(w, p, q, out).Some?
    ensures ActContext(w, p, q, out).value.records == w.records
  {
    hide DoCheck, ActArtifact;
  }

  /** From the write that creates a record to its deletion, members and revisions never change, the
      state moves only along the machine or by a retry's restart, and REMOVING is left only by
      deletion. A record is deleted only out of REMOVING. */
  lemma StepImmutable(home: Homes, w: World, l: Label, id: string)
    requires Inv(home, w) && Apply(w, l).Some? && id in w.records
    ensures var w' := Apply(w, l).value;
            && (id in w'.records ==> Keeps(w.records[id], w'.records[id]))
            && (id !in w'.records ==> w.records[id].state == Removing)
  {
    if l.Act? && w.processes[l.p].ContextRun? {
      var q := w.processes[l.p];
      assert LocalOk(home, w, q);
      hide Inv, ActContext;
      RecordsAfter(w, l.p, q, l.out);
    } else {
      hide Inv, Moves;
      OtherRecords(w, l);
    }
  }

  lemma OtherRecords(w: World, l: Label)
    requires Apply(w, l).Some? && !(l.Act? && w.processes[l.p].ContextRun?)
    ensures Apply(w, l).value.records == w.records
  {
    hide ActRepository, ActServer, Start, TakeLock;
  }

  /** The record is there in every state of the run. */
  ghost predicate Throughout(w: World, labels: seq<Label>, id: string)
    decreases |labels|
  {
    && id in w.records
    && (labels != [] && Apply(w, labels[0]).Some? ==> Throughout(Apply(w, labels[0]).value, labels[1..], id))
  }

  /** Over a run of any length in which it is not deleted, from each state to the next a record keeps its
      members and its state moves as it may; so the members are at every point those it began with. */
  lemma {:induction false} RunImmutable(home: Homes, w: World, labels: seq<Label>, id: string, k: nat)
    requires Inv(home, w) && DisciplinedRun(home, w, labels) && Run(w, labels).Some? && Throughout(w, labels, id)
    requires k < |labels|
    ensures Run(w, labels[..k]).Some? && Run(w, labels[..k + 1]).Some?
    ensures var before, after := Run(w, labels[..k]).value, Run(w, labels[..k + 1]).value;
            && id in before.records && id in after.records && Keeps(before.records[id], after.records[id])
            && before.records[id].members == w.records[id].members
    decreases k
  {
    hide Inv, Disciplined, Apply, Moves;
    var next := Apply(w, labels[0]).value;
    StepInv(home, w, labels[0]);
    StepImmutable(home, w, labels[0], id);
    PrefixRun(w, labels, k);
    if k > 0 {
      PrefixRun(w, labels, k - 1);
      RunImmutable(home, next, labels[1..], id, k - 1);
    }
  }

  /** Only the last step of a removal deletes a record. */
  lemma StepDeletes(home: Homes, w: World, l: Label, id: string)
    requires Inv(home, w) && Apply(w, l).Some? && id in w.records && id !in Apply(w, l).value.records
    ensures Deletes(w, l, id) && w.records[id].state == Removing
  {
    StepImmutable(home, w, l, id);
    if l.Act? && w.processes[l.p].ContextRun? {
      var q := w.processes[l.p];
      assert LocalOk(home, w, q);
      hide Inv, ActContext;
      RecordsAfter(w, l.p, q, l.out);
    } else {
      hide Inv;
      OtherRecords(w, l);
    }
  }

  predicate Deletes(w: World, l: Label, id: string) {
    l.Act? && l.p in w.processes && w.processes[l.p].ContextRun? &&
    var q := w.processes[l.p];
    q.op.Remove? && q.id == id && q.pc.Delete?
  }

  /** A record that is gone at the end of a run was there, unchanged in its members, up to a state in
      which it was REMOVING and a removal of it took its last step. */
  lemma {:induction false} RunDeletes(home: Homes, w: World, labels: seq<Label>, id: string) returns (k: nat)
    requires Inv(home, w) && DisciplinedRun(home, w, labels) && Run(w, labels).Some?
    requires id in w.records && id !in Run(w, labels).value.records
    ensures k < |labels| && Run(w, labels[..k]).Some? && Throughout(w, labels[..k], id)
    ensures var before := Run(w, labels[..k]).value;
            && id in before.records && before.records[id] == Record(w.records[id].members, Removing)
            && Deletes(before, labels[k], id)
    decreases |labels|
  {
    hide Inv, Disciplined, Apply, Moves, Deletes;
    var next := Apply(w, labels[0]).value;
    StepInv(home, w, labels[0]);
    if id in next.records {
      StepImmutable(home, w, labels[0], id);
      var j := RunDeletes(home, next, labels[1..], id);
      k := j + 1;
      PrefixRun(w, labels, j);
      assert labels[..k][1..] == labels[1..][..j];
    } else {
      StepDeletes(home, w, labels[0], id);
      k := 0;
      assert labels[..0] == [];
    }
  }

  // ---------------------------------------------------------------- other contexts' artifacts

  /** Nothing of this member is disturbed: its worktree and graph are as they were, what is
      searchable stays searchable, and what a removal has taken away stays away. */
  ghost predicate Undisturbed(w: World, w': World, id: string, m: Member, state: Stage) {
    && Same(w.trees, w'.trees, (m.repository, id))
    && Same(w.graphs, w'.graphs, m.graphRef)
    && Searching(w, w', m, state)
  }

  /** What is searchable stays searchable; of a context being removed, what is gone stays gone. */
  ghost predicate Searching(w: World, w': World, m: Member, state: Stage) {
    && (state != Removing && HasRef(w.clones, m) ==> HasRef(w'.clones, m))
    && (state != Removing && HasShard(w.shards, m) ==> HasShard(w'.shards, m))
    && (state == Removing && NoRef(w.clones, m) ==> NoRef(w'.clones, m))
    && (state == Removing && NoShard(w.shards, m) ==> NoShard(w'.shards, m))
  }

  /** Only an index rebuild and a dropped ref change a clone, and only a rebuild changes a shard. */
  lemma ClonesAfter(w: World, p: nat, q: Process, out: Outcome)
    requires q.ContextRun? && !q.pc.Index? && ActContext(w, p, q, out).Some?
    ensures !q.pc.DropRef? ==> ActContext(w, p, q, out).value.clones == w.clones
    ensures ActContext(w, p, q, out).value.shards == w.shards
  {
    if q.pc.Check? || q.pc.Write? || q.pc.Delete? {
      RecordStepTables(w, p, q, out);
    }
    hide DoCheck, DoWrite, ActArtifact, Goto, Exit;
  }

  lemma RecordStepTables(w: World, p: nat, q: Process, out: Outcome)
    requires q.ContextRun? && (q.pc.Check? || q.pc.Write? || q.pc.Delete?) && ActContext(w, p, q, out).Some?
    ensures ActContext(w, p, q, out).value.clones == w.clones && ActContext(w, p, q, out).value.shards == w.shards
  {
    hide DoCheck, DoWrite, ActArtifact, Restarts, Advances;
  }

  /** What one step of a rebuild makes of the clones and the shards. */
  lemma IndexTables(w: World, p: nat, q: Process, i: nat, sub: Indexing, out: Outcome)
    requires q.ContextRun? && i < |q.order| && DoIndex(w, p, q, i, sub, out).Some?
    requires q.order[i] in w.clones && w.clones[q.order[i]].Whole?
    ensures var w', r := DoIndex(w, p, q, i, sub, out).value, q.order[i];
            && (out.Broken? || sub.Reading? ==> w'.clones == w.clones && w'.shards == w.shards)
            && (!out.Broken? && sub.Putting? && sub.todo == {} && sub.refs <= w.clones[r].refs.Keys ==>
                  w'.clones == w.clones && w'.shards == Indexed(w.shards, r, sub.refs, w.clones[r].refs))
            && (!out.Broken? && sub.Putting? && sub.todo != {} ==>
                  out.Picked? && out.item in sub.todo && w'.clones == WithRef(w.clones, r, out.item) && w'.shards == w.shards)
  {
    hide Wanted, AfterIndex;
  }

  lemma SearchingElsewhere(w: World, w': World, r: string, refs: set<string>, e: (string, string), m: Member, state: Stage)
    requires r in w.clones && w.clones[r].Whole? && m.repository != r
    requires || (w'.clones == w.clones && refs <= w.clones[r].refs.Keys && w'.shards == Indexed(w.shards, r, refs, w.clones[r].refs))
             || (w'.clones == WithRef(w.clones, r, e) && w'.shards == w.shards)
    ensures Searching(w, w', m, state)
  {}

  lemma IndexUndisturbed(home: Homes, w: World, p: nat, q: Process, i: nat, sub: Indexing, out: Outcome, id: string, m: Member)
    requires Works(home, w, p, q) && q.pc == Index(i, sub) && i < |q.order| && DoIndex(w, p, q, i, sub, out).Some?
    requires id in w.records && m in w.records[id].members
    ensures Searching(w, DoIndex(w, p, q, i, sub, out).value, m, w.records[id].state)
  {
    hide GlobalOk, Frame, BuildFacts, RemoveFacts, WellFormed, OrderOk, Wanted, Carries, AllWellFormed, NamesApart,
      Searching, IndexingOk, DoIndex, Indexed, WithRef;
    AtWork(home, w, p, q);
    IndexedClone(home, w, q, i);
    IndexTables(w, p, q, i, sub, out);
    var w' := DoIndex(w, p, q, i, sub, out).value;
    var r := q.order[i];
    var state := w.records[id].state;
    if out.Broken? || sub.Reading? {
      SearchingSame(w, w', m, state);
    } else if sub.todo == {} {
      DoneCarries(home, w, q, i, sub.refs);
      if m.repository != r {
        SearchingElsewhere(w, w', r, sub.refs, ("", ""), m, state);
        return;
      }
      CarriedMember(home, w, w'.shards, r, id, m);
      SearchingShard(w, w', m, state);
    } else if m.repository != r {
      SearchingElsewhere(w, w', r, {}, out.item, m, state);
    } else {
      TodoWanted(w, q, i, sub, out.item);
      PutUndisturbed(home, w, r, out.item, id, m);
      SearchingPut(w, w', r, out.item, m, state);
    }
  }

  lemma TodoWanted(w: World, q: Process, i: nat, sub: Indexing, e: (string, string))
    requires q.ContextRun? && i < |q.order| && IndexingOk(w, q, i, sub) && sub.Putting? && e in sub.todo
    ensures e in Wanted(w.records, q.order[i])
  {}

  lemma SearchingSame(w: World, w': World, m: Member, state: Stage)
    requires Same(w.clones, w'.clones, m.repository) && Same(w.shards, w'.shards, m.repository)
    ensures Searching(w, w', m, state)
  {}

  lemma SearchingShard(w: World, w': World, m: Member, state: Stage)
    requires w'.clones == w.clones
    requires if state == Removing then NoShard(w'.shards, m) else HasShard(w'.shards, m)
    ensures Searching(w, w', m, state)
  {}

  lemma SearchingPut(w: World, w': World, r: string, e: (string, string), m: Member, state: Stage)
    requires r in w.clones && w.clones[r].Whole? && w'.clones == WithRef(w.clones, r, e) && w'.shards == w.shards
    requires if state == Removing then NoRef(w.clones, m) ==> NoRef(WithRef(w.clones, r, e), m)
             else HasRef(w.clones, m) ==> HasRef(WithRef(w.clones, r, e), m)
    ensures Searching(w, w', m, state)
  {}

  lemma PutUndisturbed(home: Homes, w: World, r: string, e: (string, string), id: string, m: Member)
    requires GlobalOk(home, w) && r in w.clones && w.clones[r].Whole? && e in Wanted(w.records, r)
    requires id in w.records && m in w.records[id].members && m.repository == r
    ensures if w.records[id].state == Removing then NoRef(w.clones, m) ==> NoRef(WithRef(w.clones, r, e), m)
            else HasRef(w.clones, m) ==> HasRef(WithRef(w.clones, r, e), m)
  {
    if w.records[id].state == Removing {
      WantsNot(home, w.records, id, m, e);
    } else if HasRef(w.clones, m) {
      PutKeepsRef(home, w.records, w.clones, r, e, id, m);
    }
  }

  lemma CarriedMember(home: Homes, w: World, shards: map<string, map<string, string>>, r: string, id: string, m: Member)
    requires GlobalOk(home, w) && Carries(home, w.records, shards, r)
    requires id in w.records && m in w.records[id].members && m.repository == r
    ensures if w.records[id].state == Removing then NoShard(shards, m) else HasShard(shards, m)
  {
    assert WellFormed(home, id, w.records[id].members);
    if w.records[id].state == Removing {
      if r in shards && m.branch in shards[r] {
        WantsNot(home, w.records, id, m, (m.branch, shards[r][m.branch]));
      }
    } else {
      Wants(w.records, id, m);
    }
  }

  lemma ContextUndisturbed(home: Homes, w: World, p: nat, q: Process, out: Outcome, id: string, m: Member)
    requires GlobalOk(home, w) && p in w.processes && w.processes[p] == q && q.ContextRun? && LocalOk(home, w, q)
    requires ActContext(w, p, q, out).Some? && (q.pc == Write(Creating) ==> FreshNames(w, q))
    requires id in w.records && m in w.records[id].members && id != q.id
    ensures Undisturbed(w, ActContext(w, p, q, out).value, id, m, w.records[id].state)
  {
    var w' := ActContext(w, p, q, out).value;
    ContextStep(home, w, p, q, out);
    assert Frame(home, w, w', Holds(q), q.id);
    if !q.pc.Index? { ClonesAfter(w, p, q, out); }
    GraphSpared(home, w, w', Holds(q), q.id, id, m);
    hide GlobalOk, Frame, LocalOk, DoWrite, DoPrepare, DoIndex, DoGraph, DoVerify, DoDropGraph, DoDropTree, DoDropRef;
    if q.pc.Index? {
      assert Works(home, w, p, q);
      IndexUndisturbed(home, w, p, q, q.pc.i, q.pc.sub, out, id, m);
    } else if q.pc.DropRef? {
      DroppedUndisturbed(home, w, p, q, q.pc.i, out, id, m);
    }
  }

  lemma GraphSpared(home: Homes, w: World, w': World, held: set<string>, c: string, id: string, m: Member)
    requires GlobalOk(home, w) && Frame(home, w, w', held, c)
    requires id in w.records && m in w.records[id].members && id != c
    ensures Same(w.graphs, w'.graphs, m.graphRef) && Same(w.trees, w'.trees, (m.repository, id))
  {
    forall n | c in w.records && n in w.records[c].members ensures n.graphRef != m.graphRef {
      assert Apart(m, n);
    }
  }

  lemma DroppedUndisturbed(home: Homes, w: World, p: nat, q: Process, i: nat, out: Outcome, id: string, m: Member)
    requires GlobalOk(home, w) && q.ContextRun? && LocalOk(home, w, q) && q.pc == DropRef(i) && i < |q.rec.members|
    requires DoDropRef(w, p, q, i, out).Some?
    requires id in w.records && m in w.records[id].members && id != q.id
    ensures HasRef(w.clones, m) ==> HasRef(DoDropRef(w, p, q, i, out).value.clones, m)
    ensures NoRef(w.clones, m) ==> NoRef(DoDropRef(w, p, q, i, out).value.clones, m)
  {
    hide GlobalOk, LocalOk, AfterDrop;
    OwnMember(home, w, q, i, id, m);
  }

  lemma OwnMember(home: Homes, w: World, q: Process, i: nat, id: string, m: Member)
    requires GlobalOk(home, w) && q.ContextRun? && LocalOk(home, w, q) && q.pc == DropRef(i) && i < |q.rec.members|
    requires id in w.records && m in w.records[id].members && id != q.id
    ensures Apart(q.rec.members[i], m)
  {
    assert q.rec.members[i] in w.records[q.id].members;
  }

  lemma OutOfRepository(home: Homes, w: World, q: Process, id: string, m: Member)
    requires GlobalOk(home, w) && q.RepositoryRun? && LocalOk(home, w, q)
    requires id in w.records && m in w.records[id].members
    ensures q.rpc.Clone_? && q.rop != Sync ==> m.repository != q.name
  {
    var i :| 0 <= i < |w.records[id].members| && w.records[id].members[i] == m;
    assert RepositoriesOf(w.records[id].members)[i] == m.repository;
    assert Backed(w.repositories, w.clones, m);
  }

  /** A repository operation touches its own clone only, and a sync keeps the refs in it. */
  ghost predicate RefsKept(before: map<string, Clone>, after: map<string, Clone>, r: string) {
    || Same(before, after, r)
    || (r in before && r in after && before[r].Whole? && after[r].Whole? && after[r].refs == before[r].refs)
  }

  lemma ToolRefs(w: World, p: nat, q: Process, out: Outcome, r: string)
    requires q.RepositoryRun?
    ensures ActFetch(w, p, q, out).Some? ==> RefsKept(w.clones, ActFetch(w, p, q, out).value.clones, r)
    ensures r != q.name && ActClone(w, p, q, out).Some? ==> RefsKept(w.clones, ActClone(w, p, q, out).value.clones, r)
  {}

  lemma OtherRefs(w: World, name: string, r: string)
    ensures RefsKept(w.clones, w.clones, r)
    ensures r != name ==> RefsKept(w.clones, w.clones - {name}, r)
    ensures r != name && name in w.clones ==> RefsKept(w.clones, w.clones[name := Damaged], r)
  {}

  lemma RefsAfterRepository(w: World, p: nat, q: Process, out: Outcome, r: string)
    requires q.RepositoryRun? && ActRepository(w, p, q, out).Some?
    requires q.rpc.Clone_? && q.rop != Sync ==> r != q.name
    ensures RefsKept(w.clones, ActRepository(w, p, q, out).value.clones, r)
  {
    hide ContextsOf, ActFetch, ActClone, RefsKept, OnlyMoves;
    ToolRefs(w, p, q, out, r);
    OtherRefs(w, q.name, r);
  }

  lemma RepositoryUndisturbed(home: Homes, w: World, p: nat, q: Process, out: Outcome, id: string, m: Member)
    requires GlobalOk(home, w) && p in w.processes && w.processes[p] == q && q.RepositoryRun? && LocalOk(home, w, q)
    requires ActRepository(w, p, q, out).Some?
    requires id in w.records && m in w.records[id].members
    ensures Undisturbed(w, ActRepository(w, p, q, out).value, id, m, w.records[id].state)
  {
    hide GlobalOk, LocalOk, ActRepository;
    OutOfRepository(home, w, q, id, m);
    RefsAfterRepository(w, p, q, out, m.repository);
  }

  /** Whatever one process does, every context it is not itself working on is undisturbed. */
  lemma OthersUndisturbed(home: Homes, w: World, l: Label, id: string, m: Member)
    requires Inv(home, w) && Disciplined(home, w, l) && Apply(w, l).Some?
    requires id in w.records && m in w.records[id].members
    requires !(l.Act? && w.processes[l.p].ContextRun? && w.processes[l.p].id == id)
    ensures Undisturbed(w, Apply(w, l).value, id, m, w.records[id].state)
  {
    if l.Act? && w.processes[l.p].ContextRun? {
      hide Undisturbed, GlobalOk, LocalOk, ActContext, FreshNames;
      ContextUndisturbed(home, w, l.p, w.processes[l.p], l.out, id, m);
    } else if l.Act? && w.processes[l.p].RepositoryRun? {
      hide Undisturbed, GlobalOk, LocalOk, ActRepository;
      RepositoryUndisturbed(home, w, l.p, w.processes[l.p], l.out, id, m);
    } else {
      hide Inv, Disciplined, ActContext, ActRepository, ActServer, Start, TakeLock;
    }
  }

  // ---------------------------------------------------------------- removal

  /** What of this member is gone stays gone. */
  ghost predicate StaysGone(w: World, w': World, id: string, m: Member) {
    && ((m.repository, id) !in w.trees ==> (m.repository, id) !in w'.trees)
    && (m.graphRef !in w.graphs ==> m.graphRef !in w'.graphs)
    && (NoRef(w.clones, m) ==> NoRef(w'.clones, m))
    && (NoShard(w.shards, m) ==> NoShard(w'.shards, m))
  }

  lemma DropsGone(w: World, p: nat, q: Process, i: nat, out: Outcome, m: Member)
    requires q.ContextRun? && i < |q.rec.members| && (q.pc == DropGraph(i) || q.pc == DropTree(i) || q.pc == DropRef(i))
    requires ActArtifact(w, p, q, out).Some?
    ensures StaysGone(w, ActArtifact(w, p, q, out).value, q.id, m)
  {
    hide StaysGone, DoDropGraph, DoDropTree, DoDropRef;
    match q.pc
    case DropGraph(_) => DropGraphGone(w, p, q, i, out, m);
    case DropTree(_) => DropTreeGone(w, p, q, i, out, m);
    case DropRef(_) => DropRefGone(w, p, q, i, out, m);
  }

  lemma DropGraphGone(w: World, p: nat, q: Process, i: nat, out: Outcome, m: Member)
    requires q.ContextRun? && i < |q.rec.members| && DoDropGraph(w, p, q, i, out).Some?
    ensures StaysGone(w, DoDropGraph(w, p, q, i, out).value, q.id, m)
  {
    hide OnlyMoves;
  }

  lemma DropTreeGone(w: World, p: nat, q: Process, i: nat, out: Outcome, m: Member)
    requires q.ContextRun? && i < |q.rec.members| && DoDropTree(w, p, q, i, out).Some?
    ensures StaysGone(w, DoDropTree(w, p, q, i, out).value, q.id, m)
  {
    hide OnlyMoves, AfterDrop;
  }

  lemma DropRefGone(w: World, p: nat, q: Process, i: nat, out: Outcome, m: Member)
    requires q.ContextRun? && i < |q.rec.members| && DoDropRef(w, p, q, i, out).Some?
    ensures StaysGone(w, DoDropRef(w, p, q, i, out).value, q.id, m)
  {
    hide OnlyMoves, AfterDrop;
  }

  lemma IndexGone(home: Homes, w: World, p: nat, q: Process, i: nat, sub: Indexing, out: Outcome, m: Member)
    requires q.ContextRun? && Works(home, w, p, q) && q.pc == Index(i, sub) && i < |q.order| && DoIndex(w, p, q, i, sub, out).Some?
    requires q.id in w.records && m in w.records[q.id].members && w.records[q.id].state == Removing
    ensures StaysGone(w, DoIndex(w, p, q, i, sub, out).value, q.id, m)
  {
    hide Works, DoIndex;
    IndexUndisturbed(home, w, p, q, i, sub, out, q.id, m);
  }

  /** The points a removal can be at. */
  lemma RemovingPc(home: Homes, w: World, p: nat, q: Process)
    requires Works(home, w, p, q) && q.pc != Write(Creating) && q.rec.state == Removing
    ensures q.id in w.records && w.records[q.id] == q.rec
    ensures q.pc.Write? || q.pc.Delete? || (q.pc.Index? && q.pc.i < |q.order|) ||
            ((q.pc.DropGraph? || q.pc.DropTree? || q.pc.DropRef?) && q.pc.i < |q.rec.members|)
  {
    hide GlobalOk;
  }

  /** A removal's own steps never put anything back, finished or not. */
  lemma OwnStepsGone(home: Homes, w: World, p: nat, q: Process, out: Outcome, m: Member)
    requires Works(home, w, p, q) && q.pc != Write(Creating) && q.rec.state == Removing
    requires ActContext(w, p, q, out).Some? && m in q.rec.members
    ensures StaysGone(w, ActContext(w, p, q, out).value, q.id, m)
  {
    hide GlobalOk, LocalOk, DoWrite, DoIndex;
    RemovingPc(home, w, p, q);
    if q.pc.Index? {
      IndexGone(home, w, p, q, q.pc.i, q.pc.sub, out, m);
    } else if !q.pc.Write? && !q.pc.Delete? {
      hide ActArtifact;
      DropsGone(w, p, q, q.pc.i, out, m);
    }
  }

  /** While a context is being removed, by whomever and with whatever interruptions, nothing anybody
      does brings back what a removal has already taken: in particular no create of the same
      repository puts the removed branch back into the clone or the shard. */
  lemma RemovalMonotone(home: Homes, w: World, l: Label, id: string, m: Member)
    requires Inv(home, w) && Disciplined(home, w, l) && Apply(w, l).Some?
    requires id in w.records && m in w.records[id].members && w.records[id].state == Removing
    ensures StaysGone(w, Apply(w, l).value, id, m)
  {
    if l.Act? && w.processes[l.p].ContextRun? && w.processes[l.p].id == id {
      hide Disciplined, Apply, ActContext, StaysGone, Inv;
      OwnStepMonotone(home, w, l.p, l.out, m);
      ActOfContext(w, l.p, l.out);
    } else {
      hide Inv, Disciplined, Apply;
      OthersUndisturbed(home, w, l, id, m);
    }
  }

  lemma ActOfContext(w: World, p: nat, out: Outcome)
    requires p in w.processes && w.processes[p].ContextRun?
    ensures Apply(w, Act(p, out)) == ActContext(w, p, w.processes[p], out)
  {
    hide ActContext;
  }

  lemma OwnStepMonotone(home: Homes, w: World, p: nat, out: Outcome, m: Member)
    requires Inv(home, w) && p in w.processes && w.processes[p].ContextRun? && ActContext(w, p, w.processes[p], out).Some?
    requires var id := w.processes[p].id; id in w.records && m in w.records[id].members && w.records[id].state == Removing
    ensures StaysGone(w, ActContext(w, p, w.processes[p], out).value, w.processes[p].id, m)
  {
    var q := w.processes[p];
    assert LocalOk(home, w, q);
    if q.pc.Check? {
      hide Inv, LocalOk, DoCheck, OnlyMoves;
    } else {
      assert Works(home, w, p, q);
      assert q.pc != Write(Creating) && q.rec.state == Removing;
      hide Inv, LocalOk, ActContext, StaysGone, Works;
      OwnStepsGone(home, w, p, q, out, m);
    }
  }

  /** Over a run of any length in which the record is not yet deleted, crashes and reruns of the
      removal included, what was gone at the start is gone at the end. */
  lemma {:induction false} RunStaysGone(home: Homes, w: World, labels: seq<Label>, id: string, m: Member)
    requires Inv(home, w) && DisciplinedRun(home, w, labels) && Run(w, labels).Some? && Throughout(w, labels, id)
    requires m in w.records[id].members && w.records[id].state == Removing
    ensures StaysGone(w, Run(w, labels).value, id, m)
    decreases |labels|
  {
    hide Inv, Disciplined, Apply, Moves, NoRef, NoShard;
    if labels != [] {
      var next := Apply(w, labels[0]).value;
      StepInv(home, w, labels[0]);
      StepImmutable(home, w, labels[0], id);
      RemovalMonotone(home, w, labels[0], id, m);
      RunStaysGone(home, next, labels[1..], id, m);
    }
  }

  /** A removal that returns success leaves no record and nothing the record named: no worktree of
      the id, and of each of its members no graph, no search ref and no branch in the shard. */
  lemma RemoveLeavesNothing(home: Homes, w: World, p: nat, out: Outcome)
    requires Inv(home, w) && p in w.processes && w.processes[p].ContextRun? && w.processes[p].pc.Delete?
    ensures Apply(w, Act(p, out)).Some?
    ensures var w' := Apply(w, Act(p, out)).value;
            var id := w.processes[p].id;
            && id in w.records && id !in w'.records
            && (forall k: (string, string) :: k.1 == id ==> k !in w'.trees)
            && (forall m :: m in w.records[id].members ==>
                  m.graphRef !in w'.graphs && NoRef(w'.clones, m) && NoShard(w'.shards, m))
  {
    var q := w.processes[p];
    assert Works(home, w, p, q);
    AtWork(home, w, p, q);
    NothingLeft(home, w, q);
  }
}
