/** One lemma per program counter of a context operation: the step keeps the tables' invariant,
    stays inside the operation's footprint and leaves the operation knowing what it should. */
module ManagedSteps {
  import opened Options
  import opened Names
  import opened NameOrder
  import opened Lifecycle
  import opened Managed
  import opened ManagedInvariant
  import opened ManagedProofs

  /** An operation at work, with every lock of its context. */
  ghost predicate Works(home: Homes, w: World, p: nat, q: Process) {
    && GlobalOk(home, w) && p in w.processes && w.processes[p] == q
    && q.ContextRun? && !q.pc.Locking? && !q.pc.Check?
    && LocalOk(home, w, q)
  }

  /** The outcome of one of its steps. */
  ghost predicate Kept(home: Homes, w: World, w': World, p: nat, q: Process)
    requires q.ContextRun?
  {
    && GlobalOk(home, w')
    && Frame(home, w, w', Holds(q), q.id)
    && (w'.processes == w.processes - {p} ||
        exists pc, rec, order :: w'.processes == w.processes[p := q.(pc := pc, rec := rec, order := order)] &&
           LocalOk(home, w', q.(pc := pc, rec := rec, order := order)))
  }

  lemma AtWork(home: Homes, w: World, p: nat, q: Process)
    requires Works(home, w, p, q)
    ensures WorkOk(home, w, q) && q.held == |q.want|
    ensures Holds(q) == home(q.id)
    ensures |q.order| > 0
    ensures forall m :: m in q.rec.members ==> m.repository in home(q.id) && m.repository in q.order && m.branch != ""
  {
    HoldsAll(q);
    forall m | m in q.rec.members ensures m.repository in home(q.id) && m.repository in q.order {
      MemberAtHome(home, q.id, q.rec.members, m);
    }
  }

  /** Going on with the same record at another program counter. */
  lemma GoesOn(home: Homes, w: World, w': World, p: nat, q: Process, pc: Pc)
    requires Works(home, w, p, q) && !pc.Locking? && !pc.Check?
    requires GlobalOk(home, w') && Frame(home, w, w', Holds(q), q.id)
    requires w'.processes == w.processes[p := q.(pc := pc)]
    requires WorkOk(home, w', q.(pc := pc))
    ensures Kept(home, w, w', p, q)
  {
    var q' := q.(pc := pc);
    assert q' == q.(pc := pc, rec := q.rec, order := q.order);
    assert LocalOk(home, w', q');
  }

  lemma Ends(home: Homes, w: World, w': World, p: nat, q: Process)
    requires q.ContextRun? && GlobalOk(home, w') && Frame(home, w, w', Holds(q), q.id)
    requires w'.processes == w.processes - {p}
    ensures Kept(home, w, w', p, q)
  {}

  lemma Rereads(home: Homes, w: World, w': World, p: nat, q: Process, q': Process)
    requires q.ContextRun? && GlobalOk(home, w') && Frame(home, w, w', Holds(q), q.id)
    requires q'.ContextRun? && q' == q.(pc := q'.pc, rec := q'.rec, order := q'.order)
    requires w'.processes == w.processes[p := q'] && LocalOk(home, w', q')
    ensures Kept(home, w, w', p, q)
  {}

  // ---------------------------------------------------------------- reading and writing records

  lemma PinnedWellFormed(home: Homes, id: string, pins: seq<string>, revisions: seq<string>)
    requires pins != [] && Unrepeated(pins) && |pins| == |revisions|
    requires forall r :: r in pins <==> r in home(id)
    requires forall i :: 0 <= i < |revisions| ==> |revisions[i]| == FULL_SHA
    ensures WellFormed(home, id, PinnedMembers(id, pins, revisions))
  {
    var members := PinnedMembers(id, pins, revisions);
    forall r | r in pins ensures r in (set m | m in members :: m.repository) {
      var i :| 0 <= i < |pins| && pins[i] == r;
      assert members[i] in members;
    }
    forall m | m in members ensures m.repository in pins && m.branch != "" {
      var i :| 0 <= i < |members| && members[i] == m;
    }
    forall i, j | 0 <= i < j < |members| ensures Separate(members[i], members[j]) {
      if members[i].graphRef == members[j].graphRef {
        GraphRefTellsRepository(id, pins[i], revisions[i], pins[j], revisions[j]);
      }
    }
  }

  /** Nothing but the processes changed. */
  lemma OnlyProcesses(home: Homes, w: World, w': World, held: set<string>, id: string)
    requires GlobalOk(home, w) && w' == w.(processes := w'.processes)
    ensures GlobalOk(home, w') && Frame(home, w, w', held, id)
  {}

  /** The sorted repositories of a well-formed record are its home. */
  lemma OrderRead(home: Homes, q: Process, rec: Record, pc: Pc)
    requires q.ContextRun? && WellFormed(home, q.id, rec.members)
    ensures OrderOk(home(q.id), rec.members, Reads(q, rec, pc).order)
  {
    var names := RepositoriesOf(rec.members);
    var order := LockNames(names);
    assert names[0] in names;
    forall j | 0 <= j < |order| ensures order[j] in home(q.id) {
      assert order[j] in order;
      var k :| 0 <= k < |names| && names[k] == order[j];
      assert rec.members[k] in rec.members;
    }
    forall m | m in rec.members ensures m.repository in order {
      var k :| 0 <= k < |rec.members| && rec.members[k] == m;
      assert names[k] == m.repository;
    }
  }

  lemma CheckCreate(home: Homes, w: World, w': World, q: Process, pins: seq<string>, revisions: seq<string>)
    requires q.ContextRun? && q.op == Create(pins) && q.pc.Check? && LocalOk(home, w, q)
    requires q.id !in w.records && forall i :: 0 <= i < |pins| ==> pins[i] in w.repositories
    requires |revisions| == |pins|
    requires forall i :: 0 <= i < |pins| ==>
               && pins[i] in w.clones && w.clones[pins[i]].Whole?
               && revisions[i] in w.clones[pins[i]].commits && |revisions[i]| == FULL_SHA
    requires w' == w.(processes := w'.processes)
    ensures LocalOk(home, w', Reads(q, Record(PinnedMembers(q.id, pins, revisions), Creating), Write(Creating)))
  {
    PinnedWellFormed(home, q.id, pins, revisions);
    var members := PinnedMembers(q.id, pins, revisions);
    var q' := Reads(q, Record(members, Creating), Write(Creating));
    OrderRead(home, q, Record(members, Creating), Write(Creating));
    forall m | m in members ensures Backed(w'.repositories, w'.clones, m) {
      var i :| 0 <= i < |pins| && members[i] == m;
    }
    assert WorkOk(home, w', q');
  }

  lemma InForm(home: Homes, w: World, id: string)
    requires GlobalOk(home, w) && id in w.records
    ensures WellFormed(home, id, w.records[id].members) && w.records[id].members != []
  {}

  /** An operation that has just read its record knows nothing yet, and needs nothing. */
  lemma StartsWork(home: Homes, w: World, q: Process)
    requires q.ContextRun? && q.id in w.records && w.records[q.id] == q.rec
    requires WellFormed(home, q.id, q.rec.members) && q.rec.members != [] && OrderOk(home(q.id), q.rec.members, q.order)
    requires (q.op.Remove? && q.pc == Write(Removing)) ||
             (q.op.Retry? && q.pc == DropGraph(0) && q.rec.state != Ready && q.rec.state != Removing)
    ensures WorkOk(home, w, q)
  {
    hide WellFormed, OrderOk, Wanted, HasTree, HasRef, HasShard, HasGraph, NoRef, NoShard, IndexingOk;
    assert PcOk(w, q);
    if q.op.Remove? { assert RemoveFacts(w, q); } else { assert BuildFacts(w, q); }
  }

  lemma CheckRecorded(home: Homes, w: World, w': World, q: Process, order: seq<string>, pc: Pc)
    requires GlobalOk(home, w)
    requires q.ContextRun? && q.pc.Check? && LocalOk(home, w, q) && q.id in w.records
    requires (q.op.Remove? && pc == Write(Removing)) ||
             (q.op.Retry? && pc == DropGraph(0) && w.records[q.id].state != Ready && w.records[q.id].state != Removing)
    requires OrderOk(home(q.id), w.records[q.id].members, order)
    requires w' == w.(processes := w'.processes)
    ensures LocalOk(home, w', q.(rec := w.records[q.id], order := order, pc := pc))
  {
    hide GlobalOk, WellFormed, OrderOk, WorkOk;
    InForm(home, w, q.id);
    StartsWork(home, w', q.(rec := w.records[q.id], order := order, pc := pc));
  }

  lemma CheckCreateStep(home: Homes, w: World, p: nat, q: Process, out: Outcome)
    requires GlobalOk(home, w) && p in w.processes && w.processes[p] == q
    requires q.ContextRun? && q.pc.Check? && q.op.Create? && LocalOk(home, w, q)
    requires DoCheck(w, p, q, out).Some? && DoCheck(w, p, q, out).value.processes != w.processes - {p}
    ensures Kept(home, w, DoCheck(w, p, q, out).value, p, q)
  {
    hide GlobalOk, Frame, LockNames, PinnedMembers, Kept, LocalOk, Holds, RepositoriesOf, OnlyMoves;
    var w' := DoCheck(w, p, q, out).value;
    var q' := w'.processes[p];
    OnlyProcesses(home, w, w', Holds(q), q.id);
    CheckCreate(home, w, w', q, q.op.pins, out.revisions);
    Rereads(home, w, w', p, q, q');
  }

  lemma CheckRetryStep(home: Homes, w: World, p: nat, q: Process, out: Outcome)
    requires GlobalOk(home, w) && p in w.processes && w.processes[p] == q
    requires q.ContextRun? && q.pc.Check? && q.op.Retry? && LocalOk(home, w, q)
    requires DoCheck(w, p, q, out).Some? && DoCheck(w, p, q, out).value.processes != w.processes - {p}
    ensures Kept(home, w, DoCheck(w, p, q, out).value, p, q)
  {
    hide GlobalOk, Frame, LockNames, PinnedMembers, Kept, LocalOk, Holds, RepositoriesOf, OnlyMoves;
    var w' := DoCheck(w, p, q, out).value;
    var q' := w'.processes[p];
    OnlyProcesses(home, w, w', Holds(q), q.id);
    InForm(home, w, q.id);
    OrderRead(home, q, w.records[q.id], Write(Resolving));
    CheckRecorded(home, w, w', q, q'.order, DropGraph(0));
    Rereads(home, w, w', p, q, q');
  }

  lemma CheckRemoveStep(home: Homes, w: World, p: nat, q: Process, out: Outcome)
    requires GlobalOk(home, w) && p in w.processes && w.processes[p] == q
    requires q.ContextRun? && q.pc.Check? && q.op.Remove? && LocalOk(home, w, q)
    requires DoCheck(w, p, q, out).Some? && DoCheck(w, p, q, out).value.processes != w.processes - {p}
    ensures Kept(home, w, DoCheck(w, p, q, out).value, p, q)
  {
    hide GlobalOk, Frame, LockNames, PinnedMembers, Kept, LocalOk, Holds, RepositoriesOf, OnlyMoves;
    var w' := DoCheck(w, p, q, out).value;
    var q' := w'.processes[p];
    OnlyProcesses(home, w, w', Holds(q), q.id);
    InForm(home, w, q.id);
    OrderRead(home, q, w.records[q.id], Write(Removing));
    CheckRecorded(home, w, w', q, q'.order, Write(Removing));
    Rereads(home, w, w', p, q, q');
  }

  lemma CheckStep(home: Homes, w: World, p: nat, q: Process, out: Outcome)
    requires GlobalOk(home, w) && p in w.processes && w.processes[p] == q
    requires q.ContextRun? && q.pc.Check? && LocalOk(home, w, q)
    requires DoCheck(w, p, q, out).Some?
    ensures Kept(home, w, DoCheck(w, p, q, out).value, p, q)
  {
    hide GlobalOk, Frame, Kept, LocalOk, Holds, OnlyMoves, DoCheck;
    var w' := DoCheck(w, p, q, out).value;
    if w'.processes == w.processes - {p} {
      OnlyProcesses(home, w, w', Holds(q), q.id);
      Ends(home, w, w', p, q);
    } else {
      match q.op {
        case Create(_) => CheckCreateStep(home, w, p, q, out);
        case Retry => CheckRetryStep(home, w, p, q, out);
        case Remove => CheckRemoveStep(home, w, p, q, out);
      }
    }
  }

  /** The tables after a record write. */
  lemma WriteTables(home: Homes, w: World, w': World, q: Process, s: Stage)
    requires GlobalOk(home, w) && q.ContextRun? && q.pc == Write(s) && WorkOk(home, w, q)
    requires s == Creating ==> FreshNames(w, q)
    requires s == Ready ==> forall m :: m in q.rec.members ==> Built(w, q.id, m)
    requires home(q.id) <= Holds(q)
    requires w' == w.(records := w.records[q.id := q.rec.(state := s)], processes := w'.processes)
    ensures GlobalOk(home, w') && Frame(home, w, w', Holds(q), q.id)
  {
    if s == Creating {
      assert q.rec.(state := s) == q.rec;
      RecordAdded(home, w, w', q.id, q.rec);
    } else {
      StateChange(home, w, w', q.id, s);
    }
  }

  /** Entering a stage changes nothing a build has built. */
  lemma WriteBuildFacts(w: World, w': World, q: Process, s: Stage, pc: Pc)
    requires q.ContextRun? && q.pc == Write(s) && s != Creating && BuildFacts(w, q) && !q.op.Remove?
    requires AfterWrite(q.op, q.rec, q.order, s) == Some(pc) && |q.order| > 0 && q.rec.members != []
    requires w' == w.(records := w'.records, processes := w'.processes)
    ensures BuildFacts(w', q.(rec := q.rec.(state := s), pc := pc))
  {
    var q' := q.(rec := q.rec.(state := s), pc := pc);
    assert TreesBuilt(q') == TreesBuilt(q) && TreesClear(q') <= TreesClear(q);
    assert ShardsBuilt(q') == ShardsBuilt(q) && GraphsBuilt(q') == GraphsBuilt(q);
  }

  /** What the operation knows after a record write it goes on from. */
  lemma WriteLocal(home: Homes, w: World, w': World, q: Process, s: Stage, pc: Pc)
    requires q.ContextRun? && q.pc == Write(s) && WorkOk(home, w, q) && AfterWrite(q.op, q.rec, q.order, s) == Some(pc)
    requires Restarts(q.op, s) || Advances(q.rec.state, s)
    requires OwnedTrees(home, w.records, w.trees) && |q.order| > 0
    requires w' == w.(records := w.records[q.id := q.rec.(state := s)], processes := w'.processes)
    ensures WorkOk(home, w', q.(rec := q.rec.(state := s), pc := pc))
  {
    hide IndexingOk, OrderOk;
    var q' := q.(rec := q.rec.(state := s), pc := pc);
    assert WellFormed(home, q.id, q'.rec.members);
    if q.op.Remove? {
      assert RemoveFacts(w', q');
    } else if s == Creating {
      assert forall k :: 0 <= k < |q.rec.members| ==> (q.rec.members[k].repository, q.id) !in w.trees;
      assert BuildFacts(w', q');
    } else {
      WriteBuildFacts(w, w', q, s, pc);
      WritePc(w, w', q, s, pc);
    }
  }

  lemma WritePc(w: World, w': World, q: Process, s: Stage, pc: Pc)
    requires q.ContextRun? && q.pc == Write(s) && s != Creating && PcOk(w, q) && !q.op.Remove?
    requires AfterWrite(q.op, q.rec, q.order, s) == Some(pc) && |q.order| > 0 && q.rec.members != []
    ensures PcOk(w', q.(rec := q.rec.(state := s), pc := pc))
  {
    var q' := q.(rec := q.rec.(state := s), pc := pc);
  }

  lemma BuiltAtWork(home: Homes, w: World, q: Process)
    requires q.ContextRun? && q.pc == Write(Ready) && WorkOk(home, w, q)
    requires forall m :: m in q.rec.members ==> m.repository in q.order
    ensures forall m :: m in q.rec.members ==> Built(w, q.id, m)
  {
    hide WellFormed, OrderOk;
    AllBuilt(w, q);
  }

  lemma WriteStep(home: Homes, w: World, p: nat, q: Process, s: Stage)
    requires Works(home, w, p, q) && q.pc == Write(s)
    requires s == Creating ==> FreshNames(w, q)
    ensures Kept(home, w, DoWrite(w, p, q, s), p, q)
  {
    hide GlobalOk, Frame, FreshNames, Advances, Restarts, AfterWrite, Kept, WorkOk, LocalOk, Holds;
    AtWork(home, w, p, q);
    var w' := DoWrite(w, p, q, s);
    if Restarts(q.op, s) || Advances(q.rec.state, s) {
      Written(home, w, w', p, q, s);
    } else {
      OnlyProcesses(home, w, w', Holds(q), q.id);
      Ends(home, w, w', p, q);
    }
  }

  lemma WriteShape(w: World, p: nat, q: Process, s: Stage)
    requires q.ContextRun? && (Restarts(q.op, s) || Advances(q.rec.state, s))
    ensures DoWrite(w, p, q, s) ==
            w.(records := w.records[q.id := q.rec.(state := s)],
               processes := if AfterWrite(q.op, q.rec.(state := s), q.order, s).Some?
                            then w.processes[p := q.(rec := q.rec.(state := s), pc := AfterWrite(q.op, q.rec.(state := s), q.order, s).value)]
                            else w.processes - {p})
  {
    hide AfterWrite, Restarts, Advances;
  }

  lemma Written(home: Homes, w: World, w': World, p: nat, q: Process, s: Stage)
    requires Works(home, w, p, q) && q.pc == Write(s) && w' == DoWrite(w, p, q, s)
    requires s == Creating ==> FreshNames(w, q)
    requires Restarts(q.op, s) || Advances(q.rec.state, s)
    ensures Kept(home, w, w', p, q)
  {
    hide GlobalOk, Frame, FreshNames, Advances, Restarts, AfterWrite, Kept, WorkOk, LocalOk, Holds, DoWrite, Built;
    AtWork(home, w, p, q);
    WriteShape(w, p, q, s);
    var rec := q.rec.(state := s);
    if s == Ready { BuiltAtWork(home, w, q); }
    WriteTables(home, w, w', q, s);
    if AfterWrite(q.op, rec, q.order, s).Some? {
      var pc := AfterWrite(q.op, rec, q.order, s).value;
      WriteResumes(home, w, w', q, s, pc);
      Rereads(home, w, w', p, q, q.(rec := rec, pc := pc));
    } else {
      Ends(home, w, w', p, q);
    }
  }

  lemma WriteResumes(home: Homes, w: World, w': World, q: Process, s: Stage, pc: Pc)
    requires q.ContextRun? && q.pc == Write(s) && LocalOk(home, w, q)
    requires AfterWrite(q.op, q.rec.(state := s), q.order, s) == Some(pc)
    requires Restarts(q.op, s) || Advances(q.rec.state, s)
    requires GlobalOk(home, w) && |q.order| > 0
    requires w' == w.(records := w.records[q.id := q.rec.(state := s)], processes := w'.processes)
    ensures LocalOk(home, w', q.(rec := q.rec.(state := s), pc := pc))
  {
    assert AfterWrite(q.op, q.rec, q.order, s) == Some(pc);
    WriteLocal(home, w, w', q, s, pc);
    hide WorkOk;
    assert !pc.Locking? && !pc.Check?;
  }

  /** Before the last write of a build, everything is built. */
  lemma AllBuilt(w: World, q: Process)
    requires q.ContextRun? && q.pc == Write(Ready) && BuildFacts(w, q)
    requires forall m :: m in q.rec.members ==> m.repository in q.order
    ensures forall m :: m in q.rec.members ==> Built(w, q.id, m)
  {
    forall m | m in q.rec.members ensures Built(w, q.id, m) {
      var k :| 0 <= k < |q.rec.members| && q.rec.members[k] == m;
      var j :| 0 <= j < |q.order| && q.order[j] == m.repository;
    }
  }

  // ---------------------------------------------------------------- building

  /** A stage that fails leaves a record that is about to be marked FAILED, or ends the run. */
  lemma StopKept(home: Homes, w: World, w': World, p: nat, q: Process)
    requires Works(home, w, p, q) && q.pc != Write(Creating)
    requires q.pc.Prepare? || q.pc.Index? || q.pc.BuildGraph? || q.pc.Verify?
    requires GlobalOk(home, w') && Frame(home, w, w', Holds(q), q.id) && w'.records == w.records
    requires w'.processes == Stop(w, p, q).processes
    ensures Kept(home, w, w', p, q)
  {
    hide GlobalOk, Frame, Kept, WellFormed, BuildFacts, RemoveFacts, OrderOk;
    if q.op.Remove? {
      Ends(home, w, w', p, q);
    } else {
      StoppedOk(home, w, w', q);
      GoesOn(home, w, w', p, q, Write(Failed));
    }
  }

  lemma StoppedOk(home: Homes, w: World, w': World, q: Process)
    requires q.ContextRun? && WorkOk(home, w, q) && !q.op.Remove? && w'.records == w.records
    requires q.pc.Prepare? || q.pc.Index? || q.pc.BuildGraph? || q.pc.Verify?
    ensures WorkOk(home, w', q.(pc := Write(Failed)))
  {
    hide WellFormed, OrderOk, IndexingOk, HasTree, HasRef, HasShard, HasGraph;
    assert BuildFacts(w', q.(pc := Write(Failed)));
  }

  lemma TreeKept(home: Homes, w: World, w': World, q: Process, m: Member)
    requires GlobalOk(home, w) && q.ContextRun? && w' == w.(trees := w'.trees, processes := w'.processes)
    requires forall k: (string, string) :: k != (m.repository, q.id) ==> Same(w.trees, w'.trees, k)
    requires q.id in w.records && w.records[q.id].state != Ready && m.repository in home(q.id) && m.repository in Holds(q)
    ensures GlobalOk(home, w') && Frame(home, w, w', Holds(q), q.id)
  {
    TreeChange(home, w.records, w.trees, w'.trees, q.id, m);
  }

  lemma GraphKept(home: Homes, w: World, w': World, q: Process, m: Member)
    requires GlobalOk(home, w) && q.ContextRun? && w' == w.(graphs := w'.graphs, processes := w'.processes)
    requires forall g :: g != m.graphRef ==> Same(w.graphs, w'.graphs, g)
    requires q.id in w.records && w.records[q.id].state != Ready && m in w.records[q.id].members && home(q.id) <= Holds(q)
    ensures GlobalOk(home, w') && Frame(home, w, w', Holds(q), q.id)
  {
    GraphChange(w.records, w.graphs, w'.graphs, q.id, m);
  }

  lemma PreparedFacts(home: Homes, w: World, w': World, q: Process, i: nat)
    requires q.ContextRun? && q.pc == Prepare(i) && i < Members(q) && !q.op.Remove?
    requires BuildFacts(w, q) && WellFormed(home, q.id, q.rec.members)
    requires w' == w.(trees := w.trees[(q.rec.members[i].repository, q.id) := At(q.rec.members[i].revision)], processes := w'.processes)
    ensures BuildFacts(w', q.(pc := AfterPrepare(q.rec, i + 1)))
  {
    var q' := q.(pc := AfterPrepare(q.rec, i + 1));
    forall k | 0 <= k < Members(q) && k != i
      ensures Same(w.trees, w'.trees, (q.rec.members[k].repository, q.id))
    {
      assert Separate(q.rec.members[if k < i then k else i], q.rec.members[if k < i then i else k]);
    }
  }

  lemma PrepareStep(home: Homes, w: World, p: nat, q: Process, i: nat, out: Outcome)
    requires Works(home, w, p, q) && q.pc == Prepare(i) && i < |q.rec.members|
    requires DoPrepare(w, p, q, i, out).Some?
    ensures Kept(home, w, DoPrepare(w, p, q, i, out).value, p, q)
  {
    hide GlobalOk, Frame, WellFormed, OrderOk, IndexingOk, HasTree, HasRef, HasShard, HasGraph;
    AtWork(home, w, p, q);
    var w' := DoPrepare(w, p, q, i, out).value;
    var m := q.rec.members[i];
    TreeKept(home, w, w', q, m);
    if out.Done? {
      PreparedFacts(home, w, w', q, i);
      GoesOn(home, w, w', p, q, AfterPrepare(q.rec, i + 1));
    } else {
      StopKept(home, w, w', p, q);
    }
  }

  lemma GraphBuiltFacts(home: Homes, w: World, w': World, q: Process, i: nat)
    requires q.ContextRun? && q.pc == BuildGraph(i) && i < Members(q) && !q.op.Remove?
    requires BuildFacts(w, q) && WellFormed(home, q.id, q.rec.members)
    requires (q.rec.members[i].repository, q.id) in w.trees
    requires w' == w.(graphs := w.graphs[q.rec.members[i].graphRef := w.trees[(q.rec.members[i].repository, q.id)]], processes := w'.processes)
    ensures BuildFacts(w', q.(pc := AfterGraph(q.rec, i + 1)))
  {
    hide HasRef, HasShard, VerifyIdentity;
    assert HasTree(w.trees, q.id, q.rec.members[i]);
    forall k | 0 <= k < i ensures HasGraph(w'.graphs, q.rec.members[k]) {
      assert Separate(q.rec.members[k], q.rec.members[i]);
    }
  }

  lemma GraphStep(home: Homes, w: World, p: nat, q: Process, i: nat, out: Outcome)
    requires Works(home, w, p, q) && q.pc == BuildGraph(i) && i < |q.rec.members|
    requires DoGraph(w, p, q, i, out).Some?
    ensures Kept(home, w, DoGraph(w, p, q, i, out).value, p, q)
  {
    hide GlobalOk, Frame, WellFormed, OrderOk, IndexingOk, HasTree, HasRef, HasShard, HasGraph;
    AtWork(home, w, p, q);
    var w' := DoGraph(w, p, q, i, out).value;
    GraphKept(home, w, w', q, q.rec.members[i]);
    if out.Done? {
      GraphBuiltFacts(home, w, w', q, i);
      GoesOn(home, w, w', p, q, AfterGraph(q.rec, i + 1));
    } else {
      StopKept(home, w, w', p, q);
    }
  }

  lemma VerifiedFacts(home: Homes, w: World, w': World, q: Process, i: nat)
    requires q.ContextRun? && q.pc == Verify(i) && i < Members(q) && WorkOk(home, w, q)
    requires w' == w.(processes := w'.processes)
    ensures WorkOk(home, w', q.(pc := AfterVerify(q.rec, i + 1)))
  {
    hide Wanted, OrderOk, WellFormed, HasTree, HasRef, HasShard, HasGraph;
    assert BuildFacts(w', q.(pc := AfterVerify(q.rec, i + 1)));
  }

  lemma VerifyStep(home: Homes, w: World, p: nat, q: Process, i: nat, out: Outcome)
    requires Works(home, w, p, q) && q.pc == Verify(i) && i < |q.rec.members|
    ensures Kept(home, w, DoVerify(w, p, q, i, out), p, q)
  {
    hide GlobalOk, Frame, WellFormed, OrderOk, IndexingOk, Identified, BuildFacts, RemoveFacts;
    AtWork(home, w, p, q);
    var w' := DoVerify(w, p, q, i, out);
    OnlyProcesses(home, w, w', Holds(q), q.id);
    if w'.processes == Stop(w, p, q).processes {
      StopKept(home, w, w', p, q);
    } else {
      VerifiedFacts(home, w, w', q, i);
      GoesOn(home, w, w', p, q, AfterVerify(q.rec, i + 1));
    }
  }

  // ---------------------------------------------------------------- taking apart

  lemma GraphGoneFacts(home: Homes, w: World, w': World, q: Process, i: nat)
    requires q.ContextRun? && q.pc == DropGraph(i) && i < Members(q) && WorkOk(home, w, q)
    requires w' == w.(graphs := w.graphs - {q.rec.members[i].graphRef}, processes := w'.processes)
    ensures WorkOk(home, w', q.(pc := DropTree(i)))
  {
    hide IndexingOk, OrderOk, WellFormed;
    var q' := q.(pc := DropTree(i));
    if q.op.Remove? { assert RemoveFacts(w', q'); } else { assert BuildFacts(w', q'); }
  }

  /** The graph of the member at hand may change in any way while its context is at work. */
  lemma GraphTouched(home: Homes, w: World, w': World, p: nat, q: Process, i: nat)
    requires Works(home, w, p, q) && (q.pc == DropGraph(i) || q.pc == BuildGraph(i)) && i < |q.rec.members|
    requires w' == w.(graphs := w'.graphs, processes := w'.processes)
    requires forall g :: g != q.rec.members[i].graphRef ==> Same(w.graphs, w'.graphs, g)
    ensures GlobalOk(home, w') && Frame(home, w, w', Holds(q), q.id)
  {
    hide GlobalOk, Frame, WellFormed, OrderOk, BuildFacts, RemoveFacts;
    AtWork(home, w, p, q);
    GraphKept(home, w, w', q, q.rec.members[i]);
  }

  /** A dropped graph ends the command, or is gone. */
  lemma DropGraphShape(w: World, p: nat, q: Process, i: nat, out: Outcome)
    requires q.ContextRun? && i < |q.rec.members| && DoDropGraph(w, p, q, i, out).Some?
    ensures var w', m := DoDropGraph(w, p, q, i, out).value, q.rec.members[i];
            && (forall g :: g != m.graphRef ==> Same(w.graphs, w'.graphs, g))
            && (w'.processes == w.processes - {p} || w' == Goto(w.(graphs := w.graphs - {m.graphRef}), p, q.(pc := DropTree(i))))
  {
    hide OnlyMoves;
  }

  lemma DropGraphStep(home: Homes, w: World, p: nat, q: Process, i: nat, out: Outcome)
    requires Works(home, w, p, q) && q.pc == DropGraph(i) && i < |q.rec.members|
    requires DoDropGraph(w, p, q, i, out).Some?
    ensures Kept(home, w, DoDropGraph(w, p, q, i, out).value, p, q)
  {
    hide GlobalOk, Frame, Kept, WorkOk, OnlyMoves, DoDropGraph;
    var w' := DoDropGraph(w, p, q, i, out).value;
    DropGraphShape(w, p, q, i, out);
    GraphTouched(home, w, w', p, q, i);
    if w'.processes == w.processes - {p} {
      Ends(home, w, w', p, q);
    } else {
      GraphGoneFacts(home, w, w', q, i);
      GoesOn(home, w, w', p, q, DropTree(i));
    }
  }

  lemma TreeGoneFacts(home: Homes, w: World, w': World, q: Process, i: nat, pc: Pc)
    requires q.ContextRun? && q.pc == DropTree(i) && i < Members(q) && WorkOk(home, w, q)
    requires q.rec.members[i].branch != "" && |q.order| > 0
    requires pc == if q.op.Remove? then DropRef(i) else AfterDrop(q.op, q.rec, q.order, i + 1)
    requires w' == w.(trees := w.trees - {(q.rec.members[i].repository, q.id)}, processes := w'.processes)
    ensures WorkOk(home, w', q.(pc := pc))
  {
    hide IndexingOk, OrderOk, WellFormed;
    var q' := q.(pc := pc);
    if q.op.Remove? { assert RemoveFacts(w', q'); } else { assert BuildFacts(w', q'); }
  }

  lemma DropTreeStep(home: Homes, w: World, p: nat, q: Process, i: nat, out: Outcome)
    requires Works(home, w, p, q) && q.pc == DropTree(i) && i < |q.rec.members|
    requires DoDropTree(w, p, q, i, out).Some?
    ensures Kept(home, w, DoDropTree(w, p, q, i, out).value, p, q)
  {
    hide GlobalOk, Frame, WellFormed, OrderOk, IndexingOk, HasTree, HasRef, HasShard, HasGraph;
    AtWork(home, w, p, q);
    var w' := DoDropTree(w, p, q, i, out).value;
    var m := q.rec.members[i];
    TreeKept(home, w, w', q, m);
    if w'.processes != w.processes - {p} {
      var pc := if q.op.Remove? then DropRef(i) else AfterDrop(q.op, q.rec, q.order, i + 1);
      TreeGoneFacts(home, w, w', q, i, pc);
      GoesOn(home, w, w', p, q, pc);
    }
  }

  lemma RefGoneFacts(home: Homes, w: World, w': World, q: Process, i: nat)
    requires q.ContextRun? && q.pc == DropRef(i) && i < Members(q) && WorkOk(home, w, q) && |q.order| > 0
    requires w' == w.(clones := w'.clones, processes := w'.processes)
    requires NoRef(w'.clones, q.rec.members[i])
    requires forall r :: r != q.rec.members[i].repository ==> Same(w.clones, w'.clones, r)
    ensures WorkOk(home, w', q.(pc := AfterDrop(q.op, q.rec, q.order, i + 1)))
  {
    hide Wanted, OrderOk;
    var q' := q.(pc := AfterDrop(q.op, q.rec, q.order, i + 1));
    forall k | 0 <= k <= i ensures NoRef(w'.clones, q.rec.members[k]) {
      if k < i {
        assert Separate(q.rec.members[k], q.rec.members[i]);
        assert Same(w.clones, w'.clones, q.rec.members[k].repository);
      }
    }
    assert RemoveFacts(w', q');
  }

  /** A dropped ref ends the command with nothing changed, or is gone from a clone that is whole. */
  lemma DropRefShape(w: World, p: nat, q: Process, i: nat, out: Outcome)
    requires q.ContextRun? && i < |q.rec.members| && DoDropRef(w, p, q, i, out).Some?
    requires var m := q.rec.members[i]; m.repository in w.clones && w.clones[m.repository].Whole?
    ensures var w', m := DoDropRef(w, p, q, i, out).value, q.rec.members[i];
            || w' == Exit(w, p)
            || w' == Goto(
                 w.(clones := w.clones[m.repository := w.clones[m.repository].(refs := w.clones[m.repository].refs - {m.branch})]), p,
                 q.(pc := AfterDrop(q.op, q.rec, q.order, i + 1)))
  {
    hide AfterDrop;
  }

  /** What a removal knows of the member whose ref it is about to drop. */
  lemma DropRefKnown(home: Homes, w: World, p: nat, q: Process, i: nat)
    requires Works(home, w, p, q) && q.pc == DropRef(i) && i < |q.rec.members|
    ensures var m := q.rec.members[i];
            && GlobalOk(home, w) && WorkOk(home, w, q) && |q.order| > 0 && m.repository in Holds(q)
            && q.id in w.records && w.records[q.id].state == Removing && m in w.records[q.id].members
            && m.repository in w.clones && w.clones[m.repository].Whole?
  {
    AtWork(home, w, p, q);
    assert Backed(w.repositories, w.clones, q.rec.members[i]);
  }

  lemma DropRefStep(home: Homes, w: World, p: nat, q: Process, i: nat, out: Outcome)
    requires Works(home, w, p, q) && q.pc == DropRef(i) && i < |q.rec.members|
    requires DoDropRef(w, p, q, i, out).Some?
    ensures Kept(home, w, DoDropRef(w, p, q, i, out).value, p, q)
  {
    hide GlobalOk, Frame, WellFormed, WorkOk, Holds, DoDropRef, Kept;
    DropRefKnown(home, w, p, q, i);
    DropRefShape(w, p, q, i, out);
    var w' := DoDropRef(w, p, q, i, out).value;
    var m := q.rec.members[i];
    if w' == Exit(w, p) {
      OnlyProcesses(home, w, w', Holds(q), q.id);
      Ends(home, w, w', p, q);
    } else {
      RefDropped(home, w, w', q, m);
      RefGoneFacts(home, w, w', q, i);
      GoesOn(home, w, w', p, q, AfterDrop(q.op, q.rec, q.order, i + 1));
    }
  }

  /** The ref of a member is not what another context is searched by. */
  lemma RefOfNobodyElse(home: Homes, w: World, q: Process, m: Member, c: string, n: Member)
    requires GlobalOk(home, w) && q.ContextRun?
    requires q.id in w.records && w.records[q.id].state == Removing && m in w.records[q.id].members
    requires m.repository in w.clones && w.clones[m.repository].Whole?
    requires c in w.records && n in w.records[c].members && n.repository == m.repository
    ensures n.revision in w.clones[m.repository].commits
    ensures w.records[c].state == Ready ==> n.branch != m.branch && HasRef(w.clones, n)
  {
    assert Backed(w.repositories, w.clones, n);
    if w.records[c].state == Ready { assert HasRef(w.clones, n) && Apart(m, n); }
  }

  /** Dropping the ref of a context that is being removed takes nobody else's. */
  lemma RefDropped(home: Homes, w: World, w': World, q: Process, m: Member)
    requires GlobalOk(home, w) && q.ContextRun? && m.repository in Holds(q)
    requires q.id in w.records && w.records[q.id].state == Removing && m in w.records[q.id].members
    requires m.repository in w.clones && w.clones[m.repository].Whole?
    requires w' == w.(processes := w'.processes,
      clones := w.clones[m.repository := w.clones[m.repository].(refs := w.clones[m.repository].refs - {m.branch})])
    ensures GlobalOk(home, w') && Frame(home, w, w', Holds(q), q.id)
  {
    forall c, n | c in w.records && n in w.records[c].members && n.repository == m.repository
      ensures HasCommit(w'.clones, n) && (w.records[c].state == Ready ==> HasRef(w'.clones, n))
    {
      RefOfNobodyElse(home, w, q, m, c, n);
    }
    CloneChange(home, w, w', m.repository);
  }

  lemma DeleteStep(home: Homes, w: World, p: nat, q: Process)
    requires Works(home, w, p, q) && q.pc.Delete?
    ensures Kept(home, w, Exit(w.(records := w.records - {q.id}), p), p, q)
  {
    AtWork(home, w, p, q);
    var w' := Exit(w.(records := w.records - {q.id}), p);
    NothingLeft(home, w, q);
    RecordDropped(home, w, w', q.id);
  }

  /** When a removal gets to deleting its record, no artifact of the context is left. */
  lemma NothingLeft(home: Homes, w: World, q: Process)
    requires q.ContextRun? && q.pc.Delete? && WorkOk(home, w, q) && OwnedTrees(home, w.records, w.trees)
    requires forall m :: m in q.rec.members ==> m.repository in q.order
    ensures forall k: (string, string) :: k.1 == q.id ==> k !in w.trees
    ensures forall m :: m in q.rec.members ==> m.graphRef !in w.graphs && NoRef(w.clones, m) && NoShard(w.shards, m)
  {
    forall m | m in q.rec.members
      ensures m.graphRef !in w.graphs && NoRef(w.clones, m) && NoShard(w.shards, m) && (m.repository, q.id) !in w.trees
    {
      var k :| 0 <= k < |q.rec.members| && q.rec.members[k] == m;
      var j :| 0 <= j < |q.order| && q.order[j] == m.repository;
    }
    forall k: (string, string) | k.1 == q.id ensures k !in w.trees {
      if k.0 in home(q.id) {
        var m :| m in q.rec.members && m.repository == k.0;
        assert k == (m.repository, q.id);
      }
    }
  }
}
