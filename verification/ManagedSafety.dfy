/** The invariant holds after every step and so in every reachable state; what that means for the
    contexts, the snapshots and the repositories is stated at the end. */
module ManagedSafety {
  import opened Options
  import opened Names
  import opened NameOrder
  import opened Lifecycle
  import opened Managed
  import opened ManagedInvariant
  import opened ManagedProofs
  import opened ManagedSteps
  import opened ManagedIndexing

  // ---------------------------------------------------------------- one acting process

  lemma ContextStep(home: Homes, w: World, p: nat, q: Process, out: Outcome)
    requires GlobalOk(home, w) && p in w.processes && w.processes[p] == q && q.ContextRun? && LocalOk(home, w, q)
    requires ActContext(w, p, q, out).Some?
    requires q.pc == Write(Creating) ==> FreshNames(w, q)
    ensures Kept(home, w, ActContext(w, p, q, out).value, p, q)
  {
    hide GlobalOk, LocalOk, Kept, FreshNames, DoCheck, DoWrite, DoPrepare, DoIndex, DoGraph, DoVerify, DoDropGraph, DoDropTree, DoDropRef;
    match q.pc
    case Locking =>
    case Check => CheckStep(home, w, p, q, out);
    case Write(s) => WriteStep(home, w, p, q, s);
    case Prepare(i) => PrepareStep(home, w, p, q, i, out);
    case Index(i, sub) => IndexStep(home, w, p, q, i, sub, out);
    case BuildGraph(i) => GraphStep(home, w, p, q, i, out);
    case Verify(i) => VerifyStep(home, w, p, q, i, out);
    case DropGraph(i) => DropGraphStep(home, w, p, q, i, out);
    case DropTree(i) => DropTreeStep(home, w, p, q, i, out);
    case DropRef(i) => DropRefStep(home, w, p, q, i, out);
    case Delete => DeleteStep(home, w, p, q);
  }

  /** What a step of a repository operation keeps. */
  ghost predicate RepositoryKept(home: Homes, w: World, w': World, p: nat, q: Process)
    requires q.RepositoryRun?
  {
    && GlobalOk(home, w')
    && Frame(home, w, w', Holds(q), "")
    && w'.records == w.records
    && (w'.processes == w.processes - {p} ||
        exists rpc: RepositoryPc :: !rpc.Waiting? && w'.processes == w.processes[p := q.(rpc := rpc)] && LocalOk(home, w', q.(rpc := rpc)))
  }

  lemma RepositoryGoes(home: Homes, w: World, w': World, p: nat, q: Process, rpc: RepositoryPc)
    requires q.RepositoryRun? && !rpc.Waiting? && GlobalOk(home, w') && Frame(home, w, w', Holds(q), "") && w'.records == w.records
    requires w'.processes == w.processes[p := q.(rpc := rpc)] && LocalOk(home, w', q.(rpc := rpc))
    ensures RepositoryKept(home, w, w', p, q)
  {}

  lemma RepositoryEnds(home: Homes, w: World, w': World, p: nat, q: Process)
    requires q.RepositoryRun? && GlobalOk(home, w') && Frame(home, w, w', Holds(q), "") && w'.records == w.records
    requires w'.processes == w.processes - {p}
    ensures RepositoryKept(home, w, w', p, q)
  {}

  /** A clone nobody's context is in may change in any way that leaves no search ref behind. */
  lemma UnusedClone(home: Homes, w: World, w': World, q: Process, r: string)
    requires GlobalOk(home, w) && w' == w.(clones := w'.clones, processes := w'.processes)
    requires forall s :: s != r ==> Same(w.clones, w'.clones, s)
    requires forall id :: id in w.records ==> r !in RepositoriesOf(w.records[id].members)
    requires r in w'.clones && w'.clones[r].Whole? ==> w'.clones[r].refs == map[]
    requires r in Holds(q)
    ensures GlobalOk(home, w') && Frame(home, w, w', Holds(q), "")
  {
    forall id, m | id in w.records && m in w.records[id].members ensures m.repository != r {
      var i :| 0 <= i < |w.records[id].members| && w.records[id].members[i] == m;
      assert RepositoriesOf(w.records[id].members)[i] == m.repository;
    }
    CloneChange(home, w, w', r);
  }

  lemma NobodyNames(home: Homes, w: World, r: string)
    requires GlobalOk(home, w) && r !in w.repositories
    ensures forall id :: id in w.records ==> r !in RepositoriesOf(w.records[id].members)
  {
    forall id | id in w.records ensures r !in RepositoriesOf(w.records[id].members) {
      var names := RepositoriesOf(w.records[id].members);
      forall i | 0 <= i < |names| ensures names[i] != r {
        assert Backed(w.repositories, w.clones, w.records[id].members[i]);
      }
    }
  }

  /** A fetch adds commits and moves no search ref. */
  lemma FetchedClone(home: Homes, w: World, w': World, q: Process, r: string, commits: set<string>)
    requires GlobalOk(home, w) && r in w.clones && w.clones[r].Whole? && r in Holds(q)
    requires w' == w.(clones := w.clones[r := w.clones[r].(commits := w.clones[r].commits + commits)], processes := w'.processes)
    ensures GlobalOk(home, w') && Frame(home, w, w', Holds(q), "")
  {
    forall id, m | id in w.records && m in w.records[id].members && m.repository == r
      ensures HasCommit(w'.clones, m) && (w.records[id].state == Ready ==> HasRef(w'.clones, m))
    {
      assert Backed(w.repositories, w.clones, m);
      assert w.records[id].state == Ready ==> HasRef(w.clones, m);
    }
    forall b | b in w'.clones[r].refs ensures NamesBranch(w.records, r, b) {
      assert b in w.clones[r].refs;
    }
    CloneChange(home, w, w', r);
  }

  lemma AddStep(home: Homes, w: World, p: nat, q: Process, out: Outcome)
    requires GlobalOk(home, w) && p in w.processes && w.processes[p] == q && q.RepositoryRun? && LocalOk(home, w, q)
    requires q.rpc.Clone_? && q.rop == Add && ActClone(w, p, q, out).Some?
    ensures RepositoryKept(home, w, ActClone(w, p, q, out).value, p, q)
  {
    hide GlobalOk, Frame, RepositoryKept, RepositoriesOf;
    var w' := ActClone(w, p, q, out).value;
    NobodyNames(home, w, q.name);
    if out.Fetched? || (q.name !in w.clones && out.left.Some?) {
      UnusedClone(home, w, w', q, q.name);
    } else {
      OnlyProcesses(home, w, w', Holds(q), "");
    }
    RepositoryGoes(home, w, w', p, q, w'.processes[p].rpc);
  }

  lemma SyncStep(home: Homes, w: World, p: nat, q: Process, out: Outcome)
    requires GlobalOk(home, w) && p in w.processes && w.processes[p] == q && q.RepositoryRun? && LocalOk(home, w, q)
    requires q.rpc.Clone_? && q.rop == Sync && ActFetch(w, p, q, out).Some?
    ensures RepositoryKept(home, w, ActFetch(w, p, q, out).value, p, q)
  {
    hide GlobalOk, Frame, RepositoryKept;
    var w' := ActFetch(w, p, q, out).value;
    if out.Fetched? {
      FetchedClone(home, w, w', q, q.name, out.commits);
      RepositoryGoes(home, w, w', p, q, File(RepositoryReady));
    } else {
      OnlyProcesses(home, w, w', Holds(q), "");
      if out.left.None? {
        RepositoryEnds(home, w, w', p, q);
      } else {
        RepositoryGoes(home, w, w', p, q, File(RepositoryFailed));
      }
    }
  }

  lemma ForgetStep(home: Homes, w: World, p: nat, q: Process, out: Outcome)
    requires GlobalOk(home, w) && p in w.processes && w.processes[p] == q && q.RepositoryRun? && LocalOk(home, w, q)
    requires q.rpc.Clone_? && q.rop == Forget && ActRepository(w, p, q, out).Some?
    ensures RepositoryKept(home, w, ActRepository(w, p, q, out).value, p, q)
  {
    hide GlobalOk, Frame, RepositoryKept, RepositoriesOf;
    var w' := ActRepository(w, p, q, out).value;
    UnusedClone(home, w, w', q, q.name);
    if out.Broken? {
      RepositoryEnds(home, w, w', p, q);
    } else {
      RepositoryGoes(home, w, w', p, q, File(RepositoryReady));
    }
  }

  lemma InspectStep(home: Homes, w: World, p: nat, q: Process, out: Outcome)
    requires GlobalOk(home, w) && p in w.processes && w.processes[p] == q && q.RepositoryRun? && LocalOk(home, w, q)
    requires q.rpc.Inspect? && ActRepository(w, p, q, out).Some?
    ensures RepositoryKept(home, w, ActRepository(w, p, q, out).value, p, q)
  {
    hide GlobalOk, Frame, RepositoryKept, RepositoriesOf;
    var w' := ActRepository(w, p, q, out).value;
    OnlyProcesses(home, w, w', Holds(q), "");
    if w'.processes == w.processes - {p} {
      RepositoryEnds(home, w, w', p, q);
    } else {
      if q.rop == Forget {
        forall id | id in w.records ensures q.name !in RepositoriesOf(w.records[id].members) {
          assert id !in ContextsOf(w.records, q.name);
        }
      }
      RepositoryGoes(home, w, w', p, q, Clone_);
    }
  }

  lemma FileTables(home: Homes, w: World, w': World, q: Process, r: string)
    requires GlobalOk(home, w) && w' == w.(repositories := w'.repositories, processes := w'.processes)
    requires forall s :: s != r ==> Same(w.repositories, w'.repositories, s)
    requires r in w'.repositories || forall id :: id in w.records ==> r !in RepositoriesOf(w.records[id].members)
    requires r in Holds(q)
    ensures GlobalOk(home, w') && Frame(home, w, w', Holds(q), "")
  {
    hide GlobalOk;
    RepositoryChange(home, w, w', r);
  }

  lemma FileStep(home: Homes, w: World, p: nat, q: Process, out: Outcome)
    requires GlobalOk(home, w) && p in w.processes && w.processes[p] == q && q.RepositoryRun? && LocalOk(home, w, q)
    requires q.rpc.File? && ActRepository(w, p, q, out).Some?
    ensures RepositoryKept(home, w, ActRepository(w, p, q, out).value, p, q)
  {
    hide GlobalOk, Frame, RepositoryKept, RepositoriesOf, Holds, ActRepository, LocalOk;
    var w' := ActRepository(w, p, q, out).value;
    FileShape(home, w, p, q, out);
    FileTables(home, w, w', q, q.name);
    RepositoryEnds(home, w, w', p, q);
  }

  lemma FileShape(home: Homes, w: World, p: nat, q: Process, out: Outcome)
    requires q.RepositoryRun? && q.rpc.File? && LocalOk(home, w, q)
    ensures q.name in Holds(q)
    ensures ActRepository(w, p, q, out) == Some(Exit(w.(repositories :=
              if q.rop == Forget then w.repositories - {q.name} else w.repositories[q.name := q.rpc.state]), p))
    ensures q.rop == Forget ==> forall id :: id in w.records ==> q.name !in RepositoriesOf(w.records[id].members)
  {}

  lemma RepositoryStep(home: Homes, w: World, p: nat, q: Process, out: Outcome)
    requires GlobalOk(home, w) && p in w.processes && w.processes[p] == q && q.RepositoryRun? && LocalOk(home, w, q)
    requires ActRepository(w, p, q, out).Some?
    ensures RepositoryKept(home, w, ActRepository(w, p, q, out).value, p, q) && !q.rpc.Waiting?
  {
    hide GlobalOk, LocalOk, RepositoryKept;
    match q.rpc
    case Waiting =>
    case Inspect => InspectStep(home, w, p, q, out);
    case Clone_ =>
      match q.rop {
        case Add => AddStep(home, w, p, q, out);
        case Sync => SyncStep(home, w, p, q, out);
        case Forget => ForgetStep(home, w, p, q, out);
      }
    case File(_) => FileStep(home, w, p, q, out);
  }

  // ---------------------------------------------------------------- everybody else

  /** A step of a context operation leaves every other process knowing what it knew. */
  lemma OthersAfterContext(home: Homes, w: World, w': World, p: nat, q: Process, other: Process)
    requires GlobalOk(home, w) && GlobalOk(home, w') && q.ContextRun?
    requires Frame(home, w, w', Holds(q), q.id)
    requires LocalOk(home, w, other) && Holds(other) !! Holds(q) && !HoldsServer(other)
    ensures LocalOk(home, w', other)
  {
    match other
    case ContextRun(_, _, _, _, _, _, _) =>
      hide GlobalOk, Frame, LocalOk, Holds;
      LocalFrame(home, w, w', Holds(q), q.id, other);
    case RepositoryRun(rop, r, rpc) =>
      if rop == Forget && (rpc.Clone_? || rpc.File?) {
        forall id | id in w'.records ensures r !in RepositoriesOf(w'.records[id].members) {
          StillUnnamed(home, w, w', Holds(q), q.id, r, id);
        }
      }
      if rop == Add && (rpc.Clone_? || rpc.File?) {
        assert r in Holds(other);
        assert Same(w.repositories, w'.repositories, r);
      }
    case Server(_) =>
  }

  lemma StillUnnamed(home: Homes, w: World, w': World, held: set<string>, c: string, r: string, id: string)
    requires AllWellFormed(home, w'.records) && Frame(home, w, w', held, c)
    requires r !in held && id in w'.records
    requires forall d :: d in w.records ==> r !in RepositoriesOf(w.records[d].members)
    ensures r !in RepositoriesOf(w'.records[id].members)
  {
    if id != c || !(home(c) <= held) {
      assert Same(w.records, w'.records, id);
    } else {
      var members := w'.records[id].members;
      forall i | 0 <= i < |members| ensures RepositoriesOf(members)[i] != r {
        assert members[i] in members;
        MemberAtHome(home, id, members, members[i]);
      }
    }
  }

  /** A step of a repository operation, or of none, leaves every other process knowing what it knew. */
  lemma OthersAfterRepository(home: Homes, w: World, w': World, held: set<string>, other: Process)
    requires GlobalOk(home, w) && GlobalOk(home, w')
    requires Frame(home, w, w', held, "") && w'.records == w.records
    requires LocalOk(home, w, other) && Holds(other) !! held
    ensures LocalOk(home, w', other)
  {
    match other
    case ContextRun(_, _, _, _, _, _, _) =>
      hide GlobalOk, Frame, LocalOk, Holds;
      LocalFrame(home, w, w', held, "", other);
    case RepositoryRun(rop, r, rpc) =>
      if rop == Add && (rpc.Clone_? || rpc.File?) {
        assert r in Holds(other);
        assert Same(w.repositories, w'.repositories, r);
      }
    case Server(_) =>
  }

  // ---------------------------------------------------------------- the whole step

  lemma ActContextInv(home: Homes, w: World, p: nat, out: Outcome)
    requires Inv(home, w) && p in w.processes && w.processes[p].ContextRun?
    requires ActContext(w, p, w.processes[p], out).Some?
    requires Creates(w, p) ==> FreshNames(w, w.processes[p])
    ensures Inv(home, ActContext(w, p, w.processes[p], out).value)
  {
    hide GlobalOk, LocalOk, Frame, FreshNames, ActContext, Holds;
    var q := w.processes[p];
    var w' := ActContext(w, p, q, out).value;
    ContextStep(home, w, p, q, out);
    KeptProcesses(home, w, w', p, q);
    forall o | o in w'.processes ensures LocalOk(home, w', w'.processes[o]) {
      if o != p {
        OthersAfterContext(home, w, w', p, q, w.processes[o]);
      }
    }
  }

  lemma KeptProcesses(home: Homes, w: World, w': World, p: nat, q: Process)
    requires q.ContextRun? && p in w.processes && w.processes[p] == q && Kept(home, w, w', p, q)
    ensures GlobalOk(home, w') && Frame(home, w, w', Holds(q), q.id)
    ensures forall o :: o in w'.processes ==> o in w.processes && (o != p ==> w'.processes[o] == w.processes[o])
    ensures p in w'.processes ==>
              && w'.processes[p].ContextRun? && Holds(w'.processes[p]) == Holds(q)
              && LocalOk(home, w', w'.processes[p])
  {
    hide GlobalOk, LocalOk, Frame;
  }

  lemma ActRepositoryInv(home: Homes, w: World, p: nat, out: Outcome)
    requires Inv(home, w) && p in w.processes && w.processes[p].RepositoryRun?
    requires ActRepository(w, p, w.processes[p], out).Some?
    ensures Inv(home, ActRepository(w, p, w.processes[p], out).value)
  {
    hide GlobalOk, LocalOk, Frame, ActRepository, Holds;
    var q := w.processes[p];
    var w' := ActRepository(w, p, q, out).value;
    RepositoryStep(home, w, p, q, out);
    RepositoryProcesses(home, w, w', p, q);
    forall o | o in w'.processes ensures LocalOk(home, w', w'.processes[o]) {
      if o != p {
        OthersAfterRepository(home, w, w', Holds(q), w.processes[o]);
      }
    }
  }

  lemma RepositoryProcesses(home: Homes, w: World, w': World, p: nat, q: Process)
    requires q.RepositoryRun? && p in w.processes && w.processes[p] == q && RepositoryKept(home, w, w', p, q)
    requires !q.rpc.Waiting?
    ensures GlobalOk(home, w') && Frame(home, w, w', Holds(q), "") && w'.records == w.records
    ensures forall o :: o in w'.processes ==> o in w.processes && (o != p ==> w'.processes[o] == w.processes[o])
    ensures p in w'.processes ==>
              && w'.processes[p].RepositoryRun? && w'.processes[p].rop == q.rop && Holds(w'.processes[p]) == Holds(q)
              && LocalOk(home, w', w'.processes[p])
  {
    hide GlobalOk, LocalOk, Frame;
  }

  /** Steps that change nothing but one process: starting, taking a lock, dying, serving. */
  lemma ProcessInv(home: Homes, w: World, w': World, p: nat)
    requires Inv(home, w) && w' == w.(processes := w'.processes)
    requires forall o :: o in w'.processes && o != p ==> o in w.processes && w'.processes[o] == w.processes[o]
    requires p in w'.processes ==> LocalOk(home, w', w'.processes[p])
    requires p in w'.processes ==> forall o :: o in w.processes && o != p ==>
               Holds(w.processes[o]) !! Holds(w'.processes[p]) && Compatible(w.processes[o], w'.processes[p])
    ensures Inv(home, w')
  {
    hide GlobalOk, LocalOk, Frame, Holds;
    OnlyProcesses(home, w, w', {}, "");
    forall o | o in w'.processes ensures LocalOk(home, w', w'.processes[o]) {
      if o != p {
        OthersAfterRepository(home, w, w', {}, w.processes[o]);
      }
    }
  }

  /** The data directory's lock admits these two at once. */
  predicate Compatible(q: Process, o: Process) {
    && (HoldsServer(q) ==> !HoldsManagement(o) && !HoldsServer(o))
    && (HoldsServer(o) ==> !HoldsManagement(q))
  }

  /** An operation that starts out with the locks of its context still to take. */
  lemma StartsOut(home: Homes, w: World, op: Operation, id: string, names: seq<string>)
    requires names != [] && forall r :: r in names <==> r in home(id)
    requires op.Create? ==> op.pins == names && Unrepeated(op.pins)
    ensures LocalOk(home, w, ContextRun(op, id, LockNames(names), 0, NO_RECORD, [], Locking))
    ensures Holds(ContextRun(op, id, LockNames(names), 0, NO_RECORD, [], Locking)) == {}
  {
    assert LockNames(names) != [];
  }

  lemma StartLocal(home: Homes, w: World, l: Label)
    requires GlobalOk(home, w) && (l.StartContext? || l.StartRepository? || l.StartServer?)
    requires Disciplined(home, w, l) && Start(w, l).Some?
    ensures l.p in Start(w, l).value.processes && LocalOk(home, w, Start(w, l).value.processes[l.p])
    ensures Holds(Start(w, l).value.processes[l.p]) == {}
  {
    hide GlobalOk, LockNames, Unrepeated, RepositoriesOf, HasDotDot, WorkOk;
    if l.StartContext? {
      if l.op.Create? {
        StartsOut(home, w, l.op, l.id, l.op.pins);
      } else {
        InForm(home, w, l.id);
        HomeOf(home, l.id, w.records[l.id].members);
        StartsOut(home, w, l.op, l.id, RepositoriesOf(w.records[l.id].members));
      }
    }
  }

  lemma HomeOf(home: Homes, id: string, members: seq<Member>)
    requires WellFormed(home, id, members)
    ensures RepositoriesOf(members) != []
    ensures forall r :: r in home(id) <==> r in RepositoriesOf(members)
  {
    var names := RepositoriesOf(members);
    forall r | r in names ensures r in home(id) {
      var i :| 0 <= i < |names| && names[i] == r;
      assert members[i] in members;
    }
    forall r | r in home(id) ensures r in names {
      var m :| m in members && m.repository == r;
      var i :| 0 <= i < |members| && members[i] == m;
      assert names[i] == r;
    }
  }

  lemma OthersAfterStart(home: Homes, w: World, w': World, q: Process)
    requires GlobalOk(home, w) && LocalOk(home, w, q) && Holds(q) == {} && w' == w.(processes := w'.processes)
    ensures LocalOk(home, w', q)
  {
    hide GlobalOk, LocalOk, Frame, Holds;
    OnlyProcesses(home, w, w', {}, "");
    OthersAfterRepository(home, w, w', {}, q);
  }

  lemma StartInv(home: Homes, w: World, l: Label)
    requires Inv(home, w) && (l.StartContext? || l.StartRepository? || l.StartServer?)
    requires Disciplined(home, w, l) && Start(w, l).Some?
    ensures Inv(home, Start(w, l).value)
  {
    hide GlobalOk, LockNames, LocalOk, RepositoriesOf, HasDotDot, Holds, Disciplined;
    StartLocal(home, w, l);
    var w' := Start(w, l).value;
    OthersAfterStart(home, w, w', w'.processes[l.p]);
    ProcessInv(home, w, w', l.p);
  }

  /** What taking a lock changes: a context operation moves on, a repository operation starts, or a
      server gets the data directory to itself. */
  lemma AcquiredShape(w: World, w': World, p: nat, q: Process)
    requires p in w.processes && w.processes[p] == q && TakeLock(w, p, q) == Some(w')
    ensures p in w'.processes && w' == w.(processes := w.processes[p := w'.processes[p]])
    ensures match q
            case ContextRun(_, _, want, held, _, _, _) =>
              q.pc.Locking? && held < |want| && LockFree(w, want[held]) &&
              w'.processes[p] == q.(held := held + 1, pc := if held + 1 == |want| then Check else Locking)
            case RepositoryRun(_, name, rpc) =>
              LockFree(w, name) && w'.processes[p] == q.(rpc := Inspect)
            case Server(_) =>
              !ManagementRuns(w) && !ServerRuns(w) && w'.processes[p] == Server(Locked)
  {
    hide LockFree, ManagementRuns, ServerRuns;
  }

  lemma AcquiredLocal(home: Homes, w: World, w': World, p: nat, q: Process)
    requires p in w.processes && w.processes[p] == q && LocalOk(home, w, q) && TakeLock(w, p, q) == Some(w')
    ensures p in w'.processes && LocalOk(home, w', w'.processes[p])
  {
    hide WorkOk, TakeLock, LockFree, ManagementRuns, ServerRuns, Increasing, Unrepeated, ReadyRecords, RepositoriesOf;
    AcquiredShape(w, w', p, q);
  }

  lemma AcquiredHolds(w: World, w': World, p: nat, q: Process)
    requires p in w.processes && w.processes[p] == q && TakeLock(w, p, q) == Some(w')
    ensures p in w'.processes
    ensures forall r :: r in Holds(w'.processes[p]) ==> r in Holds(q) || LockFree(w, r)
    ensures forall o :: o in w.processes && o != p && Compatible(w.processes[o], q) ==> Compatible(w.processes[o], w'.processes[p])
  {
    hide LockFree, TakeLock;
    AcquiredShape(w, w', p, q);
    if q.ContextRun? {
      assert Holds(w'.processes[p]) == Holds(q) + {q.want[q.held]};
    }
  }

  lemma AcquireInv(home: Homes, w: World, p: nat)
    requires Inv(home, w) && p in w.processes && TakeLock(w, p, w.processes[p]).Some?
    ensures Inv(home, TakeLock(w, p, w.processes[p]).value)
  {
    hide GlobalOk, LocalOk, Holds, TakeLock;
    var q := w.processes[p];
    var w' := TakeLock(w, p, q).value;
    AcquiredShape(w, w', p, q);
    AcquiredLocal(home, w, w', p, q);
    AcquiredHolds(w, w', p, q);
    ProcessInv(home, w, w', p);
  }

  /** Every step of the system keeps the invariant. */
  lemma StepInv(home: Homes, w: World, l: Label)
    requires Inv(home, w) && Disciplined(home, w, l) && Apply(w, l).Some?
    ensures Inv(home, Apply(w, l).value)
  {
    hide GlobalOk, LocalOk, Holds, ActContext, ActRepository, Start, TakeLock, FreshNames;
    match l
    case StartContext(_, _, _) => StartInv(home, w, l);
    case StartRepository(_, _, _) => StartInv(home, w, l);
    case StartServer(_) => StartInv(home, w, l);
    case Acquire(p) => AcquireInv(home, w, p);
    case Crash(p) => ProcessInv(home, w, Apply(w, l).value, p);
    case Act(p, out) =>
      match w.processes[p]
      case ContextRun(_, _, _, _, _, _, _) => ActContextInv(home, w, p, out);
      case RepositoryRun(_, _, _) => ActRepositoryInv(home, w, p, out);
      case Server(_) => ServeInv(home, w, p);
  }

  lemma ServeInv(home: Homes, w: World, p: nat)
    requires Inv(home, w) && p in w.processes && w.processes[p].Server? && ActServer(w, p, w.processes[p]).Some?
    ensures Inv(home, ActServer(w, p, w.processes[p]).value)
  {
    hide GlobalOk;
    ProcessInv(home, w, ActServer(w, p, w.processes[p]).value, p);
  }
}
