/** Why the two premises are needed. Locks are taken per repository and not per id, so two creates of
    one id over different repositories do not see each other; and names are generated from texts that
    may hold hyphens, so two contexts can be given one name. */
module ManagedPremises {
  import opened Options
  import opened Names
  import opened NameOrder
  import opened Lifecycle
  import opened Managed
  import opened ManagedInvariant
  import opened ManagedTheorems
  import opened ManagedRecovery

  lemma OneLock(r: string)
    ensures LockNames([r]) == [r]
  {
    assert [r][1..] == [];
  }

  lemma RunThree(w: World, a: Label, w1: World, b: Label, w2: World, c: Label, w3: World)
    requires Apply(w, a) == Some(w1) && Apply(w1, b) == Some(w2) && Apply(w2, c) == Some(w3)
    ensures Run(w, [a, b, c]) == Some(w3)
  {
    hide Apply;
    assert [a, b, c][1..] == [b, c] && [b, c][1..] == [c] && [c][1..] == [];
    assert Run(w2, [c]) == Run(w3, []);
    assert Run(w1, [b, c]) == Run(w2, [c]);
  }

  /** The process that is about to write the record of a new context over one repository. */
  function AboutToCreate(id: string, r: string, revision: string): Process
    requires |revision| == FULL_SHA
  {
    var members := PinnedMembers(id, [r], [revision]);
    ContextRun(Create([r]), id, [r], 1, Record(members, Creating), LockNames(RepositoriesOf(members)), Write(Creating))
  }

  /** Nothing but the lock of its own repository stands between a create and its record write. */
  lemma CreateGetsThere(w: World, p: nat, id: string, r: string, revision: string)
    requires p !in w.processes && !ServerRuns(w) && LockFree(w, r)
    requires id !in w.records && r in w.repositories
    requires r in w.clones && w.clones[r].Whole? && revision in w.clones[r].commits && |revision| == FULL_SHA
    requires ValidName(id) && !HasDotDot(id) && ValidName(r)
    ensures Run(w, [StartContext(p, Create([r]), id), Acquire(p), Act(p, Resolved([revision]))]) ==
            Some(Goto(w, p, AboutToCreate(id, r, revision)))
  {
    hide ValidName, HasDotDot, PinnedMembers, RepositoriesOf, LockNames, ServerRuns;
    OneLock(r);
    var q0 := ContextRun(Create([r]), id, [r], 0, NO_RECORD, [], Locking);
    var w1 := Goto(w, p, q0);
    assert Apply(w, StartContext(p, Create([r]), id)) == Some(w1);
    assert Holds(q0) == {};
    assert LockFree(w1, r);
    var w2 := Goto(w1, p, q0.(held := 1, pc := Check));
    assert Apply(w1, Acquire(p)) == Some(w2);
    var w3 := Goto(w2, p, AboutToCreate(id, r, revision));
    assert Apply(w2, Act(p, Resolved([revision]))) == Some(w3);
    assert w3 == Goto(w, p, AboutToCreate(id, r, revision));
    RunThree(w, StartContext(p, Create([r]), id), w1, Acquire(p), w2, Act(p, Resolved([revision])), w3);
  }

  /** Two creates of one id over two repositories, run side by side: the second record write
      replaces the members of a record that was never deleted. */
  lemma OneIdTwoHomes(w: World, id: string, a: string, b: string, va: string, vb: string) returns (before: World, l: Label)
    requires w.processes == map[] && id !in w.records && a != b
    requires a in w.repositories && b in w.repositories && a in w.clones && b in w.clones
    requires w.clones[a].Whole? && va in w.clones[a].commits && |va| == FULL_SHA
    requires w.clones[b].Whole? && vb in w.clones[b].commits && |vb| == FULL_SHA
    requires ValidName(id) && !HasDotDot(id) && ValidName(a) && ValidName(b)
    ensures exists labels :: Run(w, labels) == Some(before)
    ensures Apply(before, l).Some?
    ensures id in before.records && id in Apply(before, l).value.records
    ensures Apply(before, l).value.records[id].members != before.records[id].members
  {
    hide ValidName, HasDotDot, Run, Apply, LockNames, OnlyMoves, DoWrite;
    CreateGetsThere(w, 0, id, a, va);
    var first := Goto(w, 0, AboutToCreate(id, a, va));
    OthersHold(id, a, va, b);
    CreateGetsThere(first, 1, id, b, vb);
    var both := Goto(first, 1, AboutToCreate(id, b, vb));
    before := DoWrite(both, 0, both.processes[0], Creating);
    l := Act(1, Done);
    var s1 := [StartContext(0, Create([a]), id), Acquire(0), Act(0, Resolved([va]))];
    var s2 := [StartContext(1, Create([b]), id), Acquire(1), Act(1, Resolved([vb]))];
    RunAppend(w, s1, s2);
    RunAppend(w, s1 + s2, [Act(0, Done)]);
    RunOne(both, Act(0, Done));
    FilesItsOwn(both, 0, id, a, va);
    assert Run(w, s1 + s2 + [Act(0, Done)]) == Some(before);
    assert before.processes[1] == AboutToCreate(id, b, vb);
    FilesItsOwn(before, 1, id, b, vb);
  }

  /** Filing a record asks nothing of what is filed under the id already. */
  lemma FilesItsOwn(w: World, p: nat, id: string, r: string, v: string)
    requires |v| == FULL_SHA && p in w.processes && w.processes[p] == AboutToCreate(id, r, v)
    ensures Apply(w, Act(p, Done)) == Some(DoWrite(w, p, w.processes[p], Creating))
    ensures var w' := DoWrite(w, p, w.processes[p], Creating);
            && id in w'.records && w'.records[id].members[0].repository == r
            && forall o :: o in w.processes && o != p ==> o in w'.processes && w'.processes[o] == w.processes[o]
  {
    hide LockNames, OnlyMoves;
  }

  lemma OthersHold(id: string, a: string, va: string, b: string)
    requires a != b && |va| == FULL_SHA
    ensures b !in Holds(AboutToCreate(id, a, va))
  {
    hide LockNames;
  }

  // ---------------------------------------------------------------- when names are fresh

  lemma Dashed(x: string, y: string)
    ensures !NoHyphen(x + "-" + y)
  {
    assert (x + "-" + y)[|x|] == '-';
  }

  /** Hyphen-free names are a discipline that makes the other premise true: records of two ids never
      clash, neither in a graph nor in a branch of one clone. */
  lemma HyphenFreeApart(id: string, members: seq<Member>, i: nat, id': string, members': seq<Member>, j: nat)
    requires VerifyIdentity(id, members) && VerifyIdentity(id', members') && i < |members| && j < |members'|
    requires id != id' && NoHyphen(id) && NoHyphen(id')
    requires NoHyphen(members[i].repository) && NoHyphen(members'[j].repository)
    ensures Apart(members[i], members'[j])
  {
    assert Identified(id, members, i) && Identified(id', members', j);
    var m, n := members[i], members'[j];
    if m.graphRef == n.graphRef {
      GraphRefRecovers(id, m.repository, m.revision, id', n.repository, n.revision);
    }
    Dashed(m.repository, id);
    Dashed(m.repository, id');
    if m.repository == n.repository && m.branch == n.branch {
      var one, other := |members| > 1, |members'| > 1;
      if one == other {
        SearchRefDetermines(one, m.repository, id, m.revision, id', n.revision);
      } else if one {
        SearchRefClash(m.repository, id', n.revision, id, m.revision);
      } else {
        SearchRefClash(m.repository, id, m.revision, id', n.revision);
      }
    }
  }

  // ---------------------------------------------------------------- when names clash

  /** Adding a repository under a free name. */
  lemma AddsRepository(home: Homes, w: World, p: nat, r: string, commits: set<string>) returns (labels: seq<Label>, end: World)
    requires p !in w.processes && ValidName(r) && LockFree(w, r) && r !in w.repositories && r !in w.clones
    ensures DisciplinedRun(home, w, labels) && Run(w, labels) == Some(end)
    ensures end == w.(repositories := w.repositories[r := RepositoryReady], clones := w.clones[r := Whole(commits, map[])])
  {
    var q := RepositoryRun(Add, r, Waiting);
    var w1, w2, w3 := Goto(w, p, q), Goto(w, p, q.(rpc := Inspect)), Goto(w, p, q.(rpc := Clone_));
    var w4 := Goto(w.(clones := w.clones[r := Whole(commits, map[])]), p, q.(rpc := File(RepositoryReady)));
    end := w.(repositories := w.repositories[r := RepositoryReady], clones := w.clones[r := Whole(commits, map[])]);
    AddSteps(w, p, r, commits);
    hide Apply, Run, DisciplinedRun, ValidName, LockFree;
    NoMore(home, end);
    FirstStep(home, w4, Act(p, Done), end, [], end);
    FirstStep(home, w3, Act(p, Fetched(commits)), w4, [Act(p, Done)] + [], end);
    FirstStep(home, w2, Act(p, Done), w3, [Act(p, Fetched(commits))] + ([Act(p, Done)] + []), end);
    FirstStep(home, w1, Acquire(p), w2, [Act(p, Done)] + ([Act(p, Fetched(commits))] + ([Act(p, Done)] + [])), end);
    labels := [Acquire(p)] + ([Act(p, Done)] + ([Act(p, Fetched(commits))] + ([Act(p, Done)] + [])));
    FirstStep(home, w, StartRepository(p, Add, r), w1, labels, end);
    labels := [StartRepository(p, Add, r)] + labels;
  }

  lemma AddSteps(w: World, p: nat, r: string, commits: set<string>)
    requires p !in w.processes && ValidName(r) && LockFree(w, r) && r !in w.repositories && r !in w.clones
    ensures var q := RepositoryRun(Add, r, Waiting);
            var w1, w2, w3 := Goto(w, p, q), Goto(w, p, q.(rpc := Inspect)), Goto(w, p, q.(rpc := Clone_));
            var cloned := w.(clones := w.clones[r := Whole(commits, map[])]);
            var w4 := Goto(cloned, p, q.(rpc := File(RepositoryReady)));
            && Apply(w, StartRepository(p, Add, r)) == Some(w1) && Apply(w1, Acquire(p)) == Some(w2) && Apply(w2, Act(p, Done)) == Some(w3)
            && Apply(w3, Act(p, Fetched(commits))) == Some(w4)
            && Apply(w4, Act(p, Done)) == Some(cloned.(repositories := w.repositories[r := RepositoryReady]))
  {
    hide ValidName, Apply, LockFree;
    var q := RepositoryRun(Add, r, Waiting);
    AddStarts(w, p, r);
    AddInspects(w, p, r);
    AddClones(w, p, r, commits);
    AddFiles(w.(clones := w.clones[r := Whole(commits, map[])]), p, r);
  }

  lemma AddStarts(w: World, p: nat, r: string)
    requires p !in w.processes && ValidName(r) && LockFree(w, r)
    ensures var q := RepositoryRun(Add, r, Waiting);
            Apply(w, StartRepository(p, Add, r)) == Some(Goto(w, p, q)) && Apply(Goto(w, p, q), Acquire(p)) == Some(Goto(w, p, q.(rpc := Inspect)))
  {
    hide ValidName;
    var q := RepositoryRun(Add, r, Waiting);
    Alone(w.processes, p, q, q.(rpc := Inspect));
    assert LockFree(Goto(w, p, q), r);
    hide LockFree;
  }

  lemma AddInspects(w: World, p: nat, r: string)
    requires p !in w.processes && r !in w.repositories
    ensures Apply(Goto(w, p, RepositoryRun(Add, r, Inspect)), Act(p, Done)) == Some(Goto(w, p, RepositoryRun(Add, r, Clone_)))
  {
    Alone(w.processes, p, RepositoryRun(Add, r, Inspect), RepositoryRun(Add, r, Clone_));
    hide ActClone, ActFetch, OnlyMoves;
  }

  lemma AddClones(w: World, p: nat, r: string, commits: set<string>)
    requires p !in w.processes && r !in w.clones
    ensures Apply(Goto(w, p, RepositoryRun(Add, r, Clone_)), Act(p, Fetched(commits))) ==
            Some(Goto(w.(clones := w.clones[r := Whole(commits, map[])]), p, RepositoryRun(Add, r, File(RepositoryReady))))
  {
    Alone(w.processes, p, RepositoryRun(Add, r, Clone_), RepositoryRun(Add, r, File(RepositoryReady)));
    hide ActFetch, OnlyMoves;
  }

  lemma AddFiles(w: World, p: nat, r: string)
    requires p !in w.processes
    ensures Apply(Goto(w, p, RepositoryRun(Add, r, File(RepositoryReady))), Act(p, Done)) ==
            Some(w.(repositories := w.repositories[r := RepositoryReady]))
  {
    Alone(w.processes, p, RepositoryRun(Add, r, File(RepositoryReady)), RepositoryRun(Add, r, Waiting));
    hide ActClone, ActFetch, OnlyMoves;
  }

  /** READY can be reached: from an empty data directory, two repositories of one commit, and a context
      over the first of them. */
  lemma ReadyReachable(home: Homes, id: string, r: string, s: string, v: string) returns (labels: seq<Label>, end: World)
    requires ValidName(id) && !HasDotDot(id) && ValidName(r) && ValidName(s) && r != s && |v| == FULL_SHA
    requires forall x :: x in home(id) <==> x == r
    ensures DisciplinedRun(home, EMPTY, labels) && Run(EMPTY, labels) == Some(end) && Reachable(home, end)
    ensures end.records == map[id := Record(PinnedMembers(id, [r], [v]), Ready)] && end.processes == map[]
    ensures Resolves(end, r, v) && Resolves(end, s, v)
    ensures Built(end, id, PinnedMembers(id, [r], [v])[0])
  {
    hide Inv, Run, DisciplinedRun, CanCreate, Undisputed, ValidName, HasDotDot, PinnedMembers, Built;
    assert LockFree(EMPTY, r) && LockFree(EMPTY, s);
    var first, w1 := AddsRepository(home, EMPTY, 0, r, {v});
    assert LockFree(w1, s);
    var second, w2 := AddsRepository(home, w1, 0, s, {v});
    Chain(home, EMPTY, first, w1, second, w2);
    EmptyInOrder(home);
    CreatableThere(home, w2, id, r, v);
    RunInv(home, EMPTY, first + second);
    var third, w3 := CreateAlone(home, w2, 0, id, [r], [v]);
    Chain(home, EMPTY, first + second, w2, third, w3);
    labels, end := first + second + third, w3;
    RunInv(home, EMPTY, labels);
    ReadyBuilt(home, end, id);
    OnlyOne(w2, end, id);
  }

  lemma EmptyInOrder(home: Homes)
    ensures Inv(home, EMPTY)
  {}

  lemma CreatableThere(home: Homes, w: World, id: string, r: string, v: string)
    requires ValidName(id) && !HasDotDot(id) && ValidName(r) && |v| == FULL_SHA && w.records == map[] && w.processes == map[]
    requires (forall x :: x in home(id) <==> x == r) && Resolves(w, r, v)
    ensures CanCreate(home, w, id, [r], [v]) && Undisputed(home, w, 0, id)
  {
    hide PinnedMembers, ValidName, HasDotDot;
  }

  lemma OnlyOne(w: World, end: World, id: string)
    requires w.records == map[] && w.processes == map[] && LeavesAlone(w, end, 0, id) && id in end.records && 0 !in end.processes
    ensures end.records == map[id := end.records[id]] && end.processes == map[]
  {
    forall d | d in end.records ensures d == id { assert d != id ==> Same(w.records, end.records, d); }
    assert end.processes == end.processes - {0};
  }

  /** A removal of a context over one repository, up to where its graph is deleted. */
  lemma RemoveDropsGraph(w: World, id: string, m: Member, s: Stage) returns (labels: seq<Label>, end: World)
    requires w.processes == map[] && id in w.records && w.records[id] == Record([m], s)
    ensures Run(w, labels) == Some(end)
    ensures end.records == w.records[id := Record([m], Removing)] && end.graphs == w.graphs - {m.graphRef}
  {
    var r := m.repository;
    OneLock(r);
    assert RepositoriesOf([m]) == [r];
    var q0 := ContextRun(Remove, id, [r], 0, NO_RECORD, [], Locking);
    var q1 := q0.(held := 1, pc := Check);
    var q2 := q1.(rec := Record([m], s), order := [r], pc := Write(Removing));
    var q3 := q2.(rec := Record([m], Removing), pc := DropGraph(0));
    var w1, w2, w3 := Goto(w, 0, q0), Goto(w, 0, q1), Goto(w, 0, q2);
    var filed := w.(records := w.records[id := Record([m], Removing)]);
    var w4 := Goto(filed, 0, q3);
    end := Goto(filed.(graphs := w.graphs - {m.graphRef}), 0, q3.(pc := DropTree(0)));
    labels := [StartContext(0, Remove, id)] + ([Acquire(0)] + ([Act(0, Done)] + ([Act(0, Done)] + ([Act(0, Done)] + []))));
    RemoveSteps(w, id, m, s, q0, q1, q2, q3);
    hide Apply, Run, LockNames, RepositoriesOf;
    RunCons(w4, Act(0, Done), end, []);
    RunNil(end);
    RunCons(w3, Act(0, Done), w4, [Act(0, Done)] + []);
    RunCons(w2, Act(0, Done), w3, [Act(0, Done)] + ([Act(0, Done)] + []));
    RunCons(w1, Acquire(0), w2, [Act(0, Done)] + ([Act(0, Done)] + ([Act(0, Done)] + [])));
    RunCons(w, StartContext(0, Remove, id), w1, [Acquire(0)] + ([Act(0, Done)] + ([Act(0, Done)] + ([Act(0, Done)] + []))));
  }

  lemma RunNil(w: World)
    ensures Run(w, []) == Some(w)
  {}

  lemma RunCons(w: World, l: Label, next: World, rest: seq<Label>)
    requires Apply(w, l) == Some(next)
    ensures Run(w, [l] + rest) == Run(next, rest)
  {
    hide Apply;
    assert ([l] + rest)[1..] == rest;
  }

  lemma RemoveSteps(w: World, id: string, m: Member, s: Stage, q0: Process, q1: Process, q2: Process, q3: Process)
    requires w.processes == map[] && id in w.records && w.records[id] == Record([m], s)
    requires LockNames([m.repository]) == [m.repository] && RepositoriesOf([m]) == [m.repository]
    requires q0 == ContextRun(Remove, id, [m.repository], 0, NO_RECORD, [], Locking) && q1 == q0.(held := 1, pc := Check)
    requires q2 == q1.(rec := Record([m], s), order := [m.repository], pc := Write(Removing))
    requires q3 == q2.(rec := Record([m], Removing), pc := DropGraph(0))
    ensures var w1, w2, w3 := Goto(w, 0, q0), Goto(w, 0, q1), Goto(w, 0, q2);
            var filed := w.(records := w.records[id := Record([m], Removing)]);
            var w4 := Goto(filed, 0, q3);
            && Apply(w, StartContext(0, Remove, id)) == Some(w1) && Apply(w1, Acquire(0)) == Some(w2) && Apply(w2, Act(0, Done)) == Some(w3)
            && Apply(w3, Act(0, Done)) == Some(w4)
            && Apply(w4, Act(0, Done)) == Some(Goto(filed.(graphs := w.graphs - {m.graphRef}), 0, q3.(pc := DropTree(0))))
  {
    hide Apply, LockNames, RepositoriesOf;
    RemoveStarts(w, id, m, q0);
    RemoveReads(w, id, m, s, q1);
    RemoveWrites(w, id, m, s, q2);
    RemoveDrops(w.(records := w.records[id := Record([m], Removing)]), m, q3);
  }

  lemma RemoveStarts(w: World, id: string, m: Member, q0: Process)
    requires w.processes == map[] && id in w.records && w.records[id].members == [m]
    requires LockNames([m.repository]) == [m.repository] && RepositoriesOf([m]) == [m.repository]
    requires q0 == ContextRun(Remove, id, [m.repository], 0, NO_RECORD, [], Locking)
    ensures Apply(w, StartContext(0, Remove, id)) == Some(Goto(w, 0, q0))
    ensures Apply(Goto(w, 0, q0), Acquire(0)) == Some(Goto(w, 0, q0.(held := 1, pc := Check)))
  {
    hide LockNames, RepositoriesOf;
    assert !ServerRuns(w);
    assert Holds(q0) == {};
    Alone(w.processes, 0, q0, q0.(held := 1, pc := Check));
    assert LockFree(Goto(w, 0, q0), m.repository);
    hide LockFree, ServerRuns;
  }

  lemma RemoveReads(w: World, id: string, m: Member, s: Stage, q1: Process)
    requires 0 !in w.processes && id in w.records && w.records[id] == Record([m], s)
    requires LockNames([m.repository]) == [m.repository] && RepositoriesOf([m]) == [m.repository]
    requires q1.ContextRun? && q1.op == Remove && q1.id == id && q1.pc == Check
    ensures Apply(Goto(w, 0, q1), Act(0, Done)) == Some(Goto(w, 0, q1.(rec := Record([m], s), order := [m.repository], pc := Write(Removing))))
  {
    hide LockNames, RepositoriesOf, OnlyMoves;
    Alone(w.processes, 0, q1, q1.(rec := Record([m], s), order := [m.repository], pc := Write(Removing)));
  }

  lemma RemoveWrites(w: World, id: string, m: Member, s: Stage, q2: Process)
    requires 0 !in w.processes && q2.ContextRun? && q2.op == Remove && q2.id == id && q2.pc == Write(Removing) && q2.rec == Record([m], s)
    ensures Apply(Goto(w, 0, q2), Act(0, Done)) ==
            Some(Goto(w.(records := w.records[id := Record([m], Removing)]), 0, q2.(rec := Record([m], Removing), pc := DropGraph(0))))
  {
    hide OnlyMoves;
    Alone(w.processes, 0, q2, q2.(rec := Record([m], Removing), pc := DropGraph(0)));
  }

  lemma RemoveDrops(w: World, m: Member, q3: Process)
    requires 0 !in w.processes && q3.ContextRun? && q3.op == Remove && q3.pc == DropGraph(0) && q3.rec.members == [m]
    ensures Apply(Goto(w, 0, q3), Act(0, Done)) == Some(Goto(w.(graphs := w.graphs - {m.graphRef}), 0, q3.(pc := DropTree(0))))
  {
    hide OnlyMoves, Leave;
    Alone(w.processes, 0, q3, q3.(pc := DropTree(0)));
  }

  /** A create that is killed right after it has filed its record, whatever names that record carries. */
  lemma CreateIsKilled(w: World, id: string, r: string, v: string) returns (labels: seq<Label>, end: World)
    requires w.processes == map[] && id !in w.records && Resolves(w, r, v) && |v| == FULL_SHA
    requires ValidName(id) && !HasDotDot(id) && ValidName(r)
    ensures Run(w, labels) == Some(end)
    ensures end == w.(records := w.records[id := Record(PinnedMembers(id, [r], [v]), Creating)])
  {
    hide ValidName, HasDotDot, Run, LockNames;
    CreateGetsThere(w, 0, id, r, v);
    var filing := Goto(w, 0, AboutToCreate(id, r, v));
    var start := [StartContext(0, Create([r]), id), Acquire(0), Act(0, Resolved([v]))];
    var filed := DoWrite(filing, 0, filing.processes[0], Creating);
    end := Exit(filed, 0);
    labels := start + ([Act(0, Done)] + ([Crash(0)] + []));
    RunAppend(w, start, [Act(0, Done)] + ([Crash(0)] + []));
    RunNil(end);
    RunCons(filed, Crash(0), end, []);
    RunCons(filing, Act(0, Done), filed, [Crash(0)] + []);
    assert end.processes == w.processes;
  }

  function HyphenHome(): Homes {
    id => if id == "b-c" then {"a"} else {}
  }

  /** Why the premise of fresh names is needed: from an empty data directory, the context b-c of a
      repository a is READY and built; the context c of a repository a-b, at the commit the two share, is
      filed and removed; and b-c is READY without its graph. */
  lemma HyphensLoseGraph(v: string) returns (labels: seq<Label>, end: World)
    requires |v| == FULL_SHA
    ensures Run(EMPTY, labels) == Some(end)
    ensures "b-c" in end.records && end.records["b-c"] == Record(PinnedMembers("b-c", ["a"], [v]), Ready)
    ensures !Built(end, "b-c", end.records["b-c"].members[0])
  {
    hide PinnedMembers, Built, DisciplinedRun, Run, Reachable;
    HyphenNames(v);
    hide ValidName, HasDotDot;
    var first, w := ReadyReachable(HyphenHome(), "b-c", "a", "a-b", v);
    var second, filed := CreateIsKilled(w, "c", "a-b", v);
    var m := PinnedMembers("c", ["a-b"], [v])[0];
    assert PinnedMembers("c", ["a-b"], [v]) == [m];
    var third, last := RemoveDropsGraph(filed, "c", m, Creating);
    RunAppend(EMPTY, first, second);
    RunAppend(EMPTY, first + second, third);
    labels, end := first + second + third, last;
    NotBuilt(end, "b-c", PinnedMembers("b-c", ["a"], [v])[0]);
  }

  lemma NotBuilt(w: World, id: string, m: Member)
    requires m.graphRef !in w.graphs
    ensures !Built(w, id, m)
  {}

  lemma HyphenNames(v: string)
    requires |v| == FULL_SHA
    ensures ValidName("a") && ValidName("b-c") && ValidName("a-b") && ValidName("c")
    ensures !HasDotDot("b-c") && !HasDotDot("c")
    ensures PinnedMembers("b-c", ["a"], [v])[0].graphRef == PinnedMembers("c", ["a-b"], [v])[0].graphRef
  {
    HyphensClash(v);
  }
}
