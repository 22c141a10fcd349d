/** A repository that was removed: when its record stays gone, and how a sync that was waiting brings
    it back. */
module ManagedRepository {
  import opened Options
  import opened Names
  import opened NameOrder
  import opened Lifecycle
  import opened Managed
  import opened ManagedInvariant
  import opened ManagedSafety
  import opened ManagedTheorems
  import opened ManagedRecovery
  import opened ManagedPremises

  /** An add or a sync of this repository that has been started and has not ended. */
  predicate Bound(q: Process, r: string) {
    q.RepositoryRun? && q.name == r && (q.rop == Add || q.rop == Sync)
  }

  ghost predicate InFlight(w: World, r: string) {
    exists p :: p in w.processes && Bound(w.processes[p], r)
  }

  /** No add of the repository is started. */
  predicate NoAdd(labels: seq<Label>, r: string) {
    forall i :: 0 <= i < |labels| ==> !(labels[i].StartRepository? && labels[i].rop == Add && labels[i].name == r)
  }

  // ---------------------------------------------------------------- nothing under way

  lemma StepStaysForgotten(w: World, l: Label, r: string)
    requires r !in w.repositories && !InFlight(w, r) && Apply(w, l).Some? && NoAdd([l], r)
    ensures var w' := Apply(w, l).value; r !in w'.repositories && !InFlight(w', r)
  {
    assert [l][0] == l;
    if l.Act? {
      ActStaysForgotten(w, l.p, l.out, r);
    } else {
      OneProcessOrNone(w, l, r);
      hide Apply, NoAdd, Bound;
      var w' := Apply(w, l).value;
      forall p | p in w'.processes ensures !Bound(w'.processes[p], r) {
        assert p in w.processes ==> !Bound(w.processes[p], r);
      }
    }
  }

  /** Starting, taking a lock and dying concern one process, and start no sync of what is not managed. */
  lemma OneProcessOrNone(w: World, l: Label, r: string)
    requires !l.Act? && Apply(w, l).Some? && r !in w.repositories && NoAdd([l], r)
    ensures OneOrNone(w, Apply(w, l).value, l.p, r)
  {
    hide Start, TakeLock, OneOrNone;
    assert [l][0] == l;
    match l
    case Acquire(p) => LockTaken(w, p, r);
    case Crash(p) => Died(w, p, r);
    case _ => Started(w, l, r);
  }

  ghost predicate OneOrNone(w: World, w': World, p: nat, r: string) {
    && w'.repositories == w.repositories
    && (forall o :: o in w'.processes && o != p ==> o in w.processes && w'.processes[o] == w.processes[o])
    && (p in w'.processes && Bound(w'.processes[p], r) ==> p in w.processes && Bound(w.processes[p], r))
  }

  lemma LockTaken(w: World, p: nat, r: string)
    requires p in w.processes && TakeLock(w, p, w.processes[p]).Some?
    ensures OneOrNone(w, TakeLock(w, p, w.processes[p]).value, p, r)
  {
    hide LockFree, ManagementRuns, ServerRuns;
  }

  lemma Died(w: World, p: nat, r: string)
    ensures OneOrNone(w, Exit(w, p), p, r)
  {}

  lemma Started(w: World, l: Label, r: string)
    requires (l.StartContext? || l.StartRepository? || l.StartServer?) && Start(w, l).Some? && r !in w.repositories
    requires l.StartRepository? ==> !(l.rop == Add && l.name == r)
    ensures OneOrNone(w, Start(w, l).value, l.p, r)
  {
    hide LockNames, ServerRuns, RepositoriesOf, HasDotDot, ValidName, Unrepeated;
  }

  /** Only an add or a sync of a repository files it. */
  lemma FiledByBound(w: World, p: nat, q: Process, out: Outcome, r: string)
    requires q.RepositoryRun? && !Bound(q, r) && r !in w.repositories && ActRepository(w, p, q, out).Some?
    ensures r !in ActRepository(w, p, q, out).value.repositories
  {
    if !q.rpc.File? {
      hide ActRepository;
    }
  }

  lemma StillNotBound(w: World, w': World, p: nat, r: string)
    requires p in w.processes && OnlyMoves(w, w', p, w.processes[p]) && !InFlight(w, r)
    ensures !InFlight(w', r)
  {
    assert !Bound(w.processes[p], r);
    forall o | o in w'.processes ensures !Bound(w'.processes[o], r) {
      assert o in w.processes ==> !Bound(w.processes[o], r);
    }
  }

  lemma ActStaysForgotten(w: World, p: nat, out: Outcome, r: string)
    requires r !in w.repositories && !InFlight(w, r) && Apply(w, Act(p, out)).Some?
    ensures var w' := Apply(w, Act(p, out)).value; r !in w'.repositories && !InFlight(w', r)
  {
    hide OnlyMoves, ActContext, ActRepository, ActServer;
    var q := w.processes[p];
    assert !Bound(q, r);
    if q.RepositoryRun? {
      FiledByBound(w, p, q, out, r);
    }
    hide Bound, InFlight;
    StillNotBound(w, Apply(w, Act(p, out)).value, p, r);
  }

  lemma {:induction false} StaysForgotten(w: World, labels: seq<Label>, r: string)
    requires r !in w.repositories && !InFlight(w, r) && NoAdd(labels, r) && Run(w, labels).Some?
    ensures r !in Run(w, labels).value.repositories
    decreases |labels|
  {
    hide Apply, InFlight;
    if labels != [] {
      assert NoAdd([labels[0]], r) by { assert labels[0] == [labels[0]][0]; }
      StepStaysForgotten(w, labels[0], r);
      forall i | 0 <= i < |labels| - 1 ensures labels[1..][i] == labels[i + 1] {}
      StaysForgotten(Apply(w, labels[0]).value, labels[1..], r);
    }
  }

  // ---------------------------------------------------------------- something under way

  /** From here the process files its repository, whatever its tool answers. */
  lemma FilesAfterTool(home: Homes, w: World, p: nat, q: Process) returns (labels: seq<Label>, end: World)
    requires p in w.processes && w.processes[p] == q && q.RepositoryRun? && Bound(q, q.name) && !q.rpc.Waiting? && q.name !in w.repositories
    ensures DisciplinedRun(home, w, labels) && Run(w, labels) == Some(end) && NoAdd(labels, q.name) && q.name in end.repositories
    ensures q.rop == Sync && q.name !in w.clones ==> q.name !in end.clones
    decreases match q.rpc case Inspect => 2 case Clone_ => 1 case _ => 0
  {
    var out := Broken(Some(Partial));
    var l := Act(p, out);
    var next := Apply(w, l).value;
    var rest: seq<Label>;
    FilesStep(w, p, q, out);
    if q.rpc.File? {
      NoMore(home, next);
      rest, end := [], next;
    } else {
      hide Apply, DisciplinedRun, Run;
      rest, end := FilesAfterTool(home, next, p, next.processes[p]);
    }
    assert Disciplined(home, w, l);
    hide Apply, DisciplinedRun, Run, Disciplined;
    FirstStep(home, w, l, next, rest, end);
    labels := [l] + rest;
  }

  lemma FilesStep(w: World, p: nat, q: Process, out: Outcome)
    requires p in w.processes && w.processes[p] == q && q.RepositoryRun? && Bound(q, q.name) && !q.rpc.Waiting? && q.name !in w.repositories
    requires out == Broken(Some(Partial))
    ensures Apply(w, Act(p, out)).Some?
    ensures var next := Apply(w, Act(p, out)).value;
            && (q.rop == Sync ==> next.clones == w.clones)
            && if q.rpc.File? then q.name in next.repositories
               else p in next.processes && Bound(next.processes[p], q.name) && next.processes[p].name == q.name && next.processes[p].rop == q.rop
                    && next.repositories == w.repositories
                    && next.processes[p].rpc == (if q.rpc.Inspect? then Clone_ else File(RepositoryFailed))
  {}

  lemma TakesItsLock(home: Homes, w: World, p: nat, q: Process)
    requires p in w.processes && w.processes[p] == q && q.RepositoryRun? && q.rpc.Waiting? && LockFree(w, q.name)
    ensures Apply(w, Acquire(p)) == Some(Goto(w, p, q.(rpc := Inspect))) && Disciplined(home, w, Acquire(p))
  {
    hide LockFree;
  }

  /** Whoever has the repository's lock may be killed. */
  lemma HolderKilled(home: Homes, w: World, o: nat, r: string)
    requires Inv(home, w) && o in w.processes && r in Holds(w.processes[o])
    ensures Apply(w, Crash(o)) == Some(Exit(w, o)) && Disciplined(home, w, Crash(o)) && LockFree(Exit(w, o), r)
  {
    hide GlobalOk, LocalOk;
  }

  /** An add or a sync that is under way can file the repository. */
  lemma BroughtBack(home: Homes, w: World, p: nat, r: string) returns (labels: seq<Label>, end: World)
    requires Inv(home, w) && r !in w.repositories && p in w.processes && Bound(w.processes[p], r)
    ensures DisciplinedRun(home, w, labels) && Run(w, labels) == Some(end) && NoAdd(labels, r) && r in end.repositories
  {
    hide Inv, DisciplinedRun, Run, LockFree, Holds, Apply, Disciplined;
    var q := w.processes[p];
    if !q.rpc.Waiting? {
      labels, end := FilesAfterTool(home, w, p, q);
    } else if LockFree(w, r) {
      TakesItsLock(home, w, p, q);
      var next := Goto(w, p, q.(rpc := Inspect));
      var rest, last := FilesAfterTool(home, next, p, next.processes[p]);
      FirstStep(home, w, Acquire(p), next, rest, last);
      labels, end := [Acquire(p)] + rest, last;
    } else {
      var o := SomeHolder(w, r);
      WaitingHoldsNothing(w, p, q);
      HolderKilled(home, w, o, r);
      var freed := Exit(w, o);
      TakesItsLock(home, freed, p, q);
      var next := Goto(freed, p, q.(rpc := Inspect));
      var rest, last := FilesAfterTool(home, next, p, next.processes[p]);
      FirstStep(home, freed, Acquire(p), next, rest, last);
      FirstStep(home, w, Crash(o), freed, [Acquire(p)] + rest, last);
      labels, end := [Crash(o)] + ([Acquire(p)] + rest), last;
    }
  }

  lemma SomeHolder(w: World, r: string) returns (o: nat)
    requires !LockFree(w, r)
    ensures o in w.processes && r in Holds(w.processes[o])
  {
    o :| o in w.processes && r in Holds(w.processes[o]);
  }

  lemma WaitingHoldsNothing(w: World, p: nat, q: Process)
    requires q.RepositoryRun? && q.rpc.Waiting?
    ensures Holds(q) == {}
  {}

  /** No run that starts no add of it brings the repository back. */
  ghost predicate GoneForGood(home: Homes, w: World, r: string) {
    forall labels :: DisciplinedRun(home, w, labels) && Run(w, labels).Some? && NoAdd(labels, r) ==> r !in Run(w, labels).value.repositories
  }

  /** Once a repository's record is gone it stays gone, until somebody starts an add of it, exactly when
      no add and no sync of it was under way. */
  lemma GoneExactlyWhen(home: Homes, w: World, r: string)
    requires Inv(home, w) && r !in w.repositories
    ensures GoneForGood(home, w, r) <==> !InFlight(w, r)
  {
    hide Inv, DisciplinedRun, Run;
    if !InFlight(w, r) {
      forall labels | DisciplinedRun(home, w, labels) && Run(w, labels).Some? && NoAdd(labels, r)
        ensures r !in Run(w, labels).value.repositories
      {
        StaysForgotten(w, labels, r);
      }
    } else {
      var p :| p in w.processes && Bound(w.processes[p], r);
      var labels, end := BroughtBack(home, w, p, r);
    }
  }

  // ---------------------------------------------------------------- what an add, a sync and a removal come to

  /** What one step of a repository operation left of everything but its own clone, record and process. */
  ghost predicate OnlyOf(w: World, w': World, p: nat, r: string) {
    && w'.records == w.records && w'.trees == w.trees && w'.shards == w.shards && w'.graphs == w.graphs
    && w'.processes - {p} == w.processes - {p}
    && forall s :: s != r ==> Same(w.clones, w'.clones, s) && Same(w.repositories, w'.repositories, s)
  }

  /** A fetch that succeeds brings its commits into the clone and moves no search ref, and READY is what
      is filed next. One that fails leaves the clone as it was and files FAILED, or nothing at all
      when it was cancelled; and there is no other way to go on from a fetch. */
  lemma SyncOutcome(w: World, p: nat, r: string, out: Outcome)
    requires p in w.processes && w.processes[p] == RepositoryRun(Sync, r, Clone_) && Apply(w, Act(p, out)).Some?
    ensures var w' := Apply(w, Act(p, out)).value;
            && OnlyOf(w, w', p, r) && w'.repositories == w.repositories
            && (out.Fetched? || out.Broken?)
            && (out.Fetched? ==>
                  && r in w.clones && w.clones[r].Whole? && r in w'.clones
                  && w'.clones[r] == Whole(w.clones[r].commits + out.commits, w.clones[r].refs)
                  && p in w'.processes && w'.processes[p] == RepositoryRun(Sync, r, File(RepositoryReady)))
            && (out.Broken? ==>
                  && w'.clones == w.clones
                  && (p in w'.processes <==> out.left.Some?)
                  && (p in w'.processes ==> w'.processes[p] == RepositoryRun(Sync, r, File(RepositoryFailed))))
  {
    hide OnlyMoves;
  }

  /** And over a whole clone every fetch can succeed. */
  lemma FetchPossible(w: World, p: nat, r: string, commits: set<string>)
    requires p in w.processes && w.processes[p] == RepositoryRun(Sync, r, Clone_) && r in w.clones && w.clones[r].Whole?
    ensures Apply(w, Act(p, Fetched(commits))).Some?
  {}

  /** A clone that succeeds has the commits and no search ref; one that fails leaves nothing new or a
      damaged directory, never over one that was there, and is filed FAILED. */
  lemma AddOutcome(w: World, p: nat, r: string, out: Outcome)
    requires p in w.processes && w.processes[p] == RepositoryRun(Add, r, Clone_) && Apply(w, Act(p, out)).Some?
    ensures var w' := Apply(w, Act(p, out)).value;
            && OnlyOf(w, w', p, r) && w'.repositories == w.repositories
            && (out.Fetched? || out.Broken?) && p in w'.processes
            && (out.Fetched? ==>
                  && r !in w.clones && r in w'.clones && w'.clones[r] == Whole(out.commits, map[])
                  && w'.processes[p] == RepositoryRun(Add, r, File(RepositoryReady)))
            && (out.Broken? ==>
                  && (r in w.clones || out.left.None? ==> w'.clones == w.clones)
                  && (r !in w.clones && out.left.Some? ==> r in w'.clones && w'.clones[r] == Damaged)
                  && w'.processes[p] == RepositoryRun(Add, r, File(RepositoryFailed)))
  {
    hide OnlyMoves;
  }

  /** The last step files how it went; of a removal that has deleted the clone, the record goes. */
  lemma FilingOutcome(w: World, p: nat, q: Process, out: Outcome)
    requires p in w.processes && w.processes[p] == q && q.RepositoryRun? && q.rpc.File?
    ensures Apply(w, Act(p, out)).Some?
    ensures var w' := Apply(w, Act(p, out)).value;
            && OnlyOf(w, w', p, q.name) && p !in w'.processes && w'.clones == w.clones
            && (if q.rop == Forget then q.name !in w'.repositories
                else q.name in w'.repositories && w'.repositories[q.name] == q.rpc.state)
  {
    hide Apply, OnlyMoves;
    FilesRepository(w, p, q, out);
  }

  lemma FilesRepository(w: World, p: nat, q: Process, out: Outcome)
    requires p in w.processes && w.processes[p] == q && q.RepositoryRun? && q.rpc.File?
    ensures Apply(w, Act(p, out)) == Some(w.(processes := w.processes - {p},
              repositories := if q.rop == Forget then w.repositories - {q.name} else w.repositories[q.name := q.rpc.state]))
  {
    hide OnlyMoves, ActClone, ActFetch, ContextsOf;
  }

  /** A removal deletes the clone; when that fails what is left of it is damaged, and the record stays. */
  lemma ForgetOutcome(w: World, p: nat, r: string, out: Outcome)
    requires p in w.processes && w.processes[p] == RepositoryRun(Forget, r, Clone_)
    ensures Apply(w, Act(p, out)).Some?
    ensures var w' := Apply(w, Act(p, out)).value;
            && OnlyOf(w, w', p, r) && w'.repositories == w.repositories
            && (if out.Broken? then p !in w'.processes && (r in w'.clones <==> r in w.clones) && (r in w'.clones ==> w'.clones[r] == Damaged)
                else r !in w'.clones && p in w'.processes && w'.processes[p].RepositoryRun? && w'.processes[p].rpc.File?)
  {
    hide OnlyMoves;
  }

  function Synced(w: World, r: string, commits: set<string>): World
    requires r in w.clones && w.clones[r].Whole?
  {
    w.(repositories := w.repositories[r := RepositoryReady], clones := w.clones[r := Whole(w.clones[r].commits + commits, w.clones[r].refs)])
  }

  lemma SyncSteps(w: World, p: nat, r: string, commits: set<string>)
    requires p !in w.processes && r in w.repositories && ValidName(r) && LockFree(w, r) && r in w.clones && w.clones[r].Whole?
    ensures var q := RepositoryRun(Sync, r, Waiting);
            var w1, w2, w3 := Goto(w, p, q), Goto(w, p, q.(rpc := Inspect)), Goto(w, p, q.(rpc := Clone_));
            && Apply(w, StartRepository(p, Sync, r)) == Some(w1) && Apply(w1, Acquire(p)) == Some(w2) && Apply(w2, Act(p, Done)) == Some(w3)
  {
    hide ValidName, OnlyMoves, ActClone, ActFetch;
    var q := RepositoryRun(Sync, r, Waiting);
    Alone(w.processes, p, q, q.(rpc := Inspect));
    Alone(w.processes, p, q.(rpc := Inspect), q.(rpc := Clone_));
    Alone(w.processes, p, q, q.(rpc := Clone_));
    assert LockFree(Goto(w, p, q), r);
    hide LockFree;
  }

  lemma FetchSteps(w: World, p: nat, r: string, commits: set<string>)
    requires p !in w.processes && r in w.clones && w.clones[r].Whole?
    ensures var q := RepositoryRun(Sync, r, Clone_);
            var fetched := w.(clones := w.clones[r := Whole(w.clones[r].commits + commits, w.clones[r].refs)]);
            && Apply(Goto(w, p, q), Act(p, Fetched(commits))) == Some(Goto(fetched, p, q.(rpc := File(RepositoryReady))))
            && Apply(Goto(fetched, p, q.(rpc := File(RepositoryReady))), Act(p, Done)) == Some(Synced(w, r, commits))
  {
    hide OnlyMoves, ActClone;
    Alone(w.processes, p, RepositoryRun(Sync, r, Clone_), RepositoryRun(Sync, r, File(RepositoryReady)));
    Alone(w.processes, p, RepositoryRun(Sync, r, File(RepositoryReady)), RepositoryRun(Sync, r, Waiting));
  }

  /** A sync of a managed repository nobody is at: its commits are in the clone and it is READY. */
  lemma SyncRuns(home: Homes, w: World, p: nat, r: string, commits: set<string>) returns (labels: seq<Label>, end: World)
    requires p !in w.processes && r in w.repositories && ValidName(r) && LockFree(w, r) && r in w.clones && w.clones[r].Whole?
    ensures DisciplinedRun(home, w, labels) && Run(w, labels) == Some(end) && end == Synced(w, r, commits)
  {
    var q := RepositoryRun(Sync, r, Waiting);
    var w1, w2, w3 := Goto(w, p, q), Goto(w, p, q.(rpc := Inspect)), Goto(w, p, q.(rpc := Clone_));
    var w4 := Goto(w.(clones := w.clones[r := Whole(w.clones[r].commits + commits, w.clones[r].refs)]), p, q.(rpc := File(RepositoryReady)));
    end := Synced(w, r, commits);
    SyncSteps(w, p, r, commits);
    FetchSteps(w, p, r, commits);
    hide Apply, Run, DisciplinedRun, ValidName, LockFree;
    NoMore(home, end);
    FirstStep(home, w4, Act(p, Done), end, [], end);
    FirstStep(home, w3, Act(p, Fetched(commits)), w4, [Act(p, Done)] + [], end);
    labels := [Act(p, Fetched(commits))] + ([Act(p, Done)] + []);
    FirstStep(home, w2, Act(p, Done), w3, labels, end);
    FirstStep(home, w1, Acquire(p), w2, [Act(p, Done)] + labels, end);
    labels := [Acquire(p)] + ([Act(p, Done)] + labels);
    FirstStep(home, w, StartRepository(p, Sync, r), w1, labels, end);
    labels := [StartRepository(p, Sync, r)] + labels;
  }

  /** What a sync is for: a create that pins commits the fetch brought can end READY on exactly them. */
  lemma SyncedCanBePinned(home: Homes, w: World, p: nat, r: string, commits: set<string>, id: string, pins: seq<string>, revisions: seq<string>)
    returns (synced: World, labels: seq<Label>, end: World)
    requires Inv(home, w) && p !in w.processes && r in w.repositories && ValidName(r) && LockFree(w, r) && r in w.clones && w.clones[r].Whole?
    requires pins != [] && Unrepeated(pins) && ValidName(id) && !HasDotDot(id) && id !in w.records && |revisions| == |pins|
    requires forall i :: 0 <= i < |pins| ==> ValidName(pins[i]) && |revisions[i]| == FULL_SHA
    requires forall i :: 0 <= i < |pins| ==> Resolves(w, pins[i], revisions[i]) || (pins[i] == r && revisions[i] in commits)
    requires forall s :: s in home(id) <==> s in pins
    requires forall d, m, n :: d in w.records && m in PinnedMembers(id, pins, revisions) && n in w.records[d].members ==> Apart(m, n)
    ensures DisciplinedRun(home, w, labels) && Run(w, labels) == Some(end) && synced == Synced(w, r, commits)
    ensures exists k :: 0 <= k <= |labels| && Run(w, labels[..k]) == Some(synced)
    ensures id in end.records && end.records[id] == Record(PinnedMembers(id, pins, revisions), Ready)
    ensures forall m :: m in end.records[id].members ==> Built(end, id, m)
  {
    hide Inv, DisciplinedRun, Run, Apply, ValidName, HasDotDot, LockFree, Apart, PinnedMembers, Built;
    var first, mid := SyncRuns(home, w, p, r, commits);
    RunInv(home, w, first);
    assert CanCreate(home, mid, id, pins, revisions);
    var second, last := CreateSucceeds(home, mid, p, id, pins, revisions);
    Chain(home, w, first, mid, second, last);
    synced, labels, end := mid, first + second, last;
    assert labels[..|first|] == first;
  }

  // ---------------------------------------------------------------- the run

  /** A repository that is managed, has its clone and backs no context, with nobody at work. */
  predicate Unused(w: World, r: string) {
    w.processes == map[] && ValidName(r) && r in w.repositories && r in w.clones && ContextsOf(w.records, r) == {}
  }

  lemma ForgetStarts(w: World, r: string)
    requires Unused(w, r)
    ensures var w1 := Goto(w, 0, RepositoryRun(Forget, r, Waiting));
            var w2 := Goto(w1, 1, RepositoryRun(Sync, r, Waiting));
            && Apply(w, StartRepository(0, Forget, r)) == Some(w1) && Apply(w1, StartRepository(1, Sync, r)) == Some(w2)
            && Apply(w2, Acquire(0)) == Some(Goto(w2, 0, RepositoryRun(Forget, r, Inspect)))
  {
    hide ValidName, ContextsOf;
    assert !ServerRuns(w);
    var w2 := Goto(Goto(w, 0, RepositoryRun(Forget, r, Waiting)), 1, RepositoryRun(Sync, r, Waiting));
    assert LockFree(w2, r);
  }

  lemma ForgetEnds(w: World, r: string)
    requires r in w.repositories && r in w.clones && ContextsOf(w.records, r) == {}
    requires w.processes == map[0 := RepositoryRun(Forget, r, Inspect), 1 := RepositoryRun(Sync, r, Waiting)]
    ensures var w1 := Goto(w, 0, RepositoryRun(Forget, r, Clone_));
            var w2 := Goto(w1.(clones := w.clones - {r}), 0, RepositoryRun(Forget, r, File(RepositoryReady)));
            var w3 := w.(repositories := w.repositories - {r}, clones := w.clones - {r}, processes := map[1 := RepositoryRun(Sync, r, Waiting)]);
            && Apply(w, Act(0, Done)) == Some(w1) && Apply(w1, Act(0, Done)) == Some(w2) && Apply(w2, Act(0, Done)) == Some(w3)
            && LockFree(w3, r)
  {
    hide Apply, ContextsOf, LockFree;
    var w1 := Goto(w, 0, RepositoryRun(Forget, r, Clone_));
    var w2 := Goto(w1.(clones := w.clones - {r}), 0, RepositoryRun(Forget, r, File(RepositoryReady)));
    ForgetInspects(w, r);
    ForgetDeletes(w1, r);
    ForgetFiles(w2, r);
    SyncAlone(w.(repositories := w.repositories - {r}, clones := w.clones - {r}, processes := map[1 := RepositoryRun(Sync, r, Waiting)]), r);
    OnlySync(w.processes, r, RepositoryRun(Forget, r, Clone_), RepositoryRun(Forget, r, File(RepositoryReady)));
  }

  lemma OnlySync(processes: map<nat, Process>, r: string, a: Process, b: Process)
    requires processes == map[0 := RepositoryRun(Forget, r, Inspect), 1 := RepositoryRun(Sync, r, Waiting)]
    ensures processes[0 := a][0 := b] - {0} == map[1 := RepositoryRun(Sync, r, Waiting)]
  {}

  lemma ForgetInspects(w: World, r: string)
    requires 0 in w.processes && w.processes[0] == RepositoryRun(Forget, r, Inspect) && r in w.repositories && ContextsOf(w.records, r) == {}
    ensures Apply(w, Act(0, Done)) == Some(Goto(w, 0, RepositoryRun(Forget, r, Clone_)))
  {
    hide ContextsOf, ActClone, ActFetch, OnlyMoves;
  }

  lemma ForgetDeletes(w: World, r: string)
    requires 0 in w.processes && w.processes[0] == RepositoryRun(Forget, r, Clone_)
    ensures Apply(w, Act(0, Done)) == Some(Goto(w.(clones := w.clones - {r}), 0, RepositoryRun(Forget, r, File(RepositoryReady))))
  {
    hide ContextsOf, ActClone, ActFetch, OnlyMoves;
  }

  lemma ForgetFiles(w: World, r: string)
    requires 0 in w.processes && w.processes[0] == RepositoryRun(Forget, r, File(RepositoryReady))
    ensures Apply(w, Act(0, Done)) == Some(Exit(w.(repositories := w.repositories - {r}), 0))
  {
    hide ContextsOf, ActClone, ActFetch, OnlyMoves;
  }

  lemma SyncAlone(w: World, r: string)
    requires w.processes == map[1 := RepositoryRun(Sync, r, Waiting)]
    ensures LockFree(w, r)
  {}

  /** `repo sync` reads the record before it takes the lock: a sync that was waiting for a `repo remove`
      files the removed repository again, and there is no clone. */
  lemma SyncFilesRemoved(home: Homes, w: World, r: string) returns (removed: World, labels: seq<Label>, more: seq<Label>, end: World)
    requires Unused(w, r)
    ensures DisciplinedRun(home, w, labels) && Run(w, labels) == Some(removed) && r !in removed.repositories && r !in removed.clones
    ensures NoAdd(labels + more, r) && DisciplinedRun(home, w, labels + more) && Run(w, labels + more) == Some(end)
    ensures r in end.repositories && r !in end.clones
  {
    hide DisciplinedRun, Run, Apply, ContextsOf, Unused, LockFree;
    var w1 := Goto(w, 0, RepositoryRun(Forget, r, Waiting));
    var w2 := Goto(w1, 1, RepositoryRun(Sync, r, Waiting));
    var w3 := Goto(w2, 0, RepositoryRun(Forget, r, Inspect));
    ForgetStarts(w, r);
    ProcessesOfTwo(w, r);
    ForgetEnds(w3, r);
    var w4 := Goto(w3, 0, RepositoryRun(Forget, r, Clone_));
    var w5 := Goto(w4.(clones := w.clones - {r}), 0, RepositoryRun(Forget, r, File(RepositoryReady)));
    removed := w3.(repositories := w.repositories - {r}, clones := w.clones - {r}, processes := map[1 := RepositoryRun(Sync, r, Waiting)]);
    labels := [StartRepository(0, Forget, r)] + ([StartRepository(1, Sync, r)] + ([Acquire(0)] + ([Act(0, Done)] + ([Act(0, Done)] + ([Act(0, Done)] + [])))));
    NoMore(home, removed);
    FirstStep(home, w5, Act(0, Done), removed, [], removed);
    FirstStep(home, w4, Act(0, Done), w5, [Act(0, Done)] + [], removed);
    FirstStep(home, w3, Act(0, Done), w4, [Act(0, Done)] + ([Act(0, Done)] + []), removed);
    var acts := [Act(0, Done)] + ([Act(0, Done)] + ([Act(0, Done)] + []));
    FirstStep(home, w2, Acquire(0), w3, acts, removed);
    FirstStep(home, w1, StartRepository(1, Sync, r), w2, [Acquire(0)] + acts, removed);
    FirstStep(home, w, StartRepository(0, Forget, r), w1, [StartRepository(1, Sync, r)] + ([Acquire(0)] + acts), removed);
    var q := RepositoryRun(Sync, r, Waiting);
    TakesItsLock(home, removed, 1, q);
    var next := Goto(removed, 1, q.(rpc := Inspect));
    var rest, last := FilesAfterTool(home, next, 1, q.(rpc := Inspect));
    FirstStep(home, removed, Acquire(1), next, rest, last);
    more, end := [Acquire(1)] + rest, last;
    Chain(home, w, labels, removed, more, end);
  }

  lemma ProcessesOfTwo(w: World, r: string)
    requires Unused(w, r)
    ensures var w2 := Goto(Goto(w, 0, RepositoryRun(Forget, r, Waiting)), 1, RepositoryRun(Sync, r, Waiting));
            Goto(w2, 0, RepositoryRun(Forget, r, Inspect)).processes == map[0 := RepositoryRun(Forget, r, Inspect), 1 := RepositoryRun(Sync, r, Waiting)]
    ensures r in w.repositories && r in w.clones && ContextsOf(w.records, r) == {}
  {
    hide ContextsOf;
  }

  /** And that happens: from an empty data directory, the repository is added first. */
  lemma SyncFilesRemovedHappens(home: Homes, r: string) returns (labels: seq<Label>, removed: World, more: seq<Label>, end: World)
    requires ValidName(r)
    ensures DisciplinedRun(home, EMPTY, labels) && Run(EMPTY, labels) == Some(removed) && r !in removed.repositories
    ensures NoAdd(more, r) && DisciplinedRun(home, EMPTY, labels + more) && Run(EMPTY, labels + more) == Some(end)
    ensures r in end.repositories && r !in end.clones && Reachable(home, end)
  {
    hide DisciplinedRun, Run, ValidName;
    assert LockFree(EMPTY, r);
    var first, w := AddsRepository(home, EMPTY, 0, r, {});
    assert ContextsOf(w.records, r) == {};
    var gone, second, third, last := SyncFilesRemoved(home, w, r);
    Chain(home, EMPTY, first, w, second, gone);
    Chain(home, EMPTY, first, w, second + third, last);
    assert first + second + third == first + (second + third);
    assert NoAdd(third, r) by {
      forall i | 0 <= i < |third| ensures (second + third)[|second| + i] == third[i] {}
    }
    labels, removed, more, end := first + second, gone, third, last;
  }
}
