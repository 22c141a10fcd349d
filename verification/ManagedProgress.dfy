/** No deadlock: repository locks are taken in one total order, commands never wait for the data
    directory's lock, and a server that waits for it holds nothing. */
module ManagedProgress {
  import opened Options
  import opened NameOrder
  import opened Lifecycle
  import opened Managed
  import opened ManagedInvariant
  import opened ManagedProofs
  import opened ManagedSteps
  import opened ManagedSafety
  import opened ManagedTheorems
  import opened ManagedRecovery

  /** Waiting for a repository's lock. */
  predicate WaitsForLock(q: Process) {
    match q
    case ContextRun(_, _, want, held, _, _, pc) => pc.Locking? && held < |want|
    case RepositoryRun(_, _, rpc) => rpc.Waiting?
    case Server(_) => false
  }

  predicate Waits(q: Process) {
    WaitsForLock(q) || (q.Server? && q.spc.Queued?)
  }

  function NextLock(q: Process): string
    requires WaitsForLock(q)
  {
    match q
    case ContextRun(_, _, want, held, _, _, _) => want[held]
    case RepositoryRun(_, name, _) => name
  }

  /** A step of a process that is already there: not a new one, and not one dying. */
  predicate OwnStep(l: Label) { l.Acquire? || l.Act? }

  /** Some process in a set waits for a lock that no other in the set waits for one above. */
  lemma {:induction false} Topmost(w: World, waiting: set<nat>) returns (p: nat)
    requires waiting != {}
    requires forall o :: o in waiting ==> o in w.processes && WaitsForLock(w.processes[o])
    ensures p in waiting
    ensures forall o :: o in waiting ==> !Less(NextLock(w.processes[p]), NextLock(w.processes[o]))
    decreases |waiting|
  {
    hide NextLock, Less, WaitsForLock;
    var q :| q in waiting;
    LessIrreflexive(NextLock(w.processes[q]));
    if waiting == {q} {
      p := q;
    } else {
      p := Topmost(w, waiting - {q});
      if Less(NextLock(w.processes[p]), NextLock(w.processes[q])) {
        forall o | o in waiting ensures !Less(NextLock(w.processes[q]), NextLock(w.processes[o])) {
          if o != q && Less(NextLock(w.processes[q]), NextLock(w.processes[o])) {
            LessTransitive(NextLock(w.processes[p]), NextLock(w.processes[q]), NextLock(w.processes[o]));
          }
        }
        p := q;
      }
    }
  }

  /** Whoever holds a lock while waiting waits for one above it. */
  lemma WaitsAbove(home: Homes, w: World, q: Process, r: string)
    requires LocalOk(home, w, q) && WaitsForLock(q) && r in Holds(q)
    ensures Less(r, NextLock(q))
  {
    hide WorkOk;
    var j :| 0 <= j < q.held && q.want[j] == r;
  }

  /** When everybody waits, whoever waits for the topmost lock can have it. */
  lemma TopmostCanHave(home: Homes, w: World, p: nat)
    requires Inv(home, w) && p in w.processes && WaitsForLock(w.processes[p])
    requires forall o :: o in w.processes ==> Waits(w.processes[o])
    requires forall o :: o in w.processes && WaitsForLock(w.processes[o]) ==>
               !Less(NextLock(w.processes[p]), NextLock(w.processes[o]))
    ensures Apply(w, Acquire(p)).Some?
  {
    hide GlobalOk, LocalOk, Less, NextLock;
    forall o | o in w.processes ensures NextLock(w.processes[p]) !in Holds(w.processes[o]) {
      if NextLock(w.processes[p]) in Holds(w.processes[o]) {
        WaitsAbove(home, w, w.processes[o], NextLock(w.processes[p]));
      }
    }
    assert LockFree(w, NextLock(w.processes[p]));
    CanTake(w, p);
  }

  lemma CanTake(w: World, p: nat)
    requires p in w.processes && WaitsForLock(w.processes[p]) && LockFree(w, NextLock(w.processes[p]))
    ensures Apply(w, Acquire(p)).Some?
  {
    hide LockFree;
  }

  /** A process that does not wait has a step of its own. */
  lemma ActorCanStep(home: Homes, w: World, p: nat) returns (l: Label)
    requires Inv(home, w) && p in w.processes && !Waits(w.processes[p])
    ensures OwnStep(l) && l.p == p && Apply(w, l).Some?
  {
    var q := w.processes[p];
    match q
    case ContextRun(_, _, _, _, _, _, _) =>
      if AtIt(q) {
        hide Inv, Apply;
        InvWorks(home, w, p);
        var out := GoesFurther(home, w, p, q);
        l := Act(p, out);
      } else {
        assert LocalOk(home, w, q);
        hide Inv, LocalOk, DoWrite;
        l := Act(p, Broken(None));
      }
    case RepositoryRun(_, _, _) =>
      hide Inv;
      l := Act(p, Broken(None));
    case Server(_) =>
      hide Inv;
      l := Act(p, Done);
  }

  /** In every reachable state with a process left, some process can take a step of its own. */
  lemma NoDeadlock(home: Homes, w: World) returns (l: Label)
    requires Reachable(home, w) && w.processes != map[]
    ensures OwnStep(l) && Apply(w, l).Some?
  {
    ReachableInv(home, w);
    hide Reachable, Apply;
    if p :| p in w.processes && !Waits(w.processes[p]) {
      hide Inv;
      l := ActorCanStep(home, w, p);
    } else {
      var waiting := set p | p in w.processes && WaitsForLock(w.processes[p]);
      if waiting != {} {
        var p := Topmost(w, waiting);
        TopmostCanHave(home, w, p);
        l := Acquire(p);
      } else {
        var p :| p in w.processes;
        assert forall o :: o in w.processes ==> o !in waiting;
        OnlyServers(w, p);
        l := Acquire(p);
      }
    }
  }

  lemma OnlyServers(w: World, p: nat)
    requires p in w.processes
    requires forall o :: o in w.processes ==> w.processes[o].Server? && w.processes[o].spc.Queued?
    ensures Apply(w, Acquire(p)).Some?
  {}

  /** Where no command that changes what is served is at work and nothing is served, a server comes up,
      and serves exactly the READY records there are. */
  lemma ServerComesUp(home: Homes, w: World, p: nat) returns (labels: seq<Label>, end: World, snapshot: map<string, Record>)
    requires p !in w.processes && !ManagementRuns(w) && !ServerRuns(w)
    ensures DisciplinedRun(home, w, labels) && Run(w, labels) == Some(end)
    ensures end == w.(processes := w.processes[p := Server(Serving(snapshot))])
    ensures forall id :: id in snapshot <==> id in w.records && w.records[id].state == Ready
    ensures forall id :: id in snapshot ==> snapshot[id] == w.records[id]
  {
    snapshot := ReadyRecords(w.records);
    var w1, w2 := Goto(w, p, Server(Queued)), Goto(w, p, Server(Locked));
    end := Goto(w, p, Server(Serving(snapshot)));
    ServerSteps(w, p);
    hide Apply, Run, DisciplinedRun, ReadyRecords;
    NoMore(home, end);
    FirstStep(home, w2, Act(p, Done), end, [], end);
    FirstStep(home, w1, Acquire(p), w2, [Act(p, Done)] + [], end);
    FirstStep(home, w, StartServer(p), w1, [Acquire(p)] + ([Act(p, Done)] + []), end);
    labels := [StartServer(p)] + ([Acquire(p)] + ([Act(p, Done)] + []));
  }

  lemma ServerSteps(w: World, p: nat)
    requires p !in w.processes && !ManagementRuns(w) && !ServerRuns(w)
    ensures var w1, w2 := Goto(w, p, Server(Queued)), Goto(w, p, Server(Locked));
            && Apply(w, StartServer(p)) == Some(w1) && Apply(w1, Acquire(p)) == Some(w2)
            && Apply(w2, Act(p, Done)) == Some(Goto(w, p, Server(Serving(ReadyRecords(w.records)))))
  {
    hide OnlyMoves;
    Alone(w.processes, p, Server(Queued), Server(Locked));
    Alone(w.processes, p, Server(Locked), Server(Serving(ReadyRecords(w.records))));
    var w1 := Goto(w, p, Server(Queued));
    assert !ManagementRuns(w1) && !ServerRuns(w1);
  }
}
